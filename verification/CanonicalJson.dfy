/**
 The canonical JSON writer whose bytes DecisionPackage signatures are checked over
 (pkg/intents/gcl_adapter.go).
 */
module CanonicalJson {
  import opened Basics
  import opened ByteSort
  import opened Utf8
  import Shortest = JsonShortest
  import Text = JsonText

  /** A decoded value: objects are maps, integers are numbers, and a float keeps its token. */
  datatype Json =
    | Null
    | Bool(b: bool)
    | Int(n: int)
    | Float(token: string)
    | Str(s: string)
    | Arr(items: seq<Json>)
    | Obj(members: map<string, Json>)

  /** Python's float notation for a token, or nothing when the token is outside the range of a double. */
  type Formatter = string -> Option<string>

  /** What the float printer is known to do: it keeps to the grammar and is a projection. */
  ghost predicate Lawful(fmt: Formatter) {
    forall t | Text.IsFloatToken(t) && fmt(t).Some? ::
      Text.IsFloatToken(fmt(t).value) && fmt(fmt(t).value) == fmt(t)
  }

  // ---------------------------------------------------------------- decoding

  /** Decoding a text into a value; a repeated key keeps its last member. */
  function Value(d: Text.Doc): Json
    decreases d
  {
    match d
    case Null => Null
    case Bool(b) => Bool(b)
    case Int(n) => Int(n)
    case Float(token) => Float(token)
    case Str(s) => Str(s)
    case Arr(items) => Arr(seq(|items|, i requires 0 <= i < |items| => Value(items[i])))
    case Obj(members) => Obj(MemberMap(members))
  }

  function MemberMap(members: seq<Text.Member>): map<string, Json>
    decreases members
  {
    if members == [] then map[]
    else
      var last := members[|members| - 1];
      MemberMap(members[..|members| - 1])[last.key := Value(last.value)]
  }

  /** Of several members with one key the last one counts, and there are no other keys. */
  lemma {:induction false} LastMemberWins(members: seq<Text.Member>, i: nat)
    requires i < |members| && forall j | i < j < |members| :: members[j].key != members[i].key
    ensures members[i].key in MemberMap(members) && MemberMap(members)[members[i].key] == Value(members[i].value)
    ensures forall k | k in MemberMap(members) :: HasKey(members, k)
    decreases |members|
  {
    var n := |members| - 1;
    KeysAreMembers(members);
    if i < n {
      LastMemberWins(members[..n], i);
    }
  }

  lemma {:induction false} KeysAreMembers(members: seq<Text.Member>)
    ensures forall k | k in MemberMap(members) :: HasKey(members, k)
    decreases |members|
  {
    if members != [] {
      var n := |members| - 1;
      KeysAreMembers(members[..n]);
      forall k | k in MemberMap(members) ensures HasKey(members, k) {
        if k != members[n].key {
          assert HasKey(members[..n], k);
          var j :| 0 <= j < n && members[..n][j].key == k;
          assert members[j].key == k;
        }
      }
    }
  }

  /** Every float leaf holds a grammatical token, as in any decoded value. */
  predicate WellFormed(v: Json)
    decreases v
  {
    match v
    case Float(token) => Text.IsFloatToken(token)
    case Arr(items) => forall i | 0 <= i < |items| :: WellFormed(items[i])
    case Obj(members) => forall k | k in members :: WellFormed(members[k])
    case _ => true
  }

  // ---------------------------------------------------------------- key order

  ghost predicate IsLeast(k: string, keys: set<string>) {
    k in keys && forall x | x in keys && x != k :: Less(k, x)
  }

  lemma {:induction false} LeastExists(keys: set<string>)
    requires keys != {}
    ensures exists k :: IsLeast(k, keys)
  {
    var k :| k in keys;
    var rest := keys - {k};
    assert keys == rest + {k};
    if rest == {} {
      assert IsLeast(k, keys);
    } else {
      LeastExists(rest);
      var m :| IsLeast(m, rest);
      LessTotal(k, m);
      if Less(m, k) {
        assert IsLeast(m, keys);
      } else {
        forall x | x in keys && x != k ensures Less(k, x) {
          if x != m { LessTransitive(k, m, x); }
        }
        assert IsLeast(k, keys);
      }
    }
  }

  /** The members' keys, each once, in sorted order. */
  ghost function SortedKeys(keys: set<string>): (ks: seq<string>)
    ensures StrictlySorted(ks)
    ensures forall k :: k in ks <==> k in keys
    decreases keys
  {
    if keys == {} then []
    else
      LeastExists(keys);
      var k :| IsLeast(k, keys);
      [k] + SortedKeys(keys - {k})
  }

  lemma SortedTail(a: seq<string>)
    requires StrictlySorted(a) && a != []
    ensures forall k :: k in a[1..] <==> k in a && k != a[0]
  {
    LessTotal(a[0], a[0]);
  }

  lemma HasElement(b: seq<string>)
    ensures b == [] || exists k :: k in b
  {
    if b != [] { assert b[0] in b; }
  }

  lemma {:induction false} SortedUnique(a: seq<string>, b: seq<string>)
    requires StrictlySorted(a) && StrictlySorted(b)
    requires forall k :: k in a <==> k in b
    ensures a == b
  {
    HasElement(b);
    if a != [] {
      assert a[0] in b && b != [] && b[0] in a;
      LessTotal(a[0], b[0]);
      assert a[0] == b[0];
      SortedTail(a);
      SortedTail(b);
      SortedUnique(a[1..], b[1..]);
      assert a == [a[0]] + a[1..] && b == [b[0]] + b[1..];
    }
  }

  /** The byte-wise key sort is the code-point sort. */
  lemma KeysSortedByCodePoint(keys: set<string>)
    ensures var ks := SortedKeys(keys); forall i, j | 0 <= i < j < |ks| :: TextLess(ks[i], ks[j])
  {
    var ks := SortedKeys(keys);
    forall i, j | 0 <= i < j < |ks| ensures TextLess(ks[i], ks[j]) {
      ByteOrderIsCodePointOrder(ks[i], ks[j]);
    }
  }

  // ---------------------------------------------------------------- the canonical document

  /** The writer fails only on a float that has no finite double. */
  predicate Writable(v: Json, fmt: Formatter)
    decreases v
  {
    match v
    case Float(token) => fmt(token).Some?
    case Arr(items) => forall i | 0 <= i < |items| :: Writable(items[i], fmt)
    case Obj(members) => forall k | k in members :: Writable(members[k], fmt)
    case _ => true
  }

  /** Only floats can be refused: with a notation for every token every value is written. */
  lemma {:induction false} FloatsDecide(v: Json, fmt: Formatter)
    requires forall t :: fmt(t).Some?
    ensures Writable(v, fmt)
    decreases v
  {
    match v {
      case Arr(items) =>
        forall i | 0 <= i < |items| ensures Writable(items[i], fmt) { FloatsDecide(items[i], fmt); }
      case Obj(members) =>
        forall k | k in members ensures Writable(members[k], fmt) { FloatsDecide(members[k], fmt); }
      case _ =>
    }
  }

  ghost function Canon(v: Json, fmt: Formatter): Text.Doc
    requires Writable(v, fmt)
    decreases v
  {
    match v
    case Null => Text.Null
    case Bool(b) => Text.Bool(b)
    case Int(n) => Text.Int(n)
    case Float(token) => Text.Float(fmt(token).value)
    case Str(s) => Text.Str(s)
    case Arr(items) => Text.Arr(seq(|items|, i requires 0 <= i < |items| => Canon(items[i], fmt)))
    case Obj(members) =>
      var ks := SortedKeys(members.Keys);
      Text.Obj(seq(|ks|, i requires 0 <= i < |ks| && ks[i] in members =>
                 Text.Member(ks[i], Canon(members[ks[i]], fmt))))
  }

  /** The text the writer produces, and its bytes. */
  ghost function CanonicalText(v: Json, fmt: Formatter): string
    requires Writable(v, fmt)
  {
    Text.Render(Canon(v, fmt), false)
  }

  ghost function CanonicalBytes(v: Json, fmt: Formatter): seq<Byte>
    requires Writable(v, fmt)
  {
    Encode(CanonicalText(v, fmt))
  }

  /** The value with every float in the printer's notation: what two signers must agree on. */
  ghost function Normalize(v: Json, fmt: Formatter): Json
    requires Writable(v, fmt)
    decreases v
  {
    match v
    case Float(token) => Float(fmt(token).value)
    case Arr(items) => Arr(seq(|items|, i requires 0 <= i < |items| => Normalize(items[i], fmt)))
    case Obj(members) => Obj(map k | k in members :: Normalize(members[k], fmt))
    case _ => v
  }

  lemma {:induction false} CanonWellFormed(v: Json, fmt: Formatter)
    requires Lawful(fmt) && WellFormed(v) && Writable(v, fmt)
    ensures Text.WellFormed(Canon(v, fmt))
    decreases v
  {
    match v {
      case Arr(items) =>
        forall i | 0 <= i < |items| ensures Text.WellFormed(Canon(items[i], fmt)) {
          CanonWellFormed(items[i], fmt);
        }
      case Obj(members) =>
        forall k | k in members ensures Text.WellFormed(Canon(members[k], fmt)) {
          CanonWellFormed(members[k], fmt);
        }
      case _ =>
    }
  }

  // ---------------------------------------------------------------- what the bytes determine

  ghost predicate DistinctKeys(members: seq<Text.Member>) {
    forall i, j | 0 <= i < j < |members| :: members[i].key != members[j].key
  }

  ghost predicate HasKey(members: seq<Text.Member>, k: string) {
    exists i :: 0 <= i < |members| && members[i].key == k
  }

  /** Members with distinct keys, in any order, decode to the map from each key to its value. */
  lemma {:induction false} DistinctMembers(members: seq<Text.Member>)
    requires DistinctKeys(members)
    ensures forall k :: k in MemberMap(members) <==> HasKey(members, k)
    ensures forall i | 0 <= i < |members| ::
      members[i].key in MemberMap(members) && MemberMap(members)[members[i].key] == Value(members[i].value)
    decreases |members|
  {
    if members != [] {
      var n := |members| - 1;
      var front := members[..n];
      DistinctMembers(front);
      forall k | k in MemberMap(members)
        ensures HasKey(members, k)
      {
        if k != members[n].key {
          assert HasKey(front, k);
          var i :| 0 <= i < |front| && front[i].key == k;
          assert members[i].key == k;
        }
      }
      forall i | 0 <= i < |members|
        ensures members[i].key in MemberMap(members)
        ensures MemberMap(members)[members[i].key] == Value(members[i].value)
      {
        if i < n { assert front[i] == members[i]; }
      }
    }
  }

  /** Decoding the canonical document gives the normalised value. */
  lemma {:induction false} CanonDecodes(v: Json, fmt: Formatter)
    requires Writable(v, fmt)
    ensures Value(Canon(v, fmt)) == Normalize(v, fmt)
    decreases v
  {
    match v {
      case Arr(items) =>
        forall i | 0 <= i < |items| ensures Value(Canon(items[i], fmt)) == Normalize(items[i], fmt) {
          CanonDecodes(items[i], fmt);
        }
      case Obj(members) =>
        forall k | k in members ensures Value(Canon(members[k], fmt)) == Normalize(members[k], fmt) {
          CanonDecodes(members[k], fmt);
        }
        ObjectDecodes(members, fmt);
      case _ =>
    }
  }

  lemma SortedMembersDistinct(members: map<string, Json>, fmt: Formatter)
    requires Writable(Obj(members), fmt)
    ensures DistinctKeys(Canon(Obj(members), fmt).members)
  {
    var ks := SortedKeys(members.Keys);
    forall i, j | 0 <= i < j < |ks| ensures ks[i] != ks[j] {
      LessTotal(ks[i], ks[j]);
    }
  }

  lemma ObjectDecodes(members: map<string, Json>, fmt: Formatter)
    requires Writable(Obj(members), fmt)
    requires forall k | k in members :: Value(Canon(members[k], fmt)) == Normalize(members[k], fmt)
    ensures Value(Canon(Obj(members), fmt)) == Normalize(Obj(members), fmt)
  {
    var ms := Canon(Obj(members), fmt).members;
    SortedMembersDistinct(members, fmt);
    DistinctMembers(ms);
    var decoded := MemberMap(ms);
    forall k ensures k in decoded <==> k in members {
      CanonKeys(members, fmt, k);
    }
    forall k | k in members ensures decoded[k] == Normalize(members[k], fmt) {
      var i := CanonMemberAt(members, fmt, k);
      assert decoded[ms[i].key] == Value(ms[i].value);
    }
    assert decoded == Normalize(Obj(members), fmt).members;
  }

  lemma CanonMemberAt(members: map<string, Json>, fmt: Formatter, k: string) returns (i: nat)
    requires Writable(Obj(members), fmt) && k in members
    ensures var ms := Canon(Obj(members), fmt).members;
            i < |ms| && ms[i] == Text.Member(k, Canon(members[k], fmt))
  {
    var ks := SortedKeys(members.Keys);
    assert k in ks;
    i :| i < |ks| && ks[i] == k;
  }

  lemma CanonKeys(members: map<string, Json>, fmt: Formatter, k: string)
    requires Writable(Obj(members), fmt)
    ensures HasKey(Canon(Obj(members), fmt).members, k) <==> k in members
  {
    var ks := SortedKeys(members.Keys);
    var ms := Canon(Obj(members), fmt).members;
    if HasKey(ms, k) {
      var i :| 0 <= i < |ms| && ms[i].key == k;
      assert ks[i] in members.Keys;
    }
    if k in members {
      var i := CanonMemberAt(members, fmt, k);
    }
  }

  /** Normalising first changes nothing: the canonical document depends on the normalised value only. */
  lemma {:induction false} CanonOfNormalized(v: Json, fmt: Formatter)
    requires Lawful(fmt) && WellFormed(v) && Writable(v, fmt)
    ensures Writable(Normalize(v, fmt), fmt)
    ensures Canon(Normalize(v, fmt), fmt) == Canon(v, fmt)
    decreases v
  {
    var w := Normalize(v, fmt);
    match v {
      case Arr(items) =>
        forall i | 0 <= i < |items|
          ensures Writable(w.items[i], fmt) && Canon(w.items[i], fmt) == Canon(items[i], fmt)
        {
          CanonOfNormalized(items[i], fmt);
        }
      case Obj(members) =>
        assert w.members.Keys == members.Keys;
        forall k | k in members
          ensures Writable(w.members[k], fmt) && Canon(w.members[k], fmt) == Canon(members[k], fmt)
        {
          CanonOfNormalized(members[k], fmt);
        }
        assert Canon(w, fmt).members == Canon(v, fmt).members;
      case _ =>
    }
  }

  /**
   The writer is uniquely decodable: a conforming parser run on the text, followed by anything that
   cannot extend a number, returns the normalised value and exactly what followed.
   */
  lemma UniquelyDecodable(v: Json, fmt: Formatter, rest: string)
    requires Lawful(fmt) && WellFormed(v) && Writable(v, fmt) && Text.EndsNumber(rest)
    ensures Text.ParseValue(CanonicalText(v, fmt) + rest) == Some((Canon(v, fmt), rest))
    ensures Value(Canon(v, fmt)) == Normalize(v, fmt)
  {
    CanonWellFormed(v, fmt);
    Text.RoundTrip(Canon(v, fmt), false, rest);
    CanonDecodes(v, fmt);
  }

  /** Two values are signed by the same bytes exactly when they are the same value up to float notation. */
  lemma SameBytesIffSameValue(v: Json, w: Json, fmt: Formatter)
    requires Lawful(fmt) && WellFormed(v) && WellFormed(w) && Writable(v, fmt) && Writable(w, fmt)
    ensures CanonicalBytes(v, fmt) == CanonicalBytes(w, fmt) <==> Normalize(v, fmt) == Normalize(w, fmt)
  {
    if CanonicalBytes(v, fmt) == CanonicalBytes(w, fmt) {
      EncodeInjective(CanonicalText(v, fmt), CanonicalText(w, fmt));
      UniquelyDecodable(v, fmt, "");
      UniquelyDecodable(w, fmt, "");
    }
    CanonOfNormalized(v, fmt);
    CanonOfNormalized(w, fmt);
  }

  // ---------------------------------------------------------------- canonicalising a payload

  /** `canonicalGCLJSON`: decode one value, reject trailing data, and write it canonically. */
  ghost function Canonicalize(payload: string, fmt: Formatter): Option<string> {
    match Text.Parse(payload)
    case None => None
    case Some(d) => if Writable(Value(d), fmt) then Some(CanonicalText(Value(d), fmt)) else None
  }

  lemma {:induction false} ValueWellFormed(d: Text.Doc)
    requires Text.WellFormed(d)
    ensures WellFormed(Value(d))
    decreases d
  {
    match d {
      case Arr(items) =>
        forall i | 0 <= i < |items| ensures WellFormed(Value(items[i])) { ValueWellFormed(items[i]); }
      case Obj(members) => MembersWellFormed(members);
      case _ =>
    }
  }

  lemma {:induction false} MembersWellFormed(members: seq<Text.Member>)
    requires forall i | 0 <= i < |members| :: Text.WellFormed(members[i].value)
    ensures forall k | k in MemberMap(members) :: WellFormed(MemberMap(members)[k])
    decreases members
  {
    if members != [] {
      MembersWellFormed(members[..|members| - 1]);
      ValueWellFormed(members[|members| - 1].value);
    }
  }

  lemma CanonicalFixed(v: Json, fmt: Formatter)
    requires Lawful(fmt) && WellFormed(v) && Writable(v, fmt)
    ensures Canonicalize(CanonicalText(v, fmt), fmt) == Some(CanonicalText(v, fmt))
  {
    CanonWellFormed(v, fmt);
    Text.ParseRender(Canon(v, fmt), false);
    CanonDecodes(v, fmt);
    CanonOfNormalized(v, fmt);
  }

  /** A payload that has a canonical text: its value, which is well formed and writable. */
  lemma CanonicalizedValue(payload: string, fmt: Formatter) returns (v: Json)
    requires Canonicalize(payload, fmt).Some?
    ensures Text.Parse(payload).Some? && v == Value(Text.Parse(payload).value)
    ensures WellFormed(v) && Writable(v, fmt) && Canonicalize(payload, fmt) == Some(CanonicalText(v, fmt))
  {
    v := Value(Text.Parse(payload).value);
    Text.ParseWellFormed(payload);
    ValueWellFormed(Text.Parse(payload).value);
  }

  /** Canonicalising the canonical text of any payload changes nothing. */
  lemma CanonicalizeIdempotent(payload: string, fmt: Formatter)
    requires Lawful(fmt) && Canonicalize(payload, fmt).Some?
    ensures Canonicalize(Canonicalize(payload, fmt).value, fmt) == Canonicalize(payload, fmt)
  {
    var v := CanonicalizedValue(payload, fmt);
    CanonicalFixed(v, fmt);
  }

  /** No text with the same members in the same order is shorter than the canonical one. */
  lemma CanonicalizeShortest(payload: string, fmt: Formatter, other: string)
    requires Lawful(fmt) && Canonicalize(payload, fmt).Some?
    requires Text.Parse(other) == Text.Parse(Canonicalize(payload, fmt).value)
    ensures |Canonicalize(payload, fmt).value| <= |other|
  {
    var v := CanonicalizedValue(payload, fmt);
    CanonWellFormed(v, fmt);
    Text.ParseRender(Canon(v, fmt), false);
    Shortest.ShortestText(other, Canon(v, fmt));
  }

  /** Two payloads have the same canonical text exactly when they say the same up to float notation. */
  lemma SameTextIffSameValue(p: string, q: string, fmt: Formatter)
    requires Lawful(fmt) && Canonicalize(p, fmt).Some? && Canonicalize(q, fmt).Some?
    ensures Canonicalize(p, fmt) == Canonicalize(q, fmt) <==>
            Normalize(Value(Text.Parse(p).value), fmt) == Normalize(Value(Text.Parse(q).value), fmt)
  {
    var v := CanonicalizedValue(p, fmt);
    var w := CanonicalizedValue(q, fmt);
    SameBytesIffSameValue(v, w, fmt);
    if CanonicalBytes(v, fmt) == CanonicalBytes(w, fmt) {
      EncodeInjective(CanonicalText(v, fmt), CanonicalText(w, fmt));
    }
  }

  /** Two texts with the same members at every depth, each object's keys distinct, in any two orders. */
  ghost predicate Permuted(d: Text.Doc, e: Text.Doc)
    decreases d
  {
    match d
    case Arr(items) =>
      e.Arr? && |e.items| == |items| && forall i | 0 <= i < |items| :: Permuted(items[i], e.items[i])
    case Obj(members) =>
      && e.Obj? && |e.members| == |members|
      && DistinctKeys(members) && DistinctKeys(e.members)
      && (forall i | 0 <= i < |members| :: HasPermuted(members[i], e.members))
      && (forall j | 0 <= j < |members| :: HasKey(members, e.members[j].key))
    case _ => e == d
  }

  ghost predicate HasPermuted(m: Text.Member, others: seq<Text.Member>)
    decreases m
  {
    exists j :: 0 <= j < |others| && others[j].key == m.key && Permuted(m.value, others[j].value)
  }

  lemma {:induction false} PermutedSameValue(d: Text.Doc, e: Text.Doc)
    requires Permuted(d, e)
    ensures Value(d) == Value(e)
    decreases d
  {
    match d {
      case Arr(items) =>
        forall i | 0 <= i < |items| ensures Value(items[i]) == Value(e.items[i]) {
          PermutedSameValue(items[i], e.items[i]);
        }
      case Obj(members) =>
        forall i, j | 0 <= i < |members| && 0 <= j < |members| && Permuted(members[i].value, e.members[j].value)
          ensures Value(members[i].value) == Value(e.members[j].value)
        {
          PermutedSameValue(members[i].value, e.members[j].value);
        }
        forall i | 0 <= i < |members| ensures HasSameValue(members[i], e.members) {
          assert HasPermuted(members[i], e.members);
        }
        SameMembers(members, e.members);
      case _ =>
    }
  }

  ghost predicate HasSameValue(m: Text.Member, others: seq<Text.Member>) {
    exists j :: 0 <= j < |others| && others[j].key == m.key && Value(m.value) == Value(others[j].value)
  }

  lemma SameMembers(ms: seq<Text.Member>, ns: seq<Text.Member>)
    requires DistinctKeys(ms) && DistinctKeys(ns)
    requires forall i | 0 <= i < |ms| :: HasSameValue(ms[i], ns)
    requires forall j | 0 <= j < |ns| :: HasKey(ms, ns[j].key)
    ensures MemberMap(ms) == MemberMap(ns)
  {
    DistinctMembers(ms);
    DistinctMembers(ns);
    var a, b := MemberMap(ms), MemberMap(ns);
    forall k | k in a ensures k in b && b[k] == a[k] {
      assert HasKey(ms, k);
      var i :| 0 <= i < |ms| && ms[i].key == k;
      assert HasSameValue(ms[i], ns);
      var j :| 0 <= j < |ns| && ns[j].key == ms[i].key && Value(ms[i].value) == Value(ns[j].value);
    }
    forall k | k in b ensures k in a {
      assert HasKey(ns, k);
      var j :| 0 <= j < |ns| && ns[j].key == k;
      assert HasKey(ms, ns[j].key);
    }
    assert a == b;
  }

  /** Payloads that differ in member order at any depth, white space and escapes have the same canonical text, or none. */
  lemma MemberOrderIrrelevant(p: string, q: string, fmt: Formatter)
    requires Text.Parse(p).Some? && Text.Parse(q).Some? && Permuted(Text.Parse(p).value, Text.Parse(q).value)
    ensures Canonicalize(p, fmt) == Canonicalize(q, fmt)
  {
    PermutedSameValue(Text.Parse(p).value, Text.Parse(q).value);
  }
}
