/**
 The writer in its own form: loops that append to a byte buffer, over runes, array items and the
 members of a map taken in whatever order the map yields them (pkg/intents/gcl_adapter.go).
 */
module CanonicalWriter {
  import opened Basics
  import Decimal
  import opened ByteSort
  import opened Utf8
  import Text = JsonText
  import opened CanonicalJson

  class Buffer {
    var bytes: seq<Byte>

    constructor ()
      ensures bytes == []
    {
      bytes := [];
    }

    method Write(s: string)
      modifies this
      ensures bytes == old(bytes) + Encode(s)
    {
      bytes := bytes + Encode(s);
    }
  }

  lemma EncodeAppend(before: seq<Byte>, a: string, b: string)
    ensures before + Encode(a) + Encode(b) == before + Encode(a + b)
  {
    EncodeConcat(a, b);
  }

  lemma {:induction false} RunesAppend(a: string, c: char)
    ensures Text.RenderRunes(a + [c], false) == Text.RenderRunes(a, false) + Text.RenderRune(c, false)
  {
    if a == "" {
      assert a + [c] == [c];
      assert Text.RenderRunes([c][1..], false) == "";
    } else {
      RunesAppend(a[1..], c);
      assert (a + [c])[1..] == a[1..] + [c];
    }
  }

  /** The writer's two-digit control escape is the four-digit escape of section 7 of RFC 8259. */
  lemma ControlEscape(c: char)
    requires c as int < 0x20
    ensures "\\u00" + [Text.HexDigit(c as int / 16), Text.HexDigit(c as int % 16)]
         == ['\\', 'u'] + Text.Hex4(c as int)
  {}

  method WriteRune(dst: Buffer, c: char)
    modifies dst
    ensures dst.bytes == old(dst.bytes) + Encode(Text.RenderRune(c, false))
  {
    if c == '"' {
      dst.Write("\\\"");
    } else if c == '\\' {
      dst.Write("\\\\");
    } else if c as int == 0x08 {
      dst.Write("\\b");
    } else if c as int == 0x0C {
      dst.Write("\\f");
    } else if c == '\n' {
      dst.Write("\\n");
    } else if c == '\r' {
      dst.Write("\\r");
    } else if c == '\t' {
      dst.Write("\\t");
    } else if c as int < 0x20 {
      ControlEscape(c);
      dst.Write("\\u00" + [Text.HexDigit(c as int / 16), Text.HexDigit(c as int % 16)]);
    } else {
      dst.Write([c]);
    }
  }

  /** `writeCanonicalGCLString`. */
  method WriteCanonicalString(dst: Buffer, value: string)
    modifies dst
    ensures dst.bytes == old(dst.bytes) + Encode(Text.RenderString(value, false))
  {
    dst.Write("\"");
    ghost var out := "\"";
    for i := 0 to |value|
      invariant out == "\"" + Text.RenderRunes(value[..i], false)
      invariant dst.bytes == old(dst.bytes) + Encode(out)
    {
      WriteRune(dst, value[i]);
      assert value[..i + 1] == value[..i] + [value[i]];
      RunesAppend(value[..i], value[i]);
      EncodeAppend(old(dst.bytes), out, Text.RenderRune(value[i], false));
      out := out + Text.RenderRune(value[i], false);
    }
    assert value[..|value|] == value;
    dst.Write("\"");
    EncodeAppend(old(dst.bytes), out, "\"");
  }

  // ---------------------------------------------------------------- members of a map

  /** `sort.Strings` on the keys of a map, which are distinct. */
  method SortKeys(keys: seq<string>) returns (sorted: seq<string>)
    requires Distinct(keys)
    ensures StrictlySorted(sorted)
    ensures forall k :: k in sorted <==> k in keys
  {
    sorted := SortStrings(keys);
    SortStringsStrict(keys);
  }

  /** `for key := range typed`: the keys in an arbitrary order. */
  method Keys(members: map<string, Json>) returns (keys: seq<string>)
    ensures Distinct(keys)
    ensures forall k :: k in keys <==> k in members
  {
    keys := [];
    var left := members.Keys;
    while left != {}
      invariant left <= members.Keys
      invariant Distinct(keys)
      invariant forall k :: k in keys <==> k in members.Keys - left
      decreases left
    {
      var k :| k in left;
      assert k !in keys;
      keys, left := keys + [k], left - {k};
    }
  }

  // ---------------------------------------------------------------- values

  function Separated(first: bool, s: string): string {
    if first then s else "," + s
  }

  function Commas(texts: seq<string>): string {
    if texts == [] then ""
    else if |texts| == 1 then texts[0]
    else texts[0] + ("," + Commas(texts[1..]))
  }

  lemma Regroup(a: string, b: string, c: string)
    ensures a + ("," + (b + c)) == a + ("," + b) + c
  {}

  lemma {:induction false} CommasAppend(texts: seq<string>, x: string)
    ensures Commas(texts + [x]) == Commas(texts) + Separated(texts == [], x)
    decreases |texts|
  {
    if |texts| > 1 {
      var rest := texts[1..];
      assert (texts + [x])[1..] == rest + [x];
      CommasAppend(rest, x);
      Regroup(texts[0], Commas(rest), "," + x);
    } else if |texts| == 1 {
      assert (texts + [x])[1..] == [x];
    }
  }

  function ItemTexts(ds: seq<Text.Doc>): (texts: seq<string>)
    ensures |texts| == |ds|
  {
    seq(|ds|, i requires 0 <= i < |ds| => Text.Render(ds[i], false))
  }

  function MemberTexts(ms: seq<Text.Member>): (texts: seq<string>)
    ensures |texts| == |ms|
  {
    seq(|ms|, i requires 0 <= i < |ms| => Text.RenderMember(ms[i], false))
  }

  lemma ItemsCons(ds: seq<Text.Doc>)
    requires ds != []
    ensures Text.RenderItems(ds, false)
         == if |ds| == 1 then Text.Render(ds[0], false)
            else Text.Render(ds[0], false) + ("," + Text.RenderItems(ds[1..], false))
  {}

  lemma {:induction false} ItemsAreCommas(ds: seq<Text.Doc>)
    ensures Text.RenderItems(ds, false) == Commas(ItemTexts(ds))
    decreases |ds|
  {
    if ds != [] {
      ItemsCons(ds);
      ItemsAreCommas(ds[1..]);
      assert ItemTexts(ds)[1..] == ItemTexts(ds[1..]);
    }
  }

  lemma ItemsAppend(ds: seq<Text.Doc>, d: Text.Doc)
    ensures Text.RenderItems(ds + [d], false)
         == Text.RenderItems(ds, false) + Separated(ds == [], Text.Render(d, false))
  {
    ItemsAreCommas(ds);
    ItemsAreCommas(ds + [d]);
    assert ItemTexts(ds + [d]) == ItemTexts(ds) + [Text.Render(d, false)];
    CommasAppend(ItemTexts(ds), Text.Render(d, false));
  }

  lemma MembersCons(ms: seq<Text.Member>)
    requires ms != []
    ensures Text.RenderMembers(ms, false)
         == if |ms| == 1 then Text.RenderMember(ms[0], false)
            else Text.RenderMember(ms[0], false) + ("," + Text.RenderMembers(ms[1..], false))
  {}

  lemma {:induction false} MembersAreCommas(ms: seq<Text.Member>)
    ensures Text.RenderMembers(ms, false) == Commas(MemberTexts(ms))
    decreases |ms|
  {
    if ms != [] {
      MembersCons(ms);
      MembersAreCommas(ms[1..]);
      assert MemberTexts(ms)[1..] == MemberTexts(ms[1..]);
    }
  }

  lemma MembersAppend(ms: seq<Text.Member>, m: Text.Member)
    ensures Text.RenderMembers(ms + [m], false)
         == Text.RenderMembers(ms, false) + Separated(ms == [], Text.RenderMember(m, false))
  {
    MembersAreCommas(ms);
    MembersAreCommas(ms + [m]);
    assert MemberTexts(ms + [m]) == MemberTexts(ms) + [Text.RenderMember(m, false)];
    CommasAppend(MemberTexts(ms), Text.RenderMember(m, false));
  }

  /** The documents of a list of writable values. */
  ghost predicate AreDocs(docs: seq<Text.Doc>, items: seq<Json>, fmt: Formatter) {
    |docs| == |items| &&
    forall j | 0 <= j < |items| :: Writable(items[j], fmt) && docs[j] == Canon(items[j], fmt)
  }

  ghost predicate AreMembers(docs: seq<Text.Member>, keys: seq<string>, members: map<string, Json>, fmt: Formatter) {
    |docs| == |keys| &&
    forall j | 0 <= j < |keys| ::
      keys[j] in members && Writable(members[keys[j]], fmt) &&
      docs[j] == CanonMember(keys[j], members, fmt)
  }

  ghost function CanonMember(k: string, members: map<string, Json>, fmt: Formatter): Text.Member
    requires k in members && Writable(members[k], fmt)
  {
    Text.Member(k, Canon(members[k], fmt))
  }

  /** The array text after the items written so far. */
  ghost function ArrayOut(docs: seq<Text.Doc>): string {
    "[" + Text.RenderItems(docs, false)
  }

  ghost function ObjectOut(docs: seq<Text.Member>): string {
    "{" + Text.RenderMembers(docs, false)
  }

  lemma ArrayStep(before: seq<Byte>, docs: seq<Text.Doc>, items: seq<Json>, i: nat, fmt: Formatter)
    requires i < |items| && AreDocs(docs, items[..i], fmt) && Writable(items[i], fmt)
    ensures AreDocs(docs + [Canon(items[i], fmt)], items[..i + 1], fmt)
    ensures before + Encode(ArrayOut(docs)) + Encode(Separated(i == 0, CanonicalText(items[i], fmt)))
         == before + Encode(ArrayOut(docs + [Canon(items[i], fmt)]))
  {
    var d := Canon(items[i], fmt);
    var piece := Separated(docs == [], Text.Render(d, false));
    assert items[..i + 1] == items[..i] + [items[i]];
    ItemsAppend(docs, d);
    assert ArrayOut(docs + [d]) == ArrayOut(docs) + piece;
    EncodeAppend(before, ArrayOut(docs), piece);
  }

  lemma ObjectStep(before: seq<Byte>, docs: seq<Text.Member>, keys: seq<string>, i: nat,
                   members: map<string, Json>, fmt: Formatter)
    requires i < |keys| && AreMembers(docs, keys[..i], members, fmt)
    requires keys[i] in members && Writable(members[keys[i]], fmt)
    ensures AreMembers(docs + [CanonMember(keys[i], members, fmt)], keys[..i + 1], members, fmt)
    ensures before + Encode(ObjectOut(docs)) +
            Encode(Separated(i == 0, Text.RenderMember(CanonMember(keys[i], members, fmt), false)))
         == before + Encode(ObjectOut(docs + [CanonMember(keys[i], members, fmt)]))
  {
    var m := CanonMember(keys[i], members, fmt);
    var piece := Separated(docs == [], Text.RenderMember(m, false));
    assert keys[..i + 1] == keys[..i] + [keys[i]];
    MembersAppend(docs, m);
    assert ObjectOut(docs + [m]) == ObjectOut(docs) + piece;
    EncodeAppend(before, ObjectOut(docs), piece);
  }

  lemma ArrayDocs(docs: seq<Text.Doc>, items: seq<Json>, fmt: Formatter)
    requires AreDocs(docs, items, fmt)
    ensures Writable(Arr(items), fmt) && Canon(Arr(items), fmt) == Text.Arr(docs)
    ensures CanonicalText(Arr(items), fmt) == ArrayOut(docs) + "]"
  {
    assert Canon(Arr(items), fmt).items == docs;
  }

  lemma ObjectDocs(docs: seq<Text.Member>, keys: seq<string>, members: map<string, Json>, fmt: Formatter)
    requires AreMembers(docs, keys, members, fmt)
    requires StrictlySorted(keys) && forall k :: k in keys <==> k in members
    ensures Writable(Obj(members), fmt) && Canon(Obj(members), fmt) == Text.Obj(docs)
    ensures CanonicalText(Obj(members), fmt) == ObjectOut(docs) + "}"
  {
    SortedUnique(keys, SortedKeys(members.Keys));
    forall k | k in members ensures Writable(members[k], fmt) {
      assert k in keys;
    }
    assert Canon(Obj(members), fmt).members == docs;
  }

  /**
   `writeCanonicalGCLJSON`. Whatever order the map yields its keys in, the bytes appended are the
   canonical bytes of the value; it fails exactly on a float without a finite double.
   */
  method WriteCanonicalJson(dst: Buffer, v: Json, fmt: Formatter) returns (ok: bool)
    modifies dst
    ensures ok == Writable(v, fmt)
    ensures ok ==> dst.bytes == old(dst.bytes) + CanonicalBytes(v, fmt)
    decreases v, 1
  {
    ok := true;
    match v {
      case Null => dst.Write("null");
      case Bool(b) => dst.Write(if b then "true" else "false");
      case Int(n) => dst.Write(Decimal.FromInt(n));
      case Float(token) =>
        match fmt(token) {
          case None => ok := false;
          case Some(t) => dst.Write(t);
        }
      case Str(s) => WriteCanonicalString(dst, s);
      case Arr(items) => ok := WriteArray(dst, items, fmt);
      case Obj(members) => ok := WriteObject(dst, members, fmt);
    }
  }

  method WriteArray(dst: Buffer, items: seq<Json>, fmt: Formatter) returns (ok: bool)
    modifies dst
    ensures ok == Writable(Arr(items), fmt)
    ensures ok ==> dst.bytes == old(dst.bytes) + CanonicalBytes(Arr(items), fmt)
    decreases items, 0
  {
    dst.Write("[");
    ghost var docs: seq<Text.Doc> := [];
    assert ArrayOut(docs) == "[";
    for i := 0 to |items|
      invariant AreDocs(docs, items[..i], fmt)
      invariant dst.bytes == old(dst.bytes) + Encode(ArrayOut(docs))
    {
      ok := WriteItem(dst, i == 0, items[i], fmt);
      if !ok {
        return;
      }
      ArrayStep(old(dst.bytes), docs, items, i, fmt);
      docs := docs + [Canon(items[i], fmt)];
    }
    assert items[..|items|] == items;
    ArrayDocs(docs, items, fmt);
    dst.Write("]");
    EncodeAppend(old(dst.bytes), ArrayOut(docs), "]");
    ok := true;
  }

  method WriteItem(dst: Buffer, first: bool, v: Json, fmt: Formatter) returns (ok: bool)
    modifies dst
    ensures ok == Writable(v, fmt)
    ensures ok ==> dst.bytes == old(dst.bytes) + Encode(Separated(first, CanonicalText(v, fmt)))
    decreases v, 2
  {
    if !first {
      dst.Write(",");
    }
    ok := WriteCanonicalJson(dst, v, fmt);
    if ok && !first {
      EncodeAppend(old(dst.bytes), ",", CanonicalText(v, fmt));
    }
  }

  method WriteObject(dst: Buffer, members: map<string, Json>, fmt: Formatter) returns (ok: bool)
    modifies dst
    ensures ok == Writable(Obj(members), fmt)
    ensures ok ==> dst.bytes == old(dst.bytes) + CanonicalBytes(Obj(members), fmt)
    decreases Obj(members), 0
  {
    var unsorted := Keys(members);
    var keys := SortKeys(unsorted);
    dst.Write("{");
    ghost var docs: seq<Text.Member> := [];
    assert ObjectOut(docs) == "{";
    for i := 0 to |keys|
      invariant AreMembers(docs, keys[..i], members, fmt)
      invariant dst.bytes == old(dst.bytes) + Encode(ObjectOut(docs))
    {
      assert keys[i] in keys;
      ok := WriteMember(dst, i == 0, keys[i], members[keys[i]], fmt);
      if !ok {
        return;
      }
      ObjectStep(old(dst.bytes), docs, keys, i, members, fmt);
      docs := docs + [CanonMember(keys[i], members, fmt)];
    }
    assert keys[..|keys|] == keys;
    ObjectDocs(docs, keys, members, fmt);
    dst.Write("}");
    EncodeAppend(old(dst.bytes), ObjectOut(docs), "}");
    ok := true;
  }

  method WriteMember(dst: Buffer, first: bool, key: string, v: Json, fmt: Formatter) returns (ok: bool)
    modifies dst
    ensures ok == Writable(v, fmt)
    ensures ok ==>
      dst.bytes == old(dst.bytes) + Encode(Separated(first, Text.RenderMember(Text.Member(key, Canon(v, fmt)), false)))
    decreases v, 2
  {
    if !first {
      dst.Write(",");
    }
    label start:
    WriteCanonicalString(dst, key);
    dst.Write(":");
    ghost var out := Text.RenderString(key, false);
    EncodeAppend(old@start(dst.bytes), out, ":");
    ok := WriteCanonicalJson(dst, v, fmt);
    if ok {
      EncodeAppend(old@start(dst.bytes), out + ":", CanonicalText(v, fmt));
      if !first {
        EncodeAppend(old(dst.bytes), ",", out + ":" + CanonicalText(v, fmt));
      }
    }
  }

  /** `canonicalGCLJSON`. */
  method CanonicalGclJson(payload: string, fmt: Formatter) returns (r: Option<seq<Byte>>)
    ensures r.Some? <==> Canonicalize(payload, fmt).Some?
    ensures r.Some? ==> r.value == Encode(Canonicalize(payload, fmt).value)
  {
    var parsed := Text.Parse(payload);
    if parsed == None {
      return None;
    }
    var result := new Buffer();
    var ok := WriteCanonicalJson(result, Value(parsed.value), fmt);
    if !ok {
      return None;
    }
    r := Some(result.bytes);
  }
}
