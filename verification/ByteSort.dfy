/** Sorting by string keys in Go's byte-wise order: `sort.Strings`, and `sort.Slice` on a name. */
module ByteSort {
  import opened Utf8

  /** Go's `<` on strings. */
  predicate Less(a: string, b: string) {
    BytesLess(Encode(a), Encode(b))
  }

  lemma LessTotal(a: string, b: string)
    ensures Less(a, b) || a == b || Less(b, a)
    ensures !(Less(a, b) && Less(b, a)) && !Less(a, a)
  {
    TextLessTotal(a, b);
    ByteOrderIsCodePointOrder(a, b);
    ByteOrderIsCodePointOrder(b, a);
    ByteOrderIsCodePointOrder(a, a);
  }

  lemma LessTransitive(a: string, b: string, c: string)
    requires Less(a, b) && Less(b, c)
    ensures Less(a, c)
  {
    ByteOrderIsCodePointOrder(a, b);
    ByteOrderIsCodePointOrder(b, c);
    ByteOrderIsCodePointOrder(a, c);
    TextLessTransitive(a, b, c);
  }

  lemma NotLessTransitive(a: string, b: string, c: string)
    requires !Less(b, a) && !Less(c, b)
    ensures !Less(c, a)
  {
    LessTotal(a, b);
    LessTotal(b, c);
    LessTotal(a, c);
    if Less(a, b) && Less(b, c) { LessTransitive(a, b, c); }
  }

  ghost predicate SortedBy<T>(xs: seq<T>, key: T -> string) {
    forall i, j | 0 <= i < j < |xs| :: !Less(key(xs[j]), key(xs[i]))
  }

  function InsertBy<T>(xs: seq<T>, x: T, key: T -> string): (r: seq<T>)
    ensures multiset(r) == multiset(xs) + multiset{x}
  {
    if xs == [] then [x]
    else if Less(key(x), key(xs[0])) then [x] + xs
    else
      assert xs == [xs[0]] + xs[1..];
      [xs[0]] + InsertBy(xs[1..], x, key)
  }

  function SortBy<T>(xs: seq<T>, key: T -> string): (r: seq<T>)
    ensures multiset(r) == multiset(xs)
  {
    if xs == [] then []
    else
      assert xs == xs[..|xs| - 1] + [xs[|xs| - 1]];
      InsertBy(SortBy(xs[..|xs| - 1], key), xs[|xs| - 1], key)
  }

  lemma InMultiset<T>(r: seq<T>, xs: seq<T>, x: T)
    requires multiset(r) == multiset(xs)
    ensures x in r <==> x in xs
  {
    assert x in r <==> x in multiset(r);
    assert x in xs <==> x in multiset(xs);
  }

  lemma {:induction false} InsertSorted<T>(xs: seq<T>, x: T, key: T -> string)
    requires SortedBy(xs, key)
    ensures SortedBy(InsertBy(xs, x, key), key)
    decreases |xs|
  {
    if xs != [] {
      LessTotal(key(x), key(xs[0]));
      if Less(key(x), key(xs[0])) {
        forall j | 0 <= j < |xs| ensures !Less(key(xs[j]), key(x)) {
          if j > 0 { NotLessTransitive(key(x), key(xs[0]), key(xs[j])); }
        }
      } else {
        var rest := InsertBy(xs[1..], x, key);
        InsertSorted(xs[1..], x, key);
        forall j | 0 <= j < |rest| ensures !Less(key(rest[j]), key(xs[0])) {
          assert rest[j] in multiset(rest);
          assert rest[j] == x || rest[j] in xs[1..];
        }
      }
    }
  }

  /** The result is a sorted rearrangement of the input. */
  lemma {:induction false} SortBySorts<T>(xs: seq<T>, key: T -> string)
    ensures SortedBy(SortBy(xs, key), key) && multiset(SortBy(xs, key)) == multiset(xs)
    decreases |xs|
  {
    if xs != [] {
      SortBySorts(xs[..|xs| - 1], key);
      InsertSorted(SortBy(xs[..|xs| - 1], key), xs[|xs| - 1], key);
    }
  }

  function SortStrings(xs: seq<string>): (r: seq<string>)
    ensures multiset(r) == multiset(xs) && |r| == |xs|
  {
    assert |multiset(SortBy(xs, (s: string) => s))| == |multiset(xs)|;
    SortBy(xs, (s: string) => s)
  }

  predicate Distinct<T(==)>(xs: seq<T>) {
    forall i, j | 0 <= i < j < |xs| :: xs[i] != xs[j]
  }

  predicate StrictlySorted(keys: seq<string>) {
    forall i, j | 0 <= i < j < |keys| :: Less(keys[i], keys[j])
  }

  lemma {:induction false} DistinctCounts<T>(xs: seq<T>, x: T)
    requires Distinct(xs)
    ensures multiset(xs)[x] <= 1
    decreases |xs|
  {
    if xs != [] {
      assert xs == [xs[0]] + xs[1..];
      DistinctCounts(xs[1..], x);
    }
  }

  lemma RepeatCounts<T>(xs: seq<T>, i: nat, j: nat)
    requires i < j < |xs| && xs[i] == xs[j]
    ensures multiset(xs)[xs[i]] >= 2
  {
    assert xs == xs[..j] + [xs[j]] + xs[j + 1..];
    assert xs[i] in xs[..j];
  }

  lemma DistinctSame<T>(r: seq<T>, xs: seq<T>)
    requires Distinct(xs) && multiset(r) == multiset(xs)
    ensures Distinct(r)
  {
    forall i, j | 0 <= i < j < |r| ensures r[i] != r[j] {
      DistinctCounts(xs, r[i]);
      if r[i] == r[j] { RepeatCounts(r, i, j); }
    }
  }

  /** Distinct strings come out in strictly increasing order. */
  lemma SortStringsStrict(xs: seq<string>)
    requires Distinct(xs)
    ensures StrictlySorted(SortStrings(xs))
    ensures forall x :: x in SortStrings(xs) <==> x in xs
  {
    var r := SortStrings(xs);
    SortBySorts(xs, (s: string) => s);
    DistinctSame(r, xs);
    forall i, j | 0 <= i < j < |r| ensures Less(r[i], r[j]) {
      LessTotal(r[i], r[j]);
    }
    forall x ensures x in r <==> x in xs {
      InMultiset(r, xs, x);
    }
  }

  ghost predicate IsGreatest(k: string, keys: set<string>) {
    k in keys && forall x | x in keys && x != k :: Less(x, k)
  }

  lemma {:induction false} GreatestExists(keys: set<string>)
    requires keys != {}
    ensures exists k :: IsGreatest(k, keys)
    decreases keys
  {
    var k :| k in keys;
    var rest := keys - {k};
    assert keys == rest + {k};
    if rest == {} {
      assert IsGreatest(k, keys);
    } else {
      GreatestExists(rest);
      var m :| IsGreatest(m, rest);
      LessTotal(k, m);
      if Less(k, m) {
        assert IsGreatest(m, keys);
      } else {
        forall x | x in keys && x != k ensures Less(x, k) {
          if x != m { LessTransitive(x, m, k); }
        }
        assert IsGreatest(k, keys);
      }
    }
  }
}
