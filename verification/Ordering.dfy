/** The string order of JavaScript's `<` and the stable sorts built on it. */
module Ordering {
  import opened Utf16

  /** Lexicographic order by code unit. */
  predicate Less(a: Text, b: Text) {
    if b == [] then false
    else if a == [] then true
    else if a[0] != b[0] then a[0] < b[0]
    else Less(a[1..], b[1..])
  }

  lemma {:induction false} LessTotal(a: Text, b: Text)
    ensures Less(a, b) || Less(b, a) || a == b
    ensures !(Less(a, b) && Less(b, a)) && (a == b ==> !Less(a, b))
  {
    if a != [] && b != [] && a[0] == b[0] {
      LessTotal(a[1..], b[1..]);
      assert a == [a[0]] + a[1..] && b == [b[0]] + b[1..];
    }
  }

  lemma {:induction false} LessTransitive(a: Text, b: Text, c: Text)
    requires Less(a, b) && Less(b, c)
    ensures Less(a, c)
  {
    if a != [] && a[0] == b[0] && b[0] == c[0] {
      LessTransitive(a[1..], b[1..], c[1..]);
    }
  }

  /** `a` and `b` agree before `k`, and there `a` ends first or has the smaller unit. */
  predicate PartAt(a: Text, b: Text, k: nat) {
    k <= |a| && k < |b| && a[..k] == b[..k] && (k == |a| || a[k] < b[k])
  }

  /** The order is that of the first difference, a prefix coming first. */
  lemma {:induction false} LessMeans(a: Text, b: Text)
    ensures Less(a, b) <==> exists k: nat :: PartAt(a, b, k)
  {
    if b != [] && a != [] && a[0] == b[0] {
      LessMeans(a[1..], b[1..]);
      if Less(a, b) {
        var k: nat :| PartAt(a[1..], b[1..], k);
        assert a[..k + 1] == [a[0]] + a[1..][..k] && b[..k + 1] == [b[0]] + b[1..][..k];
        assert PartAt(a, b, k + 1);
      }
      if k: nat :| PartAt(a, b, k) {
        assert k > 0;
        assert a[1..][..k - 1] == a[..k][1..] && b[1..][..k - 1] == b[..k][1..];
        assert PartAt(a[1..], b[1..], k - 1);
      }
    } else {
      if Less(a, b) { assert PartAt(a, b, 0); }
      forall k: nat | 0 < k <= |a| && k < |b| ensures !PartAt(a, b, k) { PartAtOnce(a, b, k); }
    }
  }

  lemma PartAtOnce(a: Text, b: Text, k: nat)
    requires 0 < k <= |a| && k < |b| && a[0] != b[0]
    ensures !PartAt(a, b, k)
  {
    assert a[..k][0] != b[..k][0];
  }

  /** A value filed under a text key: an object entry, or a composite part. */
  datatype Keyed<+T> = Keyed(key: Text, value: T)

  function Keys<T>(xs: seq<Keyed<T>>): (ks: seq<Text>)
    ensures |ks| == |xs| && forall i :: 0 <= i < |xs| ==> ks[i] == xs[i].key
  {
    seq(|xs|, i requires 0 <= i < |xs| => xs[i].key)
  }

  ghost predicate DistinctKeys<T>(xs: seq<Keyed<T>>) {
    forall i, j :: 0 <= i < j < |xs| ==> xs[i].key != xs[j].key
  }

  ghost predicate Sorted<T>(xs: seq<Keyed<T>>) {
    forall i, j :: 0 <= i < j < |xs| ==> !Less(xs[j].key, xs[i].key)
  }

  /** Place `x` before the first element whose key is not below its own. */
  function Insert<T>(x: Keyed<T>, xs: seq<Keyed<T>>): seq<Keyed<T>> {
    if xs == [] || !Less(xs[0].key, x.key) then [x] + xs
    else [xs[0]] + Insert(x, xs[1..])
  }

  /** Stable ascending sort by key: what `Array.prototype.sort` returns. */
  function Sort<T>(xs: seq<Keyed<T>>): seq<Keyed<T>> {
    if xs == [] then [] else Insert(xs[0], Sort(xs[1..]))
  }

  lemma {:induction false} InsertKeeps<T>(x: Keyed<T>, xs: seq<Keyed<T>>)
    requires Sorted(xs)
    ensures Sorted(Insert(x, xs))
    ensures multiset(Insert(x, xs)) == multiset{x} + multiset(xs)
  {
    hide Less;
    if xs == [] || !Less(xs[0].key, x.key) {
      forall j | 0 <= j < |xs|
        ensures !Less(xs[j].key, x.key)
      {
        if Less(xs[j].key, x.key) && j > 0 {
          LessTotal(xs[0].key, xs[j].key);
          if xs[0].key != xs[j].key { LessTransitive(xs[0].key, xs[j].key, x.key); }
        }
      }
    } else {
      assert xs == [xs[0]] + xs[1..];
      InsertKeeps(x, xs[1..]);
      var r := Insert(x, xs[1..]);
      forall j | 0 <= j < |r|
        ensures !Less(r[j].key, xs[0].key)
      {
        assert r[j] in multiset(r);
        LessTotal(xs[0].key, x.key);
      }
    }
  }

  lemma {:induction false} SortSorts<T>(xs: seq<Keyed<T>>)
    ensures Sorted(Sort(xs)) && multiset(Sort(xs)) == multiset(xs)
    ensures |Sort(xs)| == |xs|
  {
    if xs != [] {
      SortSorts(xs[1..]);
      InsertKeeps(xs[0], Sort(xs[1..]));
      assert xs == [xs[0]] + xs[1..];
    }
    assert |multiset(Sort(xs))| == |multiset(xs)|;
  }

  lemma {:induction false} SortKeepsDistinct<T>(xs: seq<Keyed<T>>)
    requires DistinctKeys(xs)
    ensures DistinctKeys(Sort(xs))
  {
    if xs != [] {
      SortKeepsDistinct(xs[1..]);
      SortSorts(xs[1..]);
      forall y | y in Sort(xs[1..])
        ensures y.key != xs[0].key
      {
        assert y in multiset(Sort(xs[1..]));
      }
      InsertKeepsDistinct(xs[0], Sort(xs[1..]));
    }
  }

  lemma {:induction false} InsertKeepsDistinct<T>(x: Keyed<T>, xs: seq<Keyed<T>>)
    requires DistinctKeys(xs) && Sorted(xs) && forall y :: y in xs ==> y.key != x.key
    ensures DistinctKeys(Insert(x, xs))
  {
    hide Less;
    if xs != [] && Less(xs[0].key, x.key) {
      InsertKeepsDistinct(x, xs[1..]);
      InsertKeeps(x, xs[1..]);
      var r := Insert(x, xs[1..]);
      forall j | 0 <= j < |r|
        ensures r[j].key != xs[0].key
      {
        assert r[j] in multiset(r);
      }
    }
  }

  /** Values filed under one key are one value. */
  ghost predicate SharedKeysAgree<T>(xs: seq<Keyed<T>>) {
    forall i, j :: 0 <= i < |xs| && 0 <= j < |xs| && xs[i].key == xs[j].key ==> xs[i] == xs[j]
  }

  /** Sorted sequences whose shared keys agree are determined by their contents. */
  lemma {:induction false} SortedUnique<T>(xs: seq<Keyed<T>>, ys: seq<Keyed<T>>)
    requires Sorted(xs) && Sorted(ys) && SharedKeysAgree(xs)
    requires multiset(xs) == multiset(ys)
    ensures xs == ys
  {
    hide Sorted, SharedKeysAgree;
    assert |multiset(xs)| == |multiset(ys)|;
    if xs != [] {
      HeadsAgree(xs, ys);
      RestOf(xs);
      RestOf(ys);
      SortedUnique(xs[1..], ys[1..]);
      assert xs == [xs[0]] + xs[1..] && ys == [ys[0]] + ys[1..];
    }
  }

  lemma RestOf<T>(xs: seq<Keyed<T>>)
    requires xs != [] && Sorted(xs)
    ensures Sorted(xs[1..]) && (SharedKeysAgree(xs) ==> SharedKeysAgree(xs[1..]))
    ensures multiset(xs[1..]) == multiset(xs) - multiset{xs[0]}
  {
    hide Less;
    assert xs == [xs[0]] + xs[1..];
  }

  lemma HeadsAgree<T>(xs: seq<Keyed<T>>, ys: seq<Keyed<T>>)
    requires Sorted(xs) && Sorted(ys) && SharedKeysAgree(xs)
    requires multiset(xs) == multiset(ys) && xs != [] && ys != []
    ensures xs[0] == ys[0]
  {
    assert xs[0] in multiset(ys) && ys[0] in multiset(xs);
    var q :| 0 <= q < |ys| && ys[q] == xs[0];
    var p :| 0 <= p < |xs| && xs[p] == ys[0];
    LessTotal(xs[0].key, ys[0].key);
  }

  /** When values sharing a key are equal the sort forgets the order it was given. */
  lemma SortForgetsOrder<T>(xs: seq<Keyed<T>>, ys: seq<Keyed<T>>)
    requires SharedKeysAgree(xs) && multiset(xs) == multiset(ys)
    ensures Sort(xs) == Sort(ys)
  {
    SortSorts(xs);
    SortSorts(ys);
    SharedKeysAgreeOn(xs, Sort(xs));
    SortedUnique(Sort(xs), Sort(ys));
  }

  lemma SharedKeysAgreeOn<T>(xs: seq<Keyed<T>>, ys: seq<Keyed<T>>)
    requires SharedKeysAgree(xs) && multiset(xs) == multiset(ys)
    ensures SharedKeysAgree(ys)
  {
    forall i, j | 0 <= i < |ys| && 0 <= j < |ys| && ys[i].key == ys[j].key ensures ys[i] == ys[j] {
      assert ys[i] in multiset(xs) && ys[j] in multiset(xs);
      var p :| 0 <= p < |xs| && xs[p] == ys[i];
      var q :| 0 <= q < |xs| && xs[q] == ys[j];
    }
  }

  /** The first value filed under a key. */
  function FirstUnder<T>(key: Text, xs: seq<Keyed<T>>): (i: nat)
    ensures i <= |xs| && (i < |xs| ==> xs[i].key == key)
  {
    if xs == [] || xs[0].key == key then 0 else 1 + FirstUnder(key, xs[1..])
  }

  lemma {:induction false} InsertLeads<T>(x: Keyed<T>, xs: seq<Keyed<T>>)
    ensures var r, i := Insert(x, xs), FirstUnder(x.key, Insert(x, xs)); i < |r| && r[i] == x
  {
    if xs != [] && Less(xs[0].key, x.key) {
      LessTotal(xs[0].key, x.key);
      InsertLeads(x, xs[1..]);
    }
  }

  lemma SortLeads<T>(x: Keyed<T>, rest: seq<Keyed<T>>)
    ensures var r, i := Sort([x] + rest), FirstUnder(x.key, Sort([x] + rest)); i < |r| && r[i] == x
  {
    assert ([x] + rest)[1..] == rest;
    InsertLeads(x, Sort(rest));
  }

  /** The sort forgets the order it was given exactly when values
      sharing a key are equal. */
  lemma SortForgetsOrderIff<T>(xs: seq<Keyed<T>>)
    ensures (forall ys :: multiset(ys) == multiset(xs) ==> Sort(ys) == Sort(xs)) <==> SharedKeysAgree(xs)
  {
    if SharedKeysAgree(xs) {
      forall ys | multiset(ys) == multiset(xs) ensures Sort(ys) == Sort(xs) { SortForgetsOrder(xs, ys); }
    } else {
      var i, j :| 0 <= i < |xs| && 0 <= j < |xs| && xs[i].key == xs[j].key && xs[i] != xs[j];
      var withI := BringFirst(xs, i);
      var withJ := BringFirst(xs, j);
    }
  }

  lemma BringFirst<T>(xs: seq<Keyed<T>>, i: nat) returns (ys: seq<Keyed<T>>)
    requires i < |xs|
    ensures multiset(ys) == multiset(xs)
    ensures var k := FirstUnder(xs[i].key, Sort(ys)); k < |Sort(ys)| && Sort(ys)[k] == xs[i]
  {
    ys := [xs[i]] + (xs[..i] + xs[i + 1..]);
    assert xs == xs[..i] + ([xs[i]] + xs[i + 1..]);
    SortLeads(xs[i], xs[..i] + xs[i + 1..]);
  }
}
