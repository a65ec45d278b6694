/** The canonical comparison of JSON bodies: keys sorted recursively, then the
    printed texts compared. */
module JsonCanonical {
  import opened Utf16
  import opened Ordering
  import opened Json
  import opened JsonText

  // ----- the order in which an object is printed -----

  predicate IsDigit(u: CodeUnit) { 0x30 <= u <= 0x39 }

  /** `4294967295`, the least integer that is not an array index. */
  const INDEX_LIMIT: Text := [0x34, 0x32, 0x39, 0x34, 0x39, 0x36, 0x37, 0x32, 0x39, 0x35]

  /** A canonical array index: enumerated first, in numeric order. */
  predicate IsIndexKey(key: Text) {
    && 1 <= |key| <= 10 && (forall i :: 0 <= i < |key| ==> IsDigit(key[i]))
    && (|key| > 1 ==> key[0] != 0x30)
    && (|key| == 10 ==> Less(key, INDEX_LIMIT))
  }

  /** Among index keys numeric order is order by length, then lexicographic. */
  function Rank(key: Text): (r: nat)
    ensures 1 <= r <= 11 && (IsIndexKey(key) <==> r <= 10) && (IsIndexKey(key) ==> r == |key|)
  {
    if IsIndexKey(key) then |key| else 11
  }

  function OfRank<T>(xs: seq<Keyed<T>>, r: nat): seq<Keyed<T>> {
    if xs == [] then []
    else (if Rank(xs[0].key) == r then [xs[0]] else []) + OfRank(xs[1..], r)
  }

  function FromRank<T>(xs: seq<Keyed<T>>, r: nat): seq<Keyed<T>>
    decreases 12 - r
  {
    if r > 11 then [] else OfRank(xs, r) + FromRank(xs, r + 1)
  }

  /** The own-key order of an object filled in the order `xs`, `xs` being
      sorted: index keys ascending, then the rest as inserted. */
  function OwnOrder<T>(xs: seq<Keyed<T>>): seq<Keyed<T>> { FromRank(xs, 1) }

  lemma {:induction false} FromRankSplits<T>(x: Keyed<T>, xs: seq<Keyed<T>>, r: nat)
    ensures multiset(FromRank([x] + xs, r)) ==
            multiset(FromRank(xs, r)) + (if r <= Rank(x.key) then multiset{x} else multiset{})
    decreases 12 - r
  {
    hide Rank;
    if r <= 11 {
      assert ([x] + xs)[1..] == xs && ([x] + xs)[0] == x;
      FromRankSplits(x, xs, r + 1);
    }
  }

  lemma {:induction false} OwnOrderKeeps<T>(xs: seq<Keyed<T>>)
    ensures multiset(OwnOrder(xs)) == multiset(xs)
  {
    hide FromRank, Rank;
    if xs == [] {
      NoneFromRank<T>(1);
    } else {
      var rest := xs[1..];
      OwnOrderKeeps(rest);
      FromRankSplits(xs[0], rest, 1);
      assert xs == [xs[0]] + rest;
    }
  }

  lemma {:induction false} NoneFromRank<T>(r: nat)
    ensures FromRank<T>([], r) == []
    decreases 12 - r
  {
    if r <= 11 { NoneFromRank<T>(r + 1); }
  }

  ghost predicate Ascending<T>(xs: seq<Keyed<T>>, r: nat) {
    && (forall i :: 0 <= i < |xs| ==> r <= Rank(xs[i].key))
    && forall i, j :: 0 <= i < j < |xs| ==> Rank(xs[i].key) <= Rank(xs[j].key)
  }

  lemma {:induction false} RanksAscend<T>(xs: seq<Keyed<T>>, r: nat)
    ensures Ascending(FromRank(xs, r), r)
    decreases 12 - r
  {
    hide Rank;
    if r <= 11 {
      RanksAscend(xs, r + 1);
      AllOfRank(xs, r);
      var p, q := OfRank(xs, r), FromRank(xs, r + 1);
      assert FromRank(xs, r) == p + q;
      assert Ascending(p + q, r);
    }
  }

  lemma {:induction false} AllOfRank<T>(xs: seq<Keyed<T>>, r: nat)
    ensures forall x :: x in OfRank(xs, r) ==> Rank(x.key) == r
  {
    hide Rank;
    if xs != [] { AllOfRank(xs[1..], r); }
  }

  /** Index keys come first, shorter before longer, as objects enumerate them. */
  lemma IndexKeysFirst<T>(xs: seq<Keyed<T>>, i: nat, j: nat)
    requires i < j < |OwnOrder(xs)|
    ensures var a, b := OwnOrder(xs)[i].key, OwnOrder(xs)[j].key;
            IsIndexKey(b) ==> IsIndexKey(a) && |a| <= |b|
  {
    hide IsIndexKey, FromRank;
    RanksAscend(xs, 1);
    assert Ascending(OwnOrder(xs), 1);
  }

  // ----- sorting keys -----

  /** Keys sorted at every level. The recursion skips a hole, which then prints
      as null; the canonical value holds that null already. */
  function SortKeys(j: Json): Json
    decreases j, 0
  {
    match j
    case Hole => Null
    case Arr(items) => Arr(seq(|items|, i requires 0 <= i < |items| => SortKeys(items[i])))
    case Obj(entries) => Obj(OwnOrder(Sort(SortValues(entries))))
    case _ => j
  }

  function SortValues(entries: seq<Keyed<Json>>): (es: seq<Keyed<Json>>)
    ensures |es| == |entries|
    ensures forall i :: 0 <= i < |entries| ==> es[i] == Keyed(entries[i].key, SortKeys(entries[i].value))
    decreases entries, 1
  {
    seq(|entries|, i requires 0 <= i < |entries| => Keyed(entries[i].key, SortKeys(entries[i].value)))
  }

  /** What parsing yields: well-shaped numbers and no duplicate keys. */
  ghost predicate Proper(j: Json)
    decreases j
  {
    match j
    case Number(token) => NumberToken(token)
    case Arr(items) => forall i :: 0 <= i < |items| ==> Proper(items[i])
    case Obj(entries) => DistinctKeys(entries) && forall i :: 0 <= i < |entries| ==> Proper(entries[i].value)
    case _ => true
  }

  /** Equality as JSON values, up to the order of object keys; a hole is null. */
  ghost predicate Equiv(a: Json, b: Json)
    decreases a
  {
    match a
    case Arr(items) =>
      b.Arr? && |items| == |b.items| && forall i :: 0 <= i < |items| ==> Equiv(items[i], b.items[i])
    case Obj(entries) =>
      b.Obj? && |entries| == |b.entries|
      && forall i :: 0 <= i < |entries| ==>
           exists k :: 0 <= k < |b.entries| && b.entries[k].key == entries[i].key
                       && Equiv(entries[i].value, b.entries[k].value)
    case Bool(_) => a == b
    case Number(_) => a == b
    case Str(_) => a == b
    case _ => b.Null? || b.Hole?
  }

  function Drop<T>(b: seq<T>, k: nat): (rest: seq<T>)
    requires k < |b|
    ensures |rest| == |b| - 1
  {
    b[..k] + b[k + 1..]
  }

  lemma DropOne<T>(b: seq<T>, k: nat)
    requires k < |b|
    ensures multiset(b) == multiset(Drop(b, k)) + multiset{b[k]}
    ensures forall x :: x in b && x != b[k] ==> x in Drop(b, k)
  {
    var rest := Drop(b, k);
    assert b == b[..k] + ([b[k]] + b[k + 1..]);
    forall x | x in b && x != b[k] ensures x in rest {
      var i :| 0 <= i < |b| && b[i] == x;
      assert if i < k then rest[i] == x else rest[i - 1] == x;
    }
  }

  lemma TailDiffers<T>(a: seq<Keyed<T>>)
    requires a != [] && DistinctKeys(a)
    ensures forall x :: x in a[1..] ==> x in a && x != a[0]
    ensures DistinctKeys(a[1..]) && multiset(a) == multiset(a[1..]) + multiset{a[0]}
  {
    forall x | x in a[1..] ensures x in a && x != a[0] {
      var i :| 0 <= i < |a[1..]| && a[1..][i] == x;
      assert a[i + 1] == x;
    }
    assert a == [a[0]] + a[1..];
  }

  lemma {:induction false} SameContents<T>(a: seq<Keyed<T>>, b: seq<Keyed<T>>)
    requires |a| == |b| && DistinctKeys(a) && forall x :: x in a ==> x in b
    ensures multiset(a) == multiset(b)
  {
    hide DistinctKeys, Drop;
    if a != [] {
      assert a[0] in b;
      var k :| 0 <= k < |b| && b[k] == a[0];
      DropOne(b, k);
      TailDiffers(a);
      SameContents(a[1..], Drop(b, k));
    }
  }

  /** Sorting keys decides equality up to key order. */
  lemma {:induction false} SortKeysEqualIff(a: Json, b: Json)
    requires Proper(a) && Proper(b)
    ensures SortKeys(a) == SortKeys(b) <==> Equiv(a, b)
    decreases a
  {
    hide NumberToken;
    if a.Arr? && b.Arr? {
      assert |SortKeys(a).items| == |a.items| && |SortKeys(b).items| == |b.items|;
      if |a.items| == |b.items| { ArraysEqualIff(a, b); }
    } else if a.Obj? && b.Obj? {
      ObjectsEqualIff(a, b);
    }
  }

  lemma {:induction false} ArraysEqualIff(a: Json, b: Json)
    requires Proper(a) && Proper(b) && a.Arr? && b.Arr? && |a.items| == |b.items|
    ensures SortKeys(a) == SortKeys(b) <==> Equiv(a, b)
    decreases a, 0
  {
    forall i | 0 <= i < |a.items|
      ensures SortKeys(a.items[i]) == SortKeys(b.items[i]) <==> Equiv(a.items[i], b.items[i])
    {
      SortKeysEqualIff(a.items[i], b.items[i]);
    }
    if SortKeys(a) == SortKeys(b) {
      forall i | 0 <= i < |a.items| ensures SortKeys(a.items[i]) == SortKeys(b.items[i]) {
        assert SortKeys(a).items[i] == SortKeys(b).items[i];
      }
    }
  }

  lemma {:induction false} ObjectsEqualIff(a: Json, b: Json)
    requires Proper(a) && Proper(b) && a.Obj? && b.Obj?
    ensures SortKeys(a) == SortKeys(b) <==> Equiv(a, b)
    decreases a, 1
  {
    hide OwnOrder, Sort;
    if SortKeys(a) == SortKeys(b) { EqualSortsEquiv(a, b); }
    if Equiv(a, b) {
      var x, y := SortValues(a.entries), SortValues(b.entries);
      forall e | e in x ensures e in y {
        var i :| 0 <= i < |x| && x[i] == e;
        var k :| 0 <= k < |b.entries| && b.entries[k].key == a.entries[i].key
                 && Equiv(a.entries[i].value, b.entries[k].value);
        SortKeysEqualIff(a.entries[i].value, b.entries[k].value);
        assert y[k] == e;
      }
      SameContents(x, y);
      SortForgetsOrder(x, y);
    }
  }

  lemma {:induction false} EqualSortsEquiv(a: Json, b: Json)
    requires Proper(a) && Proper(b) && a.Obj? && b.Obj? && SortKeys(a) == SortKeys(b)
    ensures Equiv(a, b)
    decreases a, 0
  {
    hide OwnOrder, Sort;
    var x, y := SortValues(a.entries), SortValues(b.entries);
    SortSorts(x);
    SortSorts(y);
    OwnOrderKeeps(Sort(x));
    OwnOrderKeeps(Sort(y));
    assert multiset(x) == multiset(y) && |x| == |multiset(x)| == |multiset(y)| == |y|;
    forall i | 0 <= i < |a.entries|
      ensures exists k :: 0 <= k < |b.entries| && b.entries[k].key == a.entries[i].key
                          && Equiv(a.entries[i].value, b.entries[k].value)
    {
      assert x[i] in multiset(y);
      var k :| 0 <= k < |y| && y[k] == x[i];
      SortKeysEqualIff(a.entries[i].value, b.entries[k].value);
    }
  }

  lemma {:induction false} SortKeysKeepsTokens(j: Json)
    requires Proper(j)
    ensures Tokens(SortKeys(j))
    decreases j
  {
    hide OwnOrder, Sort, NumberToken;
    match j
    case Arr(items) =>
      forall i | 0 <= i < |items| ensures Tokens(SortKeys(items[i])) { SortKeysKeepsTokens(items[i]); }
    case Obj(entries) =>
      var x := SortValues(entries);
      forall i | 0 <= i < |entries| ensures Tokens(SortKeys(entries[i].value)) { SortKeysKeepsTokens(entries[i].value); }
      SortSorts(x);
      OwnOrderKeeps(Sort(x));
      var z := OwnOrder(Sort(x));
      forall i | 0 <= i < |z| ensures Tokens(z[i].value) {
        assert z[i] in multiset(x);
      }
    case _ =>
  }

  /** The comparison both pollers make: the printed texts are equal exactly when
      the values are, up to key order. */
  lemma CanonicalTextDecides(a: Json, b: Json)
    requires Proper(a) && Proper(b)
    ensures Print(SortKeys(a)) == Print(SortKeys(b)) <==> Equiv(a, b)
  {
    hide SortKeys, Equiv, Proper, Tokens;
    SortKeysKeepsTokens(a);
    SortKeysKeepsTokens(b);
    SortKeysEqualIff(a, b);
    if Print(SortKeys(a)) == Print(SortKeys(b)) {
      PrintUnique(SortKeys(a), [], SortKeys(b), []);
    }
  }

  /** The recursion as it runs: keys sorted first, then each value in turn. */
  method SortKeysInOrder(j: Json) returns (sorted: Json)
    ensures sorted == SortKeys(j)
    decreases j, 2
  {
    match j
    case Arr(items) =>
      var out := SortEach(items);
      sorted := Arr(out);
    case Obj(entries) =>
      hide Sort, OwnOrder;
      SortCommutes(entries);
      var filled := FillSorted(entries);
      sorted := Obj(OwnOrder(filled));
    case Hole => sorted := Null;
    case _ => sorted := j;
  }

  method SortEach(items: seq<Json>) returns (out: seq<Json>)
    ensures |out| == |items| && forall i :: 0 <= i < |items| ==> out[i] == SortKeys(items[i])
    decreases items, 1
  {
    hide SortKeys;
    out := [];
    for i := 0 to |items|
      invariant |out| == i && forall k :: 0 <= k < i ==> out[k] == SortKeys(items[k])
    {
      var item := SortKeysInOrder(items[i]);
      out := out + [item];
    }
  }

  method FillSorted(entries: seq<Keyed<Json>>) returns (filled: seq<Keyed<Json>>)
    ensures filled == SortValues(Sort(entries))
    decreases entries, 1
  {
    hide Sort, SortKeys;
    var keyed := Sort(entries);
    SortSorts(entries);
    filled := [];
    for i := 0 to |keyed|
      invariant |filled| == i
      invariant forall k :: 0 <= k < i ==> filled[k] == Keyed(keyed[k].key, SortKeys(keyed[k].value))
    {
      assert keyed[i] in multiset(entries);
      var value := SortKeysInOrder(keyed[i].value);
      filled := filled + [Keyed(keyed[i].key, value)];
    }
  }

  lemma {:induction false} SortCommutes(entries: seq<Keyed<Json>>)
    ensures Sort(SortValues(entries)) == SortValues(Sort(entries))
  {
    hide Insert;
    if entries == [] {
      assert SortValues(entries) == [];
    } else {
      SortCommutes(entries[1..]);
      assert SortValues(entries)[1..] == SortValues(entries[1..]);
      InsertCommutes(entries[0], Sort(entries[1..]));
    }
  }

  lemma {:induction false} InsertCommutes(x: Keyed<Json>, xs: seq<Keyed<Json>>)
    ensures Insert(Keyed(x.key, SortKeys(x.value)), SortValues(xs)) == SortValues(Insert(x, xs))
  {
    hide Less, SortKeys;
    if xs == [] || !Less(xs[0].key, x.key) {
      assert SortValues([x] + xs) == [Keyed(x.key, SortKeys(x.value))] + SortValues(xs);
    } else {
      InsertCommutes(x, xs[1..]);
      assert SortValues(xs)[1..] == SortValues(xs[1..]);
      var rest := Insert(x, xs[1..]);
      assert SortValues([xs[0]] + rest) == [Keyed(xs[0].key, SortKeys(xs[0].value))] + SortValues(rest);
    }
  }
}
