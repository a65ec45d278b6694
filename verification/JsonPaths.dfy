/** Removing ignored paths from parsed JSON, and the `json-diff` comparison with
    its text fallback. */
module JsonPaths {
  import opened Utf16
  import opened Options
  import opened Ordering
  import opened Strings
  import opened Json
  import opened JsonText
  import opened JsonCanonical

  const DOLLAR: CodeUnit := 0x24
  const DOT: CodeUnit := 0x2e

  /** The one own property of an array that is not an element; it holds a number
      and cannot be deleted. */
  const LENGTH: Text := [0x6c, 0x65, 0x6e, 0x67, 0x74, 0x68]

  type Path = p: seq<Text> | p != [] witness [[]]

  // ----- the path grammar -----

  /** `$.a.b` and `a.b` address the same field; `$` addresses nothing removable. */
  function Segments(path: Text): Option<Path> {
    if path == [DOLLAR] then None
    else if |path| >= 2 && path[0] == DOLLAR && path[1] == DOT then Some(Split(path[2..], DOT))
    else Some(Split(path, DOT))
  }

  predicate ValidSegment(s: Text) {
    s != [] && forall i :: 0 <= i < |s| ==> s[i] !in [DOT, 0x5b, 0x5d, 0x2a, 0x3f]
  }

  predicate ValidSegments(path: seq<Text>) { forall i :: 0 <= i < |path| ==> ValidSegment(path[i]) }

  predicate ValidPath(path: Text) { Segments(path).Some? ==> ValidSegments(Segments(path).value) }

  function Decimal(n: nat): Text {
    if n < 10 then [0x30 + n] else Decimal(n / 10) + [0x30 + n % 10]
  }

  /** A segment names an array element by its canonical index. */
  predicate Names(segment: Text, i: nat) { segment == Decimal(i) }

  lemma {:induction false} DecimalUnique(i: nat, k: nat)
    requires Decimal(i) == Decimal(k)
    ensures i == k
  {
    var a, b := Decimal(i), Decimal(k);
    assert a[|a| - 1] == b[|b| - 1] && a[..|a| - 1] == b[..|b| - 1];
    if i >= 10 && k >= 10 {
      assert Decimal(i / 10) == a[..|a| - 1] && Decimal(k / 10) == b[..|b| - 1];
      DecimalUnique(i / 10, k / 10);
    } else {
      if i >= 10 { assert Decimal(i / 10) == a[..|a| - 1]; DecimalSome(i / 10); }
      if k >= 10 { assert Decimal(k / 10) == b[..|b| - 1]; DecimalSome(k / 10); }
    }
  }

  lemma DecimalSome(n: nat)
    ensures Decimal(n) != [] && Decimal(n) != LENGTH
  {
    assert 0x30 <= Decimal(n)[|Decimal(n)| - 1] <= 0x39;
  }

  // ----- removal -----

  /** What is left once the property a path leads to is deleted: an array keeps a
      hole, and where the path does not lead anywhere nothing changes. */
  function Cut(j: Json, path: Path): Json
    decreases j, 0
  {
    match j
    case Arr(items) => Arr(CutFrom(items, 0, path))
    case Obj(entries) => Obj(CutEntries(entries, path))
    case _ => j
  }

  function CutFrom(items: seq<Json>, from: nat, path: Path): seq<Json>
    decreases items, 1
  {
    seq(|items|, i requires 0 <= i < |items| => CutItem(items[i], Names(path[0], from + i), path))
  }

  function CutItem(item: Json, named: bool, path: Path): Json
    decreases item, 1
  {
    if !named then item else if |path| == 1 then Hole else Cut(item, path[1..])
  }

  function CutEntries(entries: seq<Keyed<Json>>, path: Path): seq<Keyed<Json>>
    decreases entries, 1
  {
    if entries == [] then []
    else if entries[0].key != path[0] then [entries[0]] + CutEntries(entries[1..], path)
    else if |path| == 1 then CutEntries(entries[1..], path)
    else [Keyed(entries[0].key, Cut(entries[0].value, path[1..]))] + CutEntries(entries[1..], path)
  }

  /** The walk as it runs: a segment is checked when it is reached, and an
      invalid one throws. Absent when it throws. */
  function Walk(j: Json, path: Path): Option<Json>
    decreases j, 0
  {
    if !ValidSegment(path[0]) then None
    else match j
      case Arr(items) =>
        if path[0] == LENGTH && |path| > 1 && !ValidSegment(path[1]) then None
        else
        (match WalkItems(items, 0, path)
         case None => None
         case Some(cut) => Some(Arr(cut)))
      case Obj(entries) =>
        (match WalkEntries(entries, path)
         case None => None
         case Some(cut) => Some(Obj(cut)))
      case _ => Some(j)
  }

  /** A hole is no own property: the walk stops before it. */
  function WalkItems(items: seq<Json>, from: nat, path: Path): Option<seq<Json>>
    decreases items, 1
  {
    if items == [] then Some([])
    else
      var head := if !Names(path[0], from) || items[0].Hole? then Some(items[0])
                  else if |path| == 1 then Some(Hole) else Walk(items[0], path[1..]);
      var tail := WalkItems(items[1..], from + 1, path);
      if head.None? || tail.None? then None else Some([head.value] + tail.value)
  }

  function WalkEntries(entries: seq<Keyed<Json>>, path: Path): Option<seq<Keyed<Json>>>
    decreases entries, 1
  {
    if entries == [] then Some([])
    else
      var tail := WalkEntries(entries[1..], path);
      if tail.None? then None
      else if entries[0].key != path[0] then Some([entries[0]] + tail.value)
      else if |path| == 1 then tail
      else
        (match Walk(entries[0].value, path[1..])
         case None => None
         case Some(value) => Some([Keyed(entries[0].key, value)] + tail.value))
  }

  /** A walk that does not throw removes what the path leads to. */
  lemma {:induction false} WalkIsCut(j: Json, path: Path)
    ensures Walk(j, path).Some? ==> Walk(j, path) == Some(Cut(j, path))
    decreases j, 0
  {
    hide ValidSegment, Names;
    match j
    case Arr(items) => WalkItemsIsCut(items, 0, path);
    case Obj(entries) => WalkEntriesIsCut(entries, path);
    case _ =>
  }

  lemma {:induction false} WalkItemsIsCut(items: seq<Json>, from: nat, path: Path)
    ensures WalkItems(items, from, path).Some? ==> WalkItems(items, from, path) == Some(CutFrom(items, from, path))
    decreases items, 1
  {
    hide ValidSegment, Names;
    if items == [] {
      assert CutFrom(items, from, path) == [];
    } else {
      if |path| > 1 { WalkIsCut(items[0], path[1..]); }
      WalkItemsIsCut(items[1..], from + 1, path);
      assert CutFrom(items, from, path) ==
             [CutItem(items[0], Names(path[0], from), path)] + CutFrom(items[1..], from + 1, path);
    }
  }

  lemma {:induction false} WalkEntriesIsCut(entries: seq<Keyed<Json>>, path: Path)
    ensures WalkEntries(entries, path).Some? ==> WalkEntries(entries, path) == Some(CutEntries(entries, path))
    decreases entries, 1
  {
    hide ValidSegment, Cut;
    if entries != [] {
      if |path| > 1 { WalkIsCut(entries[0].value, path[1..]); }
      WalkEntriesIsCut(entries[1..], path);
    }
  }

  // ----- order does not matter -----

  lemma {:induction false} CutsCommute(j: Json, p: Path, q: Path)
    ensures Cut(Cut(j, p), q) == Cut(Cut(j, q), p)
    decreases j, 0
  {
    hide Names;
    match j
    case Arr(items) =>
      forall i: nat | i < |items|
        ensures CutItem(CutItem(items[i], Names(p[0], i), p), Names(q[0], i), q) ==
                CutItem(CutItem(items[i], Names(q[0], i), q), Names(p[0], i), p)
      {
        if |p| > 1 && |q| > 1 { CutsCommute(items[i], p[1..], q[1..]); }
      }
    case Obj(entries) => EntryCutsCommute(entries, p, q);
    case _ =>
  }

  lemma {:induction false} EntryCutsCommute(entries: seq<Keyed<Json>>, p: Path, q: Path)
    ensures CutEntries(CutEntries(entries, p), q) == CutEntries(CutEntries(entries, q), p)
    decreases entries, 1
  {
    hide Cut;
    if entries != [] {
      EntryCutsCommute(entries[1..], p, q);
      var key, value := entries[0].key, entries[0].value;
      if |p| > 1 && |q| > 1 { CutsCommute(value, p[1..], q[1..]); }
      HeadCut(entries, p);
      HeadCut(entries, q);
      if key != p[0] || |p| > 1 { HeadCut(CutEntries(entries, p), q); }
      if key != q[0] || |q| > 1 { HeadCut(CutEntries(entries, q), p); }
    }
  }

  /** What cutting does at the head of an object. */
  lemma HeadCut(entries: seq<Keyed<Json>>, path: Path)
    requires entries != []
    ensures var rest := CutEntries(entries[1..], path);
            var e := entries[0];
            if e.key != path[0] then
              CutEntries(entries, path) == [e] + rest && CutEntries(entries, path)[1..] == rest
            else if |path| == 1 then CutEntries(entries, path) == rest
            else CutEntries(entries, path) == [Keyed(e.key, Cut(e.value, path[1..]))] + rest
                 && CutEntries(entries, path)[1..] == rest
  {
    hide Cut;
  }

  // ----- what removal removes -----

  function FindEntry(entries: seq<Keyed<Json>>, segment: Text): (value: Option<Json>)
    ensures value.Some? ==> exists i :: 0 <= i < |entries| && entries[i] == Keyed(segment, value.value)
  {
    if entries == [] then None
    else if entries[0].key == segment then Some(entries[0].value)
    else FindEntry(entries[1..], segment)
  }

  function FindItem(items: seq<Json>, from: nat, segment: Text): (value: Option<Json>)
    ensures value.Some? ==> value.value in items
  {
    if items == [] then None
    else if Names(segment, from) then if items[0].Hole? then None else Some(items[0])
    else FindItem(items[1..], from + 1, segment)
  }

  function Child(j: Json, segment: Text): Option<Json> {
    match j
    case Arr(items) => FindItem(items, 0, segment)
    case Obj(entries) => FindEntry(entries, segment)
    case _ => None
  }

  /** The value a path leads to. */
  function Lookup(j: Json, path: seq<Text>): Option<Json>
    decreases |path|
  {
    if path == [] then Some(j)
    else
      var child := Child(j, path[0]);
      if child.None? then None else Lookup(child.value, path[1..])
  }

  lemma CutKeepsHoles(j: Json, path: Path)
    ensures Cut(j, path).Hole? <==> j.Hole?
  {
  }

  lemma {:induction false} FindInCutItems(items: seq<Json>, from: nat, path: Path, segment: Text)
    ensures FindItem(CutFrom(items, from, path), from, segment) ==
            var found := FindItem(items, from, segment);
            if found.None? || segment != path[0] then found
            else if |path| == 1 then None
            else Some(Cut(found.value, path[1..]))
  {
    hide Cut;
    if items != [] {
      var cut := CutFrom(items, from, path);
      assert cut[1..] == CutFrom(items[1..], from + 1, path);
      if |path| > 1 { CutKeepsHoles(items[0], path[1..]); }
      FindInCutItems(items[1..], from + 1, path, segment);
    }
  }

  lemma {:induction false} FindInCutEntries(entries: seq<Keyed<Json>>, path: Path, segment: Text)
    requires DistinctKeys(entries)
    ensures FindEntry(CutEntries(entries, path), segment) ==
            var found := FindEntry(entries, segment);
            if found.None? || segment != path[0] then found
            else if |path| == 1 then None
            else Some(Cut(found.value, path[1..]))
  {
    hide Cut;
    if entries != [] {
      FindInCutEntries(entries[1..], path, segment);
      HeadCut(entries, path);
      if entries[0].key == segment { KeyIsGone(entries, segment); }
    }
  }

  lemma KeyIsGone(entries: seq<Keyed<Json>>, segment: Text)
    requires DistinctKeys(entries) && entries != [] && entries[0].key == segment
    ensures FindEntry(entries[1..], segment).None?
  {
    forall i | 0 <= i < |entries[1..]| ensures entries[1..][i].key != segment {
      assert entries[1..][i] == entries[i + 1];
    }
  }

  /** How one removal changes one child. */
  lemma ChildOfCut(j: Json, path: Path, segment: Text)
    requires Proper(j)
    ensures Child(Cut(j, path), segment) ==
            var child := Child(j, segment);
            if child.None? || segment != path[0] then child
            else if |path| > 1 then Some(Cut(child.value, path[1..]))
            else None
  {
    match j
    case Arr(items) => FindInCutItems(items, 0, path, segment);
    case Obj(entries) => FindInCutEntries(entries, path, segment);
    case _ =>
  }

  lemma ChildIsProper(j: Json, segment: Text)
    requires Proper(j) && Child(j, segment).Some?
    ensures Proper(Child(j, segment).value)
  {
  }

  /** After the removal the path leads nowhere. */
  lemma {:induction false} CutRemovesTarget(j: Json, path: Path)
    requires Proper(j)
    ensures Lookup(Cut(j, path), path).None?
    decreases |path|
  {
    hide Cut, Child, Proper;
    ChildOfCut(j, path, path[0]);
    if Child(j, path[0]).Some? && |path| > 1 {
      ChildIsProper(j, path[0]);
      CutRemovesTarget(Child(j, path[0]).value, path[1..]);
    }
  }

  lemma PrefixByHead(a: Path, b: Path)
    ensures a <= b <==> a[0] == b[0] && a[1..] <= b[1..]
  {
    assert a == [a[0]] + a[1..] && b == [b[0]] + b[1..];
  }

  /** A path that neither leads to nor through the removed one still leads to
      the same value. */
  lemma {:induction false} CutKeepsOthers(j: Json, path: Path, other: Path)
    requires Proper(j) && !(path <= other) && !(other <= path)
    ensures Lookup(Cut(j, path), other) == Lookup(j, other)
    decreases |path|
  {
    hide Cut, Child, Proper;
    ChildOfCut(j, path, other[0]);
    if other[0] == path[0] {
      PrefixByHead(path, other);
      PrefixByHead(other, path);
      if Child(j, path[0]).Some? {
        ChildIsProper(j, path[0]);
        CutKeepsOthers(Child(j, path[0]).value, path[1..], other[1..]);
      }
    }
  }

  // ----- exactly when a walk throws -----

  /** The own properties along `path` exist. An array's length is one, but has
      none of its own. */
  predicate Reaches(j: Json, path: seq<Text>)
    decreases |path|
  {
    path == []
    || (if j.Arr? && path[0] == LENGTH then |path| == 1
        else Child(j, path[0]).Some? && Reaches(Child(j, path[0]).value, path[1..]))
  }

  /** Where a path has its first invalid segment. */
  function InvalidAt(path: seq<Text>): (m: Option<nat>)
    ensures m.None? <==> ValidSegments(path)
    ensures m.Some? ==> m.value < |path| && !ValidSegment(path[m.value]) && ValidSegments(path[..m.value])
  {
    if path == [] then None
    else if !ValidSegment(path[0]) then Some(0)
    else
      var later := InvalidAt(path[1..]);
      assert path == [path[0]] + path[1..];
      if later.None? then None
      else
        assert path[..later.value + 1] == [path[0]] + path[1..][..later.value];
        Some(later.value + 1)
  }

  lemma {:induction false} WalkItemsByChild(items: seq<Json>, from: nat, path: Path)
    requires |path| > 1
    ensures WalkItems(items, from, path).None? <==>
            FindItem(items, from, path[0]).Some? && Walk(FindItem(items, from, path[0]).value, path[1..]).None?
  {
    hide Walk, Names;
    if items != [] {
      WalkItemsByChild(items[1..], from + 1, path);
      if Names(path[0], from) { NoLaterItem(items[1..], from, from + 1, path[0]); }
    }
  }

  lemma {:induction false} NoLaterItem(items: seq<Json>, named: nat, from: nat, segment: Text)
    requires Names(segment, named) && named < from
    ensures FindItem(items, from, segment).None?
  {
    if items != [] {
      if Names(segment, from) { DecimalUnique(named, from); }
      NoLaterItem(items[1..], named, from + 1, segment);
    }
  }

  lemma {:induction false} WalkEntriesByChild(entries: seq<Keyed<Json>>, path: Path)
    requires |path| > 1 && DistinctKeys(entries)
    ensures WalkEntries(entries, path).None? <==>
            FindEntry(entries, path[0]).Some? && Walk(FindEntry(entries, path[0]).value, path[1..]).None?
  {
    hide Walk;
    if entries != [] {
      WalkEntriesByChild(entries[1..], path);
      if entries[0].key == path[0] { KeyIsGone(entries, path[0]); }
    }
  }

  lemma {:induction false} LengthIsNoItem(items: seq<Json>, from: nat)
    ensures FindItem(items, from, LENGTH).None?
  {
    if items != [] {
      DecimalSome(from);
      LengthIsNoItem(items[1..], from + 1);
    }
  }

  lemma {:induction false} LastSegmentNeverThrows(items: seq<Json>, from: nat, path: Path)
    requires |path| == 1
    ensures WalkItems(items, from, path).Some?
  {
    if items != [] { LastSegmentNeverThrows(items[1..], from + 1, path); }
  }

  lemma {:induction false} LastKeyNeverThrows(entries: seq<Keyed<Json>>, path: Path)
    requires |path| == 1
    ensures WalkEntries(entries, path).Some?
  {
    if entries != [] { LastKeyNeverThrows(entries[1..], path); }
  }

  /** Past a valid first segment a walk throws exactly as it would further down. */
  lemma WalkByChild(j: Json, path: Path)
    requires Proper(j) && ValidSegment(path[0])
    ensures |path| == 1 ==> Walk(j, path).Some?
    ensures |path| > 1 && j.Arr? && path[0] == LENGTH ==> (Walk(j, path).None? <==> !ValidSegment(path[1]))
    ensures |path| > 1 && !(j.Arr? && path[0] == LENGTH) ==>
              (Walk(j, path).None? <==> Child(j, path[0]).Some? && Walk(Child(j, path[0]).value, path[1..]).None?)
  {
    hide ValidSegment, WalkItems, WalkEntries, FindItem, FindEntry;
    match j
    case Arr(items) =>
      if |path| == 1 { LastSegmentNeverThrows(items, 0, path); } else { WalkItemsByChild(items, 0, path); }
      LengthIsNoItem(items, 0);
    case Obj(entries) =>
      if |path| == 1 { LastKeyNeverThrows(entries, path); } else { WalkEntriesByChild(entries, path); }
    case _ =>
  }

  /** A walk throws exactly when the value reaches the first invalid segment of
      the path: everything before it is there. */
  ghost predicate Throws(j: Json, path: Path) {
    InvalidAt(path).Some? && Reaches(j, path[..InvalidAt(path).value])
  }

  lemma {:induction false} WalkThrowsIff(j: Json, path: Path)
    requires Proper(j)
    ensures Walk(j, path).None? <==> Throws(j, path)
    decreases |path|
  {
    hide Walk, ValidSegment, Proper, Child;
    if !ValidSegment(path[0]) {
      InvalidAtOnce(j, path);
    } else {
      WalkByChild(j, path);
      if |path| > 1 {
        var rest: Path := path[1..];
        ThrowsByChild(j, path);
        if !(j.Arr? && path[0] == LENGTH) && Child(j, path[0]).Some? {
          ChildIsProper(j, path[0]);
          WalkThrowsIff(Child(j, path[0]).value, rest);
        }
      }
    }
  }

  lemma InvalidAtOnce(j: Json, path: Path)
    requires !ValidSegment(path[0])
    ensures Walk(j, path).None? && InvalidAt(path) == Some(0) && Reaches(j, path[..0])
  {
  }

  lemma ThrowsByChild(j: Json, path: Path)
    requires |path| > 1 && ValidSegment(path[0])
    ensures j.Arr? && path[0] == LENGTH ==> (Throws(j, path) <==> !ValidSegment(path[1]))
    ensures !(j.Arr? && path[0] == LENGTH) ==>
              (Throws(j, path) <==> Child(j, path[0]).Some? && Throws(Child(j, path[0]).value, path[1..]))
  {
    hide ValidSegment, Child;
    var later := InvalidAt(path[1..]);
    if later.Some? {
      var before := path[..later.value + 1];
      assert before[0] == path[0] && before[1..] == path[1..][..later.value];
    }
  }

  /** A path throws on no value at all exactly when all its segments are valid. */
  lemma NeverThrowsIff(path: Path)
    ensures (forall j :: Proper(j) ==> Walk(j, path).Some?) <==> ValidSegments(path)
  {
    hide Walk, ValidSegments, Nest, Proper;
    if ValidSegments(path) {
      forall j | Proper(j) ensures Walk(j, path).Some? { ValidPathNeverThrows(j, path); }
    } else {
      NestReaches(path, InvalidAt(path).value);
      WalkThrowsIff(Nest(path), path);
      assert Proper(Nest(path)) && Walk(Nest(path), path).None?;
    }
  }

  /** An object in an object in an object, along `path`. */
  function Nest(path: seq<Text>): Json {
    if path == [] then Obj([]) else Obj([Keyed(path[0], Nest(path[1..]))])
  }

  lemma {:induction false} NestReaches(path: seq<Text>, m: nat)
    requires m <= |path|
    ensures Proper(Nest(path)) && Reaches(Nest(path), path[..m])
    decreases |path|
  {
    if path != [] {
      NestReaches(path[1..], if m > 0 then m - 1 else 0);
      assert Child(Nest(path), path[0]) == Some(Nest(path[1..]));
      if m > 0 { assert path[..m][0] == path[0] && path[..m][1..] == path[1..][..m - 1]; }
    }
  }

  /** A path of valid segments never throws, and removes what it leads to. */
  lemma ValidPathNeverThrows(j: Json, path: Path)
    requires Proper(j) && ValidSegments(path)
    ensures Walk(j, path) == Some(Cut(j, path))
  {
    hide Walk, Cut, ValidSegment;
    WalkThrowsIff(j, path);
    WalkIsCut(j, path);
  }

  // ----- many paths -----

  /** One configured path removed, where that does not throw. */
  function Remove(j: Json, path: Text): Json {
    if Segments(path).None? then j else Cut(j, Segments(path).value)
  }

  lemma RemovesCommute(j: Json, p: Text, q: Text)
    ensures Remove(Remove(j, p), q) == Remove(Remove(j, q), p)
  {
    if Segments(p).Some? && Segments(q).Some? { CutsCommute(j, Segments(p).value, Segments(q).value); }
  }

  /** All ignore-paths removed in the order given, where that does not throw. */
  function StripIgnored(j: Json, paths: seq<Text>): Json
    decreases |paths|
  {
    if paths == [] then j else StripIgnored(Remove(j, paths[0]), paths[1..])
  }

  lemma {:induction false} AnyPathFirst(j: Json, paths: seq<Text>, k: nat)
    requires k < |paths|
    ensures StripIgnored(j, paths) == StripIgnored(Remove(j, paths[k]), Drop(paths, k))
    decreases |paths|
  {
    hide Remove;
    if k == 0 {
      assert Drop(paths, 0) == paths[1..];
    } else {
      AnyPathFirst(Remove(j, paths[0]), paths[1..], k - 1);
      RemovesCommute(j, paths[0], paths[k]);
      assert Drop(paths, k)[0] == paths[0] && Drop(paths, k)[1..] == Drop(paths[1..], k - 1);
    }
  }

  lemma DropHead(paths: seq<Text>)
    requires paths != []
    ensures Drop(paths, 0) == paths[1..]
  {
  }

  lemma HeadAndTail(paths: seq<Text>)
    requires paths != []
    ensures multiset(paths[1..]) == multiset(paths) - multiset{paths[0]}
  {
    assert paths == [paths[0]] + paths[1..];
  }

  /** Any order of the same ignore-paths leaves the same value. */
  lemma {:induction false} StripForgetsOrder(j: Json, paths: seq<Text>, shuffled: seq<Text>)
    requires multiset(paths) == multiset(shuffled)
    ensures StripIgnored(j, paths) == StripIgnored(j, shuffled)
    decreases |paths|
  {
    hide Remove, Drop, StripIgnored;
    assert |multiset(paths)| == |multiset(shuffled)|;
    if paths == [] {
      assert shuffled == [];
    } else {
      AnyPathFirst(j, paths, 0);
      assert Drop(paths, 0) == paths[1..] by { DropHead(paths); }
      assert paths[0] in multiset(shuffled);
      var k :| 0 <= k < |shuffled| && shuffled[k] == paths[0];
      AnyPathFirst(j, shuffled, k);
      DropOne(shuffled, k);
      HeadAndTail(paths);
      StripForgetsOrder(Remove(j, paths[0]), paths[1..], Drop(shuffled, k));
    }
  }

  // ----- removal keeps values proper -----

  lemma {:induction false} CutKeepsProper(j: Json, path: Path)
    requires Proper(j)
    ensures Proper(Cut(j, path))
    decreases j, 0
  {
    hide NumberToken, Names;
    match j
    case Arr(items) =>
      forall i: nat | i < |items| ensures Proper(CutItem(items[i], Names(path[0], i), path)) {
        if |path| > 1 { CutKeepsProper(items[i], path[1..]); }
      }
    case Obj(entries) => CutEntriesProper(entries, path);
    case _ =>
  }

  ghost predicate HasKey(entries: seq<Keyed<Json>>, key: Text) {
    exists i :: 0 <= i < |entries| && entries[i].key == key
  }

  lemma {:induction false} CutAddsNoKey(entries: seq<Keyed<Json>>, path: Path, key: Text)
    ensures HasKey(CutEntries(entries, path), key) ==> HasKey(entries, key)
  {
    hide Cut;
    if entries != [] {
      CutAddsNoKey(entries[1..], path, key);
      HeadCut(entries, path);
      HasKeyByHead(entries, key);
      if CutEntries(entries, path) != [] { HasKeyByHead(CutEntries(entries, path), key); }
    }
  }

  lemma HasKeyByHead(entries: seq<Keyed<Json>>, key: Text)
    requires entries != []
    ensures HasKey(entries, key) <==> entries[0].key == key || HasKey(entries[1..], key)
  {
    if i :| 0 <= i < |entries| && entries[i].key == key {
      assert i > 0 ==> entries[1..][i - 1].key == key;
    }
    if i :| 0 <= i < |entries[1..]| && entries[1..][i].key == key {
      assert entries[i + 1].key == key;
    }
  }

  lemma ConsDistinct(head: Keyed<Json>, rest: seq<Keyed<Json>>)
    requires DistinctKeys(rest) && !HasKey(rest, head.key)
    ensures DistinctKeys([head] + rest)
  {
  }

  lemma {:induction false} CutEntriesProper(entries: seq<Keyed<Json>>, path: Path)
    requires DistinctKeys(entries) && forall i :: 0 <= i < |entries| ==> Proper(entries[i].value)
    ensures var es := CutEntries(entries, path);
            DistinctKeys(es) && forall e :: e in es ==> Proper(e.value)
    decreases entries, 1
  {
    hide Cut, Proper, HasKey, DistinctKeys;
    if entries != [] {
      var key, rest := entries[0].key, CutEntries(entries[1..], path);
      TailDistinct(entries);
      CutEntriesProper(entries[1..], path);
      if |path| > 1 { CutKeepsProper(entries[0].value, path[1..]); }
      CutAddsNoKey(entries[1..], path, key);
      HeadCut(entries, path);
      ConsDistinct(entries[0], rest);
      if |path| > 1 { ConsDistinct(Keyed(key, Cut(entries[0].value, path[1..])), rest); }
    }
  }

  lemma TailDistinct(entries: seq<Keyed<Json>>)
    requires DistinctKeys(entries) && entries != []
    ensures DistinctKeys(entries[1..]) && !HasKey(entries[1..], entries[0].key)
  {
    forall i | 0 <= i < |entries[1..]| ensures entries[1..][i].key != entries[0].key {
      assert entries[1..][i] == entries[i + 1];
    }
  }

  lemma {:induction false} StripKeepsProper(j: Json, paths: seq<Text>)
    requires Proper(j)
    ensures Proper(StripIgnored(j, paths))
    decreases |paths|
  {
    if paths != [] {
      if Segments(paths[0]).Some? { CutKeepsProper(j, Segments(paths[0]).value); }
      StripKeepsProper(Remove(j, paths[0]), paths[1..]);
    }
  }

  // ----- stripping as it runs -----

  function RemoveWalk(j: Json, path: Text): Option<Json> {
    if Segments(path).None? then Some(j) else Walk(j, Segments(path).value)
  }

  /** The configured paths one after the other; absent when one of them throws. */
  function StripWalk(j: Json, paths: seq<Text>): Option<Json>
    decreases |paths|
  {
    if paths == [] then Some(j)
    else
      var next := RemoveWalk(j, paths[0]);
      if next.None? then None else StripWalk(next.value, paths[1..])
  }

  ghost predicate PathThrows(j: Json, path: Text) { Segments(path).Some? && Throws(j, Segments(path).value) }

  /** Some path throws on what the paths before it left. */
  ghost predicate StripThrows(j: Json, paths: seq<Text>)
    decreases |paths|
  {
    paths != [] && (PathThrows(j, paths[0]) || StripThrows(Remove(j, paths[0]), paths[1..]))
  }

  lemma RemoveWalkIff(j: Json, path: Text)
    requires Proper(j)
    ensures RemoveWalk(j, path) == if PathThrows(j, path) then None else Some(Remove(j, path))
  {
    hide Walk, Cut, Throws;
    if Segments(path).Some? {
      WalkThrowsIff(j, Segments(path).value);
      WalkIsCut(j, Segments(path).value);
    }
  }

  /** Stripping throws exactly when some path does on what those before it left,
      and otherwise removes them all. */
  lemma {:induction false} StripWalkIff(j: Json, paths: seq<Text>)
    requires Proper(j)
    ensures StripWalk(j, paths) == if StripThrows(j, paths) then None else Some(StripIgnored(j, paths))
    decreases |paths|
  {
    hide RemoveWalk, PathThrows, Remove, Proper;
    if paths != [] {
      RemoveWalkIff(j, paths[0]);
      RemoveKeepsProper(j, paths[0]);
      StripWalkIff(Remove(j, paths[0]), paths[1..]);
    }
  }

  lemma RemoveKeepsProper(j: Json, path: Text)
    requires Proper(j)
    ensures Proper(Remove(j, path))
  {
    if Segments(path).Some? { CutKeepsProper(j, Segments(path).value); }
  }

  ghost predicate ValidPaths(paths: seq<Text>) { forall i :: 0 <= i < |paths| ==> ValidPath(paths[i]) }

  lemma {:induction false} ValidPathsNeverThrow(j: Json, paths: seq<Text>)
    requires ValidPaths(paths)
    ensures !StripThrows(j, paths)
    decreases |paths|
  {
    hide Remove, ValidSegments;
    if paths != [] {
      assert ValidPath(paths[0]);
      ValidPathsNeverThrow(Remove(j, paths[0]), paths[1..]);
    }
  }

  /** With an invalid path the order does matter: removing `a` first hides the
      object in which `a..b` would throw. */
  lemma InvalidPathsMindOrder()
    ensures var a: Text, b: Text := [0x61], [0x61, DOT, DOT, 0x62];
            var body := Obj([Keyed(a, Obj([]))]);
            Proper(body) && StripWalk(body, [a, b]) == Some(Obj([])) && StripWalk(body, [b, a]).None?
  {
    hide Walk, Cut, Segments, Throws;
    var a: Text, b: Text := [0x61], [0x61, DOT, DOT, 0x62];
    var path: Path := [a, [], [0x62]];
    var body := Obj([Keyed(a, Obj([]))]);
    TheirSegments();
    TheirThrows();
    WalkThrowsIff(body, path);
    WalkThrowsIff(Obj([]), path);
    WalkIsCut(Obj([]), path);
    WalkThrowsIff(body, [a]);
    WalkIsCut(body, [a]);
    assert RemoveWalk(body, a) == Some(Obj([])) && RemoveWalk(Obj([]), b) == Some(Obj([]));
    assert RemoveWalk(body, b).None?;
    assert [a, b][1..] == [b] && [b][1..] == [] && [a, b][0] == a && [b, a][0] == b;
    assert StripWalk(Obj([]), [b]) == Some(Obj([]));
  }

  lemma TheirSegments()
    ensures Segments([0x61]) == Some([[0x61]]) && Segments([0x61, DOT, DOT, 0x62]) == Some([[0x61], [], [0x62]])
  {
    hide Split;
    var a: Text := [0x61];
    SplitWhole(a, DOT);
    SplitWhole([0x62], DOT);
    SplitWhole([], DOT);
    SplitAppend([], DOT, [0x62]);
    SplitAppend(a, DOT, [DOT, 0x62]);
    assert [] + ([DOT] + [0x62]) == [DOT, 0x62] && a + ([DOT] + [DOT, 0x62]) == [0x61, DOT, DOT, 0x62];
    assert Split([DOT, 0x62], DOT) == [[], [0x62]];
    assert Split([0x61, DOT, DOT, 0x62], DOT) == [a, [], [0x62]];
  }

  lemma TheirThrows()
    ensures var a: Text := [0x61];
            var body, path := Obj([Keyed(a, Obj([]))]), [a, [], [0x62]];
            && Proper(body) && Proper(Obj([])) && Cut(body, [a]) == Obj([]) && Cut(Obj([]), path) == Obj([])
            && Throws(body, path) && !Throws(Obj([]), path) && !Throws(body, [a])
  {
    var a: Text := [0x61];
    var entries, path: Path := [Keyed(a, Obj([]))], [a, [], [0x62]];
    assert entries[1..] == [] && CutEntries(entries, [a]) == [];
    assert path[1..] == [[], [0x62]] && InvalidAt(path[1..]) == Some(0) && InvalidAt(path) == Some(1);
    assert path[..1] == [a] && [a][1..] == [] && InvalidAt([a]) == None;
    assert Child(Obj(entries), a) == Some(Obj([])) && Child(Obj([]), a) == None;
  }

  // ----- json-diff -----

  /** `JSON.parse`: absent when the text does not parse. */
  type Parser = Text -> Option<Json>

  ghost predicate Parses(parse: Parser) { forall t :: parse(t).Some? ==> Proper(parse(t).value) }

  /** Whether two bodies differ: canonically if both parse, as text otherwise.
      Absent when removing the ignored paths throws. */
  function JsonChanged(parse: Parser, ignorePaths: seq<Text>, prev: Text, curr: Text): Option<bool> {
    if parse(prev).None? || parse(curr).None? then Some(prev != curr)
    else
      var a, b := StripWalk(parse(prev).value, ignorePaths), StripWalk(parse(curr).value, ignorePaths);
      if a.None? || b.None? then None else Some(Print(SortKeys(a.value)) != Print(SortKeys(b.value)))
  }

  ghost predicate ChangeThrows(parse: Parser, ignorePaths: seq<Text>, prev: Text, curr: Text) {
    && parse(prev).Some? && parse(curr).Some?
    && (StripThrows(parse(prev).value, ignorePaths) || StripThrows(parse(curr).value, ignorePaths))
  }

  /** The comparison throws exactly when both bodies parse and stripping one of
      them throws. Otherwise they are unchanged exactly when, the ignored paths
      removed, they are equal JSON values up to object key order, or equal as
      text if one does not parse. */
  lemma UnchangedMeans(parse: Parser, ignorePaths: seq<Text>, prev: Text, curr: Text)
    requires Parses(parse)
    ensures JsonChanged(parse, ignorePaths, prev, curr).None? <==> ChangeThrows(parse, ignorePaths, prev, curr)
    ensures !ChangeThrows(parse, ignorePaths, prev, curr) ==>
              (JsonChanged(parse, ignorePaths, prev, curr) == Some(false) <==>
                 if parse(prev).Some? && parse(curr).Some?
                 then Equiv(StripIgnored(parse(prev).value, ignorePaths), StripIgnored(parse(curr).value, ignorePaths))
                 else prev == curr)
  {
    hide Equiv, Proper, SortKeys, StripIgnored, StripWalk, StripThrows;
    if parse(prev).Some? && parse(curr).Some? {
      var a, b := parse(prev).value, parse(curr).value;
      StripWalkIff(a, ignorePaths);
      StripWalkIff(b, ignorePaths);
      StripKeepsProper(a, ignorePaths);
      StripKeepsProper(b, ignorePaths);
      CanonicalTextDecides(StripIgnored(a, ignorePaths), StripIgnored(b, ignorePaths));
    }
  }

  /** Valid paths never make the comparison throw. */
  lemma ValidPathsAnswer(parse: Parser, ignorePaths: seq<Text>, prev: Text, curr: Text)
    requires Parses(parse) && ValidPaths(ignorePaths)
    ensures JsonChanged(parse, ignorePaths, prev, curr).Some?
  {
    hide JsonChanged, Proper, StripThrows;
    UnchangedMeans(parse, ignorePaths, prev, curr);
    if parse(prev).Some? { ValidPathsNeverThrow(parse(prev).value, ignorePaths); }
    if parse(curr).Some? { ValidPathsNeverThrow(parse(curr).value, ignorePaths); }
  }

  /** Among comparisons that answer, "unchanged" is an equivalence, the text
      fallback included, and throwing does not depend on the direction. */
  lemma UnchangedIsEquivalence(parse: Parser, paths: seq<Text>, a: Text, b: Text, c: Text)
    ensures JsonChanged(parse, paths, a, a) != Some(true)
    ensures JsonChanged(parse, paths, a, b) == JsonChanged(parse, paths, b, a)
    ensures JsonChanged(parse, paths, a, b) == Some(false) && JsonChanged(parse, paths, b, c) == Some(false) ==>
              JsonChanged(parse, paths, a, c) == Some(false)
  {
    hide Print, SortKeys, StripWalk;
  }

  /** Reordering the configured paths never turns one verdict into the other,
      and changes nothing at all when they are valid. */
  lemma ChangedForgetsPathOrder(parse: Parser, paths: seq<Text>, shuffled: seq<Text>, prev: Text, curr: Text)
    requires Parses(parse) && multiset(paths) == multiset(shuffled)
    ensures var before, after := JsonChanged(parse, paths, prev, curr), JsonChanged(parse, shuffled, prev, curr);
            && (before.Some? && after.Some? ==> before == after)
            && (ValidPaths(paths) ==> before == after && before.Some?)
  {
    hide Print, SortKeys, StripIgnored, StripWalk, StripThrows, Proper, ValidPaths;
    if parse(prev).Some? && parse(curr).Some? {
      StripForgetsOrder(parse(prev).value, paths, shuffled);
      StripForgetsOrder(parse(curr).value, paths, shuffled);
      StripWalkIff(parse(prev).value, paths);
      StripWalkIff(parse(curr).value, paths);
      StripWalkIff(parse(prev).value, shuffled);
      StripWalkIff(parse(curr).value, shuffled);
    }
    if ValidPaths(paths) {
      ShuffledStayValid(paths, shuffled);
      ValidPathsAnswer(parse, paths, prev, curr);
      ValidPathsAnswer(parse, shuffled, prev, curr);
    }
  }

  lemma ShuffledStayValid(paths: seq<Text>, shuffled: seq<Text>)
    requires multiset(paths) == multiset(shuffled) && ValidPaths(paths)
    ensures ValidPaths(shuffled)
  {
    hide ValidPath;
    forall i | 0 <= i < |shuffled| ensures ValidPath(shuffled[i]) {
      assert shuffled[i] in multiset(paths);
    }
  }
}
