/** Which field a configured ignore-path removes, told from the path's text and
    the value's own fields and elements. */
module JsonFields {
  import opened Utf16
  import opened Options
  import opened Ordering
  import opened Strings
  import opened Json
  import opened JsonText
  import opened JsonCanonical
  import opened JsonPaths

  /** Not empty and free of `.`, `[`, `]`, `*` and `?`. */
  predicate Ordinary(s: Text) {
    s != [] && forall i :: 0 <= i < |s| ==> s[i] !in [0x2e, 0x5b, 0x5d, 0x2a, 0x3f]
  }

  /** Does not begin with a dollar sign, so that it means the same after `$.`. */
  predicate Bare(path: Text) { path == [] || path[0] != 0x24 }

  // ----- the two spellings of a path -----

  /** `$.path` and `path` remove the same, and `$` alone nothing. */
  lemma SpellingsAgree(j: Json, path: Text)
    ensures Bare(path) ==> RemoveWalk(j, [0x24, 0x2e] + path) == RemoveWalk(j, path)
    ensures RemoveWalk(j, [0x24]) == Some(j)
  {
    hide Walk, Split;
    assert ([0x24, 0x2e] + path)[2..] == path;
  }

  lemma OneSegment(path: Text)
    requires 0x2e !in path && path != [0x24]
    ensures Segments(path) == Some([path])
  {
    hide Split;
    SplitWhole(path, DOT);
    assert path != [] && |path| >= 2 ==> path[1] != DOT;
  }

  lemma MoreSegments(first: Text, rest: Text)
    requires 0x2e !in first && Bare(first) && Bare(rest)
    ensures Segments(first + ([0x2e] + rest)).Some? && Segments(rest).Some?
    ensures Segments(first + ([0x2e] + rest)).value == [first] + Segments(rest).value
  {
    hide Split;
    SplitWhole(first, DOT);
    SplitAppend(first, DOT, rest);
    var path := first + ([0x2e] + rest);
    assert path[0] == if first == [] then 0x2e else first[0];
  }

  // ----- fields of objects -----

  function WithoutKey(entries: seq<Keyed<Json>>, key: Text): seq<Keyed<Json>> {
    if entries == [] then []
    else (if entries[0].key == key then [] else [entries[0]]) + WithoutKey(entries[1..], key)
  }

  /** Removing a field leaves the other fields, in order. */
  lemma FieldRemoved(entries: seq<Keyed<Json>>, key: Text)
    requires Ordinary(key) && key != [0x24]
    ensures RemoveWalk(Obj(entries), key) == Some(Obj(WithoutKey(entries, key)))
  {
    hide WalkEntries, WithoutKey;
    OneSegment(key);
    FieldCut(entries, key);
  }

  lemma {:induction false} FieldCut(entries: seq<Keyed<Json>>, key: Text)
    ensures WalkEntries(entries, [key]) == Some(WithoutKey(entries, key))
  {
    if entries != [] {
      FieldCut(entries[1..], key);
      assert [] + WithoutKey(entries[1..], key) == WithoutKey(entries[1..], key);
    }
  }

  /** A path through a field removes within that field's value, if there is one. */
  lemma WithinField(entries: seq<Keyed<Json>>, key: Text, rest: Text)
    requires Ordinary(key) && Bare(key) && Bare(rest) && DistinctKeys(entries)
    ensures (forall i :: 0 <= i < |entries| ==> entries[i].key != key) ==>
              RemoveWalk(Obj(entries), key + ([0x2e] + rest)) == Some(Obj(entries))
    ensures forall i :: 0 <= i < |entries| && entries[i].key == key ==>
              RemoveWalk(Obj(entries), key + ([0x2e] + rest)) ==
              match RemoveWalk(entries[i].value, rest)
              case None => None
              case Some(value) => Some(Obj(entries[i := Keyed(key, value)]))
  {
    hide WalkEntries, Walk, Split, Segments;
    MoreSegments(key, rest);
    var path: Path := [key] + Segments(rest).value;
    WalkUnfolds(entries, path);
    if forall i :: 0 <= i < |entries| ==> entries[i].key != key { NoSuchField(entries, path); }
    forall i | 0 <= i < |entries| && entries[i].key == key
      ensures RemoveWalk(Obj(entries), key + ([0x2e] + rest)) ==
              match RemoveWalk(entries[i].value, rest)
              case None => None
              case Some(value) => Some(Obj(entries[i := Keyed(key, value)]))
    {
      FieldWalk(entries, path, i);
    }
  }

  lemma WalkUnfolds(entries: seq<Keyed<Json>>, path: Path)
    requires Ordinary(path[0])
    ensures Walk(Obj(entries), path) ==
            match WalkEntries(entries, path) case None => None case Some(cut) => Some(Obj(cut))
  {
    hide WalkEntries;
  }

  lemma {:induction false} NoSuchField(entries: seq<Keyed<Json>>, path: Path)
    requires forall i :: 0 <= i < |entries| ==> entries[i].key != path[0]
    ensures WalkEntries(entries, path) == Some(entries)
  {
    if entries != [] {
      assert entries == [entries[0]] + entries[1..];
      NoSuchField(entries[1..], path);
    }
  }

  lemma {:induction false} FieldWalk(entries: seq<Keyed<Json>>, path: Path, i: nat)
    requires DistinctKeys(entries) && i < |entries| && entries[i].key == path[0] && |path| > 1
    ensures WalkEntries(entries, path) ==
            match Walk(entries[i].value, path[1..])
            case None => None
            case Some(value) => Some(entries[i := Keyed(path[0], value)])
  {
    hide Walk;
    if i == 0 {
      NoSuchField(entries[1..], path);
      var inner := Walk(entries[0].value, path[1..]);
      if inner.Some? {
        assert [Keyed(path[0], inner.value)] + entries[1..] == entries[0 := Keyed(path[0], inner.value)];
      }
    } else {
      FieldWalk(entries[1..], path, i - 1);
      assert entries[0].key != path[0] && entries[1..][i - 1] == entries[i];
      var inner := Walk(entries[i].value, path[1..]);
      if inner.Some? {
        assert WalkEntries(entries[1..], path) == Some(entries[1..][i - 1 := Keyed(path[0], inner.value)]);
        assert [entries[0]] + entries[1..][i - 1 := Keyed(path[0], inner.value)] ==
               entries[i := Keyed(path[0], inner.value)];
      }
    }
  }

  // ----- elements of arrays -----

  /** The canonical decimal numerals: digits, and no zero before another digit. */
  predicate Numeral(s: Text) {
    s != [] && (forall i :: 0 <= i < |s| ==> 0x30 <= s[i] <= 0x39) && (|s| > 1 ==> s[0] != 0x30)
  }

  function Value(s: Text): (v: int)
    requires forall i :: 0 <= i < |s| ==> 0x30 <= s[i] <= 0x39
    ensures v >= 0
  {
    if s == [] then 0 else 10 * Value(s[..|s| - 1]) + (s[|s| - 1] as int - 0x30)
  }

  lemma {:induction false} DecimalIsNumeral(n: nat)
    ensures Numeral(Decimal(n)) && Value(Decimal(n)) == n
    ensures n > 0 ==> Decimal(n)[0] != 0x30
  {
    var s := Decimal(n);
    if n >= 10 {
      DecimalIsNumeral(n / 10);
      assert s[..|s| - 1] == Decimal(n / 10);
    } else {
      assert s[..0] == [];
    }
  }

  lemma {:induction false} NumeralIsDecimal(s: Text)
    requires Numeral(s)
    ensures Decimal(Value(s)) == s
  {
    var front, last := s[..|s| - 1], s[|s| - 1];
    if |s| == 1 {
      assert s == [last] && Value(front) == 0;
    } else {
      NumeralIsDecimal(front);
      PositiveNumeral(front);
      assert s == front + [last];
    }
  }

  lemma {:induction false} PositiveNumeral(s: Text)
    requires Numeral(s) && s[0] != 0x30
    ensures Value(s) > 0
  {
    if |s| > 1 { PositiveNumeral(s[..|s| - 1]); } else { assert s[..0] == [] && Value(s[..0]) == 0; }
  }

  lemma NumeralNames(s: Text, i: nat)
    ensures Names(s, i) <==> Numeral(s) && Value(s) == i
  {
    if Numeral(s) { NumeralIsDecimal(s); }
    DecimalIsNumeral(i);
  }

  /** A numeral removes the element it counts to, from zero, leaving a hole; nothing
      else removes an element. */
  lemma ElementRemoved(items: seq<Json>, segment: Text)
    requires Ordinary(segment) && segment != [0x24]
    ensures Numeral(segment) && Value(segment) < |items| ==>
              RemoveWalk(Arr(items), segment) == Some(Arr(items[Value(segment) := Hole]))
    ensures !Numeral(segment) || Value(segment) >= |items| ==> RemoveWalk(Arr(items), segment) == Some(Arr(items))
  {
    hide WalkItems, Value;
    OneSegment(segment);
    ElementCut(items, 0, segment);
  }

  lemma {:induction false} ElementCut(items: seq<Json>, from: nat, segment: Text)
    ensures WalkItems(items, from, [segment]) ==
            Some(if Numeral(segment) && from <= Value(segment) < from + |items|
                 then items[Value(segment) - from := Hole] else items)
  {
    hide Value, Names;
    if items != [] {
      ElementCut(items[1..], from + 1, segment);
      NumeralNames(segment, from);
      assert [items[0]] + items[1..] == items && [Hole] + items[1..] == items[0 := Hole];
      if Numeral(segment) && from < Value(segment) < from + |items| {
        var k := Value(segment) - from;
        assert [items[0]] + items[1..][k - 1 := Hole] == items[k := Hole];
      }
    }
  }

  // ----- what throws -----

  /** A path of one segment throws exactly when that is empty or holds one of the
      characters not supported, whatever the value. */
  lemma SegmentThrows(j: Json, segment: Text)
    requires 0x2e !in segment && segment != [0x24]
    ensures RemoveWalk(j, segment).None? <==> !Ordinary(segment)
  {
    hide Walk, Split;
    OneSegment(segment);
    SingleWalk(j, segment);
  }

  lemma SingleWalk(j: Json, segment: Text)
    ensures Walk(j, [segment]).None? <==> !Ordinary(segment)
  {
    hide WalkItems, WalkEntries;
    match j
    case Arr(items) => LastSegmentNeverThrows(items, 0, [segment]);
    case Obj(entries) => LastKeyNeverThrows(entries, [segment]);
    case _ =>
  }

  // ----- many paths -----

  lemma {:induction false} CutAddsNothing(j: Json, path: Path, other: Path)
    requires Proper(j) && Lookup(j, other).None?
    ensures Lookup(Cut(j, path), other).None?
    decreases |path|
  {
    hide Cut, Child, Proper;
    ChildOfCut(j, path, other[0]);
    if other[0] == path[0] && |path| > 1 && |other| > 1 && Child(j, path[0]).Some? {
      ChildIsProper(j, path[0]);
      CutAddsNothing(Child(j, path[0]).value, path[1..], other[1..]);
    }
  }

  lemma {:induction false} StripAddsNothing(j: Json, paths: seq<Text>, other: Path)
    requires Proper(j) && Lookup(j, other).None?
    ensures Lookup(StripIgnored(j, paths), other).None?
    decreases |paths|
  {
    hide Proper, Cut, Lookup;
    if paths != [] {
      if Segments(paths[0]).Some? { CutAddsNothing(j, Segments(paths[0]).value, other); }
      RemoveKeepsProper(j, paths[0]);
      StripAddsNothing(Remove(j, paths[0]), paths[1..], other);
    }
  }

  /** Once all configured paths are removed, none of them leads anywhere. */
  lemma {:induction false} StripRemovesEach(j: Json, paths: seq<Text>, k: nat)
    requires Proper(j) && k < |paths| && Segments(paths[k]).Some?
    ensures Lookup(StripIgnored(j, paths), Segments(paths[k]).value).None?
    decreases |paths|
  {
    hide Proper, Cut, Lookup, Segments;
    RemoveKeepsProper(j, paths[0]);
    if k == 0 {
      CutRemovesTarget(j, Segments(paths[0]).value);
      StripAddsNothing(Remove(j, paths[0]), paths[1..], Segments(paths[0]).value);
    } else {
      StripRemovesEach(Remove(j, paths[0]), paths[1..], k - 1);
    }
  }

  /** And every path that neither leads to nor through one of them still leads to the
      same value. */
  lemma {:induction false} StripKeepsOthers(j: Json, paths: seq<Text>, other: Path)
    requires Proper(j)
    requires forall k :: 0 <= k < |paths| && Segments(paths[k]).Some? ==>
               !(Segments(paths[k]).value <= other) && !(other <= Segments(paths[k]).value)
    ensures Lookup(StripIgnored(j, paths), other) == Lookup(j, other)
    decreases |paths|
  {
    hide Proper, Cut, Lookup, Segments;
    if paths != [] {
      RemoveKeepsProper(j, paths[0]);
      if Segments(paths[0]).Some? { CutKeepsOthers(j, Segments(paths[0]).value, other); }
      StripKeepsOthers(Remove(j, paths[0]), paths[1..], other);
    }
  }
}
