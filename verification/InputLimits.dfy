/** The admission budgets for one decoded daemon request. */
module InputLimits {
  import opened Options
  import opened Json
  import opened Ordering

  const MAX_COLLECTION_ENTRIES := 1000
  const MAX_REQUEST_VALUES := 10000
  const MAX_REQUEST_DEPTH := 32

  datatype Violation = TooDeep | TooWide | TooMany

  // ----- the budgets, by recursion on the tree -----

  ghost predicate DepthAtMost(j: Json, d: int)
    decreases j
  {
    0 <= d
    && match j
       case Arr(items) => forall i :: 0 <= i < |items| ==> DepthAtMost(items[i], d - 1)
       case Obj(entries) => forall i :: 0 <= i < |entries| ==> DepthAtMost(entries[i].value, d - 1)
       case _ => true
  }

  ghost predicate WidthsAtMost(j: Json, w: nat)
    decreases j
  {
    match j
    case Arr(items) => |items| <= w && forall i :: 0 <= i < |items| ==> WidthsAtMost(items[i], w)
    case Obj(entries) => |entries| <= w && forall i :: 0 <= i < |entries| ==> WidthsAtMost(entries[i].value, w)
    case _ => true
  }

  /** Root, container and scalar values, counted once each. */
  ghost function Total(j: Json): (n: nat)
    ensures n >= 1
    decreases j, 1
  {
    match j
    case Arr(items) => 1 + TotalItems(j, items, |items|)
    case Obj(entries) => 1 + TotalEntries(j, entries, |entries|)
    case _ => 1
  }

  ghost function TotalItems(j: Json, items: seq<Json>, n: nat): nat
    requires n <= |items| && forall i :: 0 <= i < |items| ==> items[i] < j
    decreases j, 0, n
  {
    if n == 0 then 0 else TotalItems(j, items, n - 1) + Total(items[n - 1])
  }

  ghost function TotalEntries(j: Json, entries: seq<Keyed<Json>>, n: nat): nat
    requires n <= |entries| && forall i :: 0 <= i < |entries| ==> entries[i].value < j
    decreases j, 0, n
  {
    if n == 0 then 0 else TotalEntries(j, entries, n - 1) + Total(entries[n - 1].value)
  }

  // ----- the same by the values one level below, as the walk visits them -----

  ghost function TotalOfFirst(j: Json, n: nat): nat
    requires n <= |Children(j)|
  {
    if n == 0 then 0 else TotalOfFirst(j, n - 1) + Total(Children(j)[n - 1])
  }

  lemma BudgetsByChildren(j: Json, d: int, w: nat)
    ensures DepthAtMost(j, d) <==> 0 <= d && forall i :: 0 <= i < |Children(j)| ==> DepthAtMost(Children(j)[i], d - 1)
    ensures WidthsAtMost(j, w) <==>
            |Children(j)| <= w && forall i :: 0 <= i < |Children(j)| ==> WidthsAtMost(Children(j)[i], w)
    ensures Total(j) == 1 + TotalOfFirst(j, |Children(j)|)
  {
    match j
    case Arr(items) => FirstItems(j, |items|);
    case Obj(entries) => FirstEntries(j, |entries|);
    case _ =>
  }

  lemma {:induction false} FirstItems(j: Json, n: nat)
    requires j.Arr? && n <= |j.items|
    ensures TotalOfFirst(j, n) == TotalItems(j, j.items, n)
  {
    if n > 0 { FirstItems(j, n - 1); }
  }

  lemma {:induction false} FirstEntries(j: Json, n: nat)
    requires j.Obj? && n <= |j.entries|
    ensures TotalOfFirst(j, n) == TotalEntries(j, j.entries, n)
  {
    if n > 0 { FirstEntries(j, n - 1); }
  }

  ghost predicate WithinLimits(j: Json) {
    DepthAtMost(j, MAX_REQUEST_DEPTH) && WidthsAtMost(j, MAX_COLLECTION_ENTRIES) && Total(j) <= MAX_REQUEST_VALUES
  }

  // ----- the explicit stack -----

  datatype Item = Item(value: Json, depth: nat)

  ghost function StackTotal(pending: seq<Item>): nat {
    if pending == [] then 0
    else StackTotal(pending[..|pending| - 1]) + Total(pending[|pending| - 1].value)
  }

  ghost predicate StackShallow(pending: seq<Item>) {
    forall i :: 0 <= i < |pending| ==> DepthAtMost(pending[i].value, MAX_REQUEST_DEPTH - pending[i].depth)
  }

  ghost predicate StackNarrow(pending: seq<Item>) {
    forall i :: 0 <= i < |pending| ==> WidthsAtMost(pending[i].value, MAX_COLLECTION_ENTRIES)
  }

  function ItemsOf(values: seq<Json>, depth: nat): (items: seq<Item>) {
    seq(|values|, i requires 0 <= i < |values| => Item(values[i], depth))
  }

  lemma StackTotalPush(pending: seq<Item>, item: Item)
    ensures StackTotal(pending + [item]) == StackTotal(pending) + Total(item.value)
  {
    assert (pending + [item])[..|pending|] == pending;
  }

  /** Push every child of `value`, one at a time. */
  method PushChildren(pending: seq<Item>, value: Json, depth: nat) returns (grown: seq<Item>)
    ensures grown == pending + ItemsOf(Children(value), depth)
  {
    grown := pending;
    var cs := Children(value);
    for i := 0 to |cs|
      invariant grown == pending + ItemsOf(cs[..i], depth)
    {
      grown := grown + [Item(cs[i], depth)];
    }
    assert cs[..|cs|] == cs;
  }

  lemma StackTotalOfChildren(pending: seq<Item>, value: Json, depth: nat, n: nat)
    requires n <= |Children(value)|
    ensures StackTotal(pending + ItemsOf(Children(value)[..n], depth)) == StackTotal(pending) + TotalOfFirst(value, n)
  {
    hide Total, StackTotal, Children;
    var cs := Children(value);
    if n == 0 {
      assert pending + ItemsOf(cs[..0], depth) == pending;
    } else {
      StackTotalOfChildren(pending, value, depth, n - 1);
      var before := pending + ItemsOf(cs[..n - 1], depth);
      assert pending + ItemsOf(cs[..n], depth) == before + [Item(cs[n - 1], depth)];
      StackTotalPush(before, Item(cs[n - 1], depth));
    }
  }

  lemma StackTotalBound(pending: seq<Item>)
    ensures |pending| <= StackTotal(pending)
  {
    if pending != [] { StackTotalBound(pending[..|pending| - 1]); }
  }

  lemma StackAppend(a: seq<Item>, b: seq<Item>)
    ensures StackShallow(a + b) <==> StackShallow(a) && StackShallow(b)
    ensures StackNarrow(a + b) <==> StackNarrow(a) && StackNarrow(b)
  {
    var ab := a + b;
    assert forall i :: 0 <= i < |a| ==> a[i] == ab[i];
    assert forall i :: 0 <= i < |b| ==> b[i] == ab[|a| + i];
  }

  lemma ChildrenShallow(item: Item)
    requires item.depth <= MAX_REQUEST_DEPTH
    ensures StackShallow([item]) <==> StackShallow(ItemsOf(Children(item.value), item.depth + 1))
  {
    var one, items := [item], ItemsOf(Children(item.value), item.depth + 1);
    var d := MAX_REQUEST_DEPTH - item.depth;
    assert StackShallow(one) <==> DepthAtMost(one[0].value, d);
    assert forall i :: 0 <= i < |items| ==>
                         (DepthAtMost(items[i].value, d - 1) <==> DepthAtMost(Children(item.value)[i], d - 1));
  }

  lemma ChildrenNarrow(item: Item)
    requires |Children(item.value)| <= MAX_COLLECTION_ENTRIES
    ensures StackNarrow([item]) <==> StackNarrow(ItemsOf(Children(item.value), item.depth + 1))
  {
    var one, items := [item], ItemsOf(Children(item.value), item.depth + 1);
    var w := MAX_COLLECTION_ENTRIES;
    assert StackNarrow(one) <==> WidthsAtMost(one[0].value, w);
    assert forall i :: 0 <= i < |items| ==>
                         (WidthsAtMost(items[i].value, w) <==> WidthsAtMost(Children(item.value)[i], w));
  }

  /** Replacing the popped item by its children preserves both shape budgets. */
  lemma ExpandItem(rest: seq<Item>, item: Item)
    ensures StackShallow(rest + [item]) ==> item.depth <= MAX_REQUEST_DEPTH
    ensures StackNarrow(rest + [item]) ==> |Children(item.value)| <= MAX_COLLECTION_ENTRIES
    ensures item.depth <= MAX_REQUEST_DEPTH ==>
              (StackShallow(rest + [item]) <==> StackShallow(rest + ItemsOf(Children(item.value), item.depth + 1)))
    ensures |Children(item.value)| <= MAX_COLLECTION_ENTRIES ==>
              (StackNarrow(rest + [item]) <==> StackNarrow(rest + ItemsOf(Children(item.value), item.depth + 1)))
  {
    var one := [item];
    StackAppend(rest, one);
    StackAppend(rest, ItemsOf(Children(item.value), item.depth + 1));
    assert StackShallow(one) ==> DepthAtMost(one[0].value, MAX_REQUEST_DEPTH - one[0].depth);
    assert StackNarrow(one) ==> WidthsAtMost(one[0].value, MAX_COLLECTION_ENTRIES);
    if item.depth <= MAX_REQUEST_DEPTH { ChildrenShallow(item); }
    if |Children(item.value)| <= MAX_COLLECTION_ENTRIES { ChildrenNarrow(item); }
  }

  /** What the walk knows between two pops, about a tree not yet rejected. */
  ghost predicate Pending(input: Json, pending: seq<Item>, admitted: int) {
    && (StackShallow(pending) <==> DepthAtMost(input, MAX_REQUEST_DEPTH))
    && (StackNarrow(pending) <==> WidthsAtMost(input, MAX_COLLECTION_ENTRIES))
    && admitted + StackTotal(pending) == Total(input) + |pending|
  }

  lemma StartPending(input: Json)
    ensures Pending(input, [Item(input, 0)], 1) && 1 <= Total(input)
  {
    hide Total, DepthAtMost, WidthsAtMost;
    var p := [Item(input, 0)];
    StackTotalPush([], p[0]);
    StackTotalBound(p);
    assert [] + p == p;
    assert StackShallow(p) <==> DepthAtMost(p[0].value, MAX_REQUEST_DEPTH - p[0].depth);
    assert StackNarrow(p) <==> WidthsAtMost(p[0].value, MAX_COLLECTION_ENTRIES);
  }

  lemma StepPending(input: Json, rest: seq<Item>, item: Item, admitted: int)
    requires Pending(input, rest + [item], admitted)
    ensures item.depth > MAX_REQUEST_DEPTH ==> !DepthAtMost(input, MAX_REQUEST_DEPTH)
    ensures |Children(item.value)| > MAX_COLLECTION_ENTRIES ==> !WidthsAtMost(input, MAX_COLLECTION_ENTRIES)
    ensures admitted + |Children(item.value)| <= Total(input)
    ensures item.depth <= MAX_REQUEST_DEPTH && |Children(item.value)| <= MAX_COLLECTION_ENTRIES ==>
              var items := ItemsOf(Children(item.value), item.depth + 1);
              && Pending(input, rest + items, admitted + |Children(item.value)|)
              && StackTotal(rest + items) < StackTotal(rest + [item])
  {
    hide Total, DepthAtMost, WidthsAtMost, StackTotal, TotalOfFirst;
    BudgetsByChildren(item.value, 0, 0);
    var n := |Children(item.value)|;
    ExpandItem(rest, item);
    StackTotalPush(rest, item);
    StackTotalOfChildren(rest, item.value, item.depth + 1, n);
    assert Children(item.value)[..n] == Children(item.value);
    StackTotalBound(rest);
    CountOfChildren(item.value, n);
  }

  lemma DonePending(input: Json, admitted: int)
    requires Pending(input, [], admitted)
    ensures admitted <= MAX_REQUEST_VALUES <==> Total(input) <= MAX_REQUEST_VALUES
    ensures DepthAtMost(input, MAX_REQUEST_DEPTH) && WidthsAtMost(input, MAX_COLLECTION_ENTRIES)
  {
  }

  // ----- the walk, one pop at a time -----

  datatype Walk = Walking(pending: seq<Item>, admitted: nat) | Ended(answer: Option<Violation>)

  /** Pop an item, test its depth and its width, admit its children, push them. */
  function WalkStep(walk: Walk): Walk {
    match walk
    case Ended(_) => walk
    case Walking(pending, admitted) =>
      if pending == [] then Ended(None)
      else
        var rest, item := pending[..|pending| - 1], pending[|pending| - 1];
        var length := |Children(item.value)|;
        if item.depth > MAX_REQUEST_DEPTH then Ended(Some(TooDeep))
        else if !item.value.Container() then Walking(rest, admitted)
        else if length > MAX_COLLECTION_ENTRIES then Ended(Some(TooWide))
        else if admitted + length > MAX_REQUEST_VALUES then Ended(Some(TooMany))
        else Walking(rest + ItemsOf(Children(item.value), item.depth + 1), admitted + length)
  }

  /** Where the walk stands after `n` steps. */
  function WalkAt(input: Json, n: nat): Walk {
    if n == 0 then Walking([Item(input, 0)], 1) else WalkStep(WalkAt(input, n - 1))
  }

  /** What holds of the walk's `n`-th state. */
  ghost predicate WalkState(input: Json, n: nat, walk: Walk) {
    match walk
    case Walking(pending, admitted) =>
      && n + |pending| == admitted <= MAX_REQUEST_VALUES && admitted <= Total(input)
      && Pending(input, pending, admitted)
    case Ended(answer) => Truthful(input, answer)
  }

  ghost predicate Truthful(input: Json, answer: Option<Violation>) {
    && (answer.None? <==> WithinLimits(input))
    && (answer == Some(TooDeep) ==> !DepthAtMost(input, MAX_REQUEST_DEPTH))
    && (answer == Some(TooWide) ==> !WidthsAtMost(input, MAX_COLLECTION_ENTRIES))
    && (answer == Some(TooMany) ==> Total(input) > MAX_REQUEST_VALUES)
  }

  lemma StepState(input: Json, n: nat, walk: Walk)
    requires WalkState(input, n, walk)
    ensures WalkState(input, n + 1, WalkStep(walk))
  {
    hide Pending, StackTotal, DepthAtMost, WidthsAtMost, Total;
    if walk.Walking? {
      if walk.pending == [] {
        DonePending(input, walk.admitted);
      } else {
        PopState(input, n, walk.pending, walk.admitted);
      }
    }
  }

  lemma PopState(input: Json, n: nat, pending: seq<Item>, admitted: nat)
    requires pending != [] && WalkState(input, n, Walking(pending, admitted))
    ensures WalkState(input, n + 1, WalkStep(Walking(pending, admitted)))
  {
    hide Pending, StackTotal, DepthAtMost, WidthsAtMost, Total;
    var rest, item := pending[..|pending| - 1], pending[|pending| - 1];
    assert rest + [item] == pending;
    StepPending(input, rest, item, admitted);
    if !item.value.Container() { assert rest + ItemsOf([], item.depth + 1) == rest; }
  }

  lemma {:induction false} WalkStates(input: Json, n: nat)
    ensures WalkState(input, n, WalkAt(input, n))
  {
    hide WalkStep, WalkState;
    if n == 0 {
      StartState(input);
    } else {
      WalkStates(input, n - 1);
      StepState(input, n - 1, WalkAt(input, n - 1));
    }
  }

  lemma StartState(input: Json)
    ensures WalkState(input, 0, Walking([Item(input, 0)], 1))
  {
    hide Pending, Total;
    StartPending(input);
  }

  /** In every state of the walk each value admitted was popped or is on the stack,
      and what was admitted is within the tree and the budget. So the stack never
      exceeds what was admitted, and the walk ends within as many pops. */
  lemma StackWithinAdmitted(input: Json, n: nat)
    ensures var walk := WalkAt(input, n);
            walk.Walking? ==>
              && n + |walk.pending| == walk.admitted && |walk.pending| <= walk.admitted
              && walk.admitted <= Total(input) && walk.admitted <= MAX_REQUEST_VALUES
    ensures n > Total(input) || n > MAX_REQUEST_VALUES ==> WalkAt(input, n).Ended?
  {
    hide WalkAt, Pending, Total;
    WalkStates(input, n);
  }

  // ----- which budget is named -----

  datatype Visited = Stopped(violation: Violation) | Admitted(count: nat)

  /** The same budgets by recursion: a value's depth, its width, the count with its
      children admitted, and then the children, the last one first. */
  function Visit(j: Json, depth: nat, admitted: nat): Visited
    decreases j, 1
  {
    if depth > 32 then Stopped(TooDeep)
    else match j
      case Arr(items) =>
        if |items| > 1000 then Stopped(TooWide)
        else if admitted + |items| > 10000 then Stopped(TooMany)
        else VisitItems(j, items, |items|, depth + 1, admitted + |items|)
      case Obj(entries) =>
        if |entries| > 1000 then Stopped(TooWide)
        else if admitted + |entries| > 10000 then Stopped(TooMany)
        else VisitEntries(j, entries, |entries|, depth + 1, admitted + |entries|)
      case _ => Admitted(admitted)
  }

  function VisitItems(j: Json, items: seq<Json>, n: nat, depth: nat, admitted: nat): Visited
    requires n <= |items| && forall i :: 0 <= i < |items| ==> items[i] < j
    decreases j, 0, n
  {
    if n == 0 then Admitted(admitted)
    else match Visit(items[n - 1], depth, admitted)
      case Stopped(violation) => Stopped(violation)
      case Admitted(count) => VisitItems(j, items, n - 1, depth, count)
  }

  function VisitEntries(j: Json, entries: seq<Keyed<Json>>, n: nat, depth: nat, admitted: nat): Visited
    requires n <= |entries| && forall i :: 0 <= i < |entries| ==> entries[i].value < j
    decreases j, 0, n
  {
    if n == 0 then Admitted(admitted)
    else match Visit(entries[n - 1].value, depth, admitted)
      case Stopped(violation) => Stopped(violation)
      case Admitted(count) => VisitEntries(j, entries, n - 1, depth, count)
  }

  /** A stack is visited from its top. */
  function VisitStack(pending: seq<Item>, admitted: nat): Visited {
    if pending == [] then Admitted(admitted)
    else
      var item := pending[|pending| - 1];
      match Visit(item.value, item.depth, admitted)
      case Stopped(violation) => Stopped(violation)
      case Admitted(count) => VisitStack(pending[..|pending| - 1], count)
  }

  function AndThen(visited: Visited, rest: seq<Item>): Visited {
    match visited
    case Stopped(_) => visited
    case Admitted(count) => VisitStack(rest, count)
  }

  lemma VisitTop(rest: seq<Item>, item: Item, admitted: nat)
    ensures VisitStack(rest + [item], admitted) == AndThen(Visit(item.value, item.depth, admitted), rest)
  {
    hide Visit;
    assert (rest + [item])[..|rest|] == rest;
  }

  lemma NothingPushed(rest: seq<Item>, depth: nat)
    ensures rest + ItemsOf([], depth) == rest
  {
  }

  lemma OnePushed(rest: seq<Item>, values: seq<Json>, n: nat, depth: nat)
    requires 0 < n <= |values|
    ensures rest + ItemsOf(values[..n], depth) == rest + ItemsOf(values[..n - 1], depth) + [Item(values[n - 1], depth)]
  {
  }

  lemma {:induction false} ItemsPushed(rest: seq<Item>, j: Json, n: nat, depth: nat, admitted: nat)
    requires j.Arr? && n <= |j.items|
    ensures VisitStack(rest + ItemsOf(j.items[..n], depth), admitted) ==
            AndThen(VisitItems(j, j.items, n, depth, admitted), rest)
    decreases n
  {
    hide Visit, VisitStack;
    if n == 0 {
      NothingPushed(rest, depth);
    } else {
      var item, before := Item(j.items[n - 1], depth), rest + ItemsOf(j.items[..n - 1], depth);
      OnePushed(rest, j.items, n, depth);
      VisitTop(before, item, admitted);
      var top := Visit(item.value, depth, admitted);
      if top.Admitted? { ItemsPushed(rest, j, n - 1, depth, top.count); }
    }
  }

  lemma {:induction false} EntriesPushed(rest: seq<Item>, j: Json, n: nat, depth: nat, admitted: nat)
    requires j.Obj? && n <= |j.entries|
    ensures VisitStack(rest + ItemsOf(Children(j)[..n], depth), admitted) ==
            AndThen(VisitEntries(j, j.entries, n, depth, admitted), rest)
    decreases n
  {
    hide Visit, VisitStack;
    if n == 0 {
      NothingPushed(rest, depth);
    } else {
      var item, before := Item(j.entries[n - 1].value, depth), rest + ItemsOf(Children(j)[..n - 1], depth);
      OnePushed(rest, Children(j), n, depth);
      VisitTop(before, item, admitted);
      var top := Visit(item.value, depth, admitted);
      if top.Admitted? { EntriesPushed(rest, j, n - 1, depth, top.count); }
    }
  }

  /** What a walk still in progress will answer. */
  function Answer(walk: Walk): Option<Violation> {
    match walk
    case Ended(answer) => answer
    case Walking(pending, admitted) =>
      (match VisitStack(pending, admitted) case Stopped(violation) => Some(violation) case Admitted(_) => None)
  }

  lemma PopVisits(rest: seq<Item>, item: Item, admitted: nat)
    ensures Answer(WalkStep(Walking(rest + [item], admitted))) == Answer(Walking(rest + [item], admitted))
  {
    hide VisitStack, VisitItems, VisitEntries;
    var pending, n := rest + [item], |Children(item.value)|;
    assert pending[..|pending| - 1] == rest && pending[|pending| - 1] == item;
    assert Children(item.value)[..n] == Children(item.value);
    VisitTop(rest, item, admitted);
    match item.value
    case Arr(items) => ItemsPushed(rest, item.value, n, item.depth + 1, admitted + n);
    case Obj(entries) => EntriesPushed(rest, item.value, n, item.depth + 1, admitted + n);
    case _ =>
  }

  lemma {:induction false} WalkVisits(input: Json, n: nat)
    ensures Answer(WalkAt(input, n)) == Answer(Walking([Item(input, 0)], 1))
  {
    hide Answer, WalkStep;
    if n > 0 {
      WalkVisits(input, n - 1);
      StepVisits(WalkAt(input, n - 1));
    }
  }

  lemma StepVisits(walk: Walk)
    ensures Answer(WalkStep(walk)) == Answer(walk)
  {
    hide Visit;
    if walk.Walking? && walk.pending != [] {
      var n := |walk.pending| - 1;
      assert walk.pending[..n] + [walk.pending[n]] == walk.pending;
      PopVisits(walk.pending[..n], walk.pending[n], walk.admitted);
    }
  }

  /** The walk names the violation the recursion meets first. */
  lemma WalkIsVisit(input: Json, n: nat, answer: Option<Violation>)
    requires WalkAt(input, n) == Ended(answer)
    ensures answer == match Visit(input, 0, 1) case Stopped(violation) => Some(violation) case Admitted(_) => None
  {
    hide WalkAt, Visit;
    WalkVisits(input, n);
    VisitTop([], Item(input, 0), 1);
    assert [] + [Item(input, 0)] == [Item(input, 0)];
  }

  lemma {:induction false} AnswerStays(input: Json, n: nat, m: nat)
    requires n <= m && WalkAt(input, n).Ended?
    ensures WalkAt(input, m) == WalkAt(input, n)
    decreases m
  {
    if n < m { AnswerStays(input, n, m - 1); }
  }

  /** An answer given at step `n` is the walk's end, and true. */
  lemma AnswerIsEnd(input: Json, n: nat, answer: Option<Violation>)
    requires WalkAt(input, n) == Ended(answer) && n <= MAX_REQUEST_VALUES + 1
    ensures forall m :: m > MAX_REQUEST_VALUES ==> WalkAt(input, m) == Ended(answer)
    ensures Truthful(input, answer)
    ensures answer == match Visit(input, 0, 1) case Stopped(violation) => Some(violation) case Admitted(_) => None
  {
    hide WalkAt, Truthful, Visit;
    WalkStates(input, n);
    WalkIsVisit(input, n, answer);
    forall m | m > MAX_REQUEST_VALUES ensures WalkAt(input, m) == Ended(answer) { AnswerStays(input, n, m); }
  }

  /** The loop is that walk: it gives the walk's answer, which admits exactly the
      trees within the recursive budgets and otherwise names the budget a recursion
      over the tree would find exceeded first. */
  method RequestInputLimitViolation(input: Json) returns (violation: Option<Violation>)
    ensures forall m :: m > MAX_REQUEST_VALUES ==> WalkAt(input, m) == Ended(violation)
    ensures violation.None? <==> DepthAtMost(input, 32) && WidthsAtMost(input, 1000) && Total(input) <= 10000
    ensures violation == match Visit(input, 0, 1) case Stopped(first) => Some(first) case Admitted(_) => None
    ensures violation == Some(TooDeep) ==> !DepthAtMost(input, 32)
    ensures violation == Some(TooWide) ==> !WidthsAtMost(input, 1000)
    ensures violation == Some(TooMany) ==> Total(input) > 10000
  {
    hide DepthAtMost, WidthsAtMost, Total, WalkAt, Visit;
    var pending := [Item(input, 0)];
    var admittedValues: nat := 1;
    ghost var n: nat := 0;
    WalkUnfolds(input, 0);
    while |pending| > 0
      invariant WalkAt(input, n) == Walking(pending, admittedValues)
      decreases MAX_REQUEST_VALUES - n
    {
      StackWithinAdmitted(input, n);
      WalkUnfolds(input, n);
      n := n + 1;
      var item := pending[|pending| - 1];
      pending := pending[..|pending| - 1];
      if item.depth > MAX_REQUEST_DEPTH {
        AnswerIsEnd(input, n, Some(TooDeep));
        return Some(TooDeep);
      }
      if !item.value.Container() {
        continue;
      }
      var length := |Children(item.value)|;
      if length > MAX_COLLECTION_ENTRIES {
        AnswerIsEnd(input, n, Some(TooWide));
        return Some(TooWide);
      }
      admittedValues := admittedValues + length;
      if admittedValues > MAX_REQUEST_VALUES {
        AnswerIsEnd(input, n, Some(TooMany));
        return Some(TooMany);
      }
      pending := PushChildren(pending, item.value, item.depth + 1);
    }
    StackWithinAdmitted(input, n);
    WalkUnfolds(input, n);
    AnswerIsEnd(input, n + 1, None);
    return None;
  }

  lemma WalkUnfolds(input: Json, n: nat)
    ensures WalkAt(input, 0) == Walking([Item(input, 0)], 1)
    ensures WalkAt(input, n + 1) == WalkStep(WalkAt(input, n))
  {
    hide WalkStep;
  }

  lemma CountOfChildren(j: Json, n: nat)
    requires n <= |Children(j)|
    ensures n <= TotalOfFirst(j, n)
  {
    if n > 0 { CountOfChildren(j, n - 1); }
  }
}
