/** The composite snapshot: parts fetched by the worker pool under a byte budget
    accumulated in completion order, then rendered as one text. */
module Composite {
  import opened Utf16
  import opened Utf8
  import opened Options
  import opened Ordering
  import Pools = WorkerPool

  /** A fetched part: its id and the body its call returned. */
  type Part = Keyed<Text>

  const MAX_COMPOSITE_BYTES := 10 * 1024 * 1024

  const NL: CodeUnit := 0x0a
  const HASH: CodeUnit := 0x23
  const SPACE: CodeUnit := 0x20

  function FramedPartSection(part: Part): Text {
    [HASH, HASH, SPACE] + part.key + [NL] + part.value
  }

  function FramedPartByteLength(part: Part): nat { ByteLength(FramedPartSection(part)) }

  function JoinSections(parts: seq<Part>): Text {
    if parts == [] then []
    else if |parts| == 1 then FramedPartSection(parts[0])
    else FramedPartSection(parts[0]) + ([NL, NL] + JoinSections(parts[1..]))
  }

  function RenderCompositeSnapshot(parts: seq<Part>): Text { JoinSections(Sort(parts)) }

  function TotalFramed(parts: seq<Part>): nat {
    if parts == [] then 0 else FramedPartByteLength(parts[0]) + TotalFramed(parts[1..])
  }

  /** Unless two parts share an id but not a body, the snapshot does not depend
      on the order of the parts. */
  lemma RenderForgetsOrder(parts: seq<Part>, shuffled: seq<Part>)
    requires SharedKeysAgree(parts) && multiset(parts) == multiset(shuffled)
    ensures RenderCompositeSnapshot(parts) == RenderCompositeSnapshot(shuffled)
  {
    SortForgetsOrder(parts, shuffled);
  }

  /** Two parts may share an id; then the declared order shows through. */
  lemma SharedIdsKeepDeclaredOrder()
    ensures var a, b := Keyed([HASH], [HASH]), Keyed([HASH], [SPACE]);
            multiset([a, b]) == multiset([b, a]) &&
            RenderCompositeSnapshot([a, b]) != RenderCompositeSnapshot([b, a])
  {
    var a, b := Keyed([HASH], [HASH]), Keyed([HASH], [SPACE]);
    TwoOfOneId(a, b);
    TwoOfOneId(b, a);
    var x, y := RenderCompositeSnapshot([a, b]), RenderCompositeSnapshot([b, a]);
    assert x[5] == HASH && y[5] == SPACE;
    assert multiset([a, b]) == multiset{a, b} == multiset([b, a]);
  }

  lemma TwoOfOneId(a: Part, b: Part)
    requires a.key == b.key
    ensures RenderCompositeSnapshot([a, b]) == FramedPartSection(a) + ([NL, NL] + FramedPartSection(b))
  {
    hide FramedPartSection, Less;
    LessTotal(a.key, b.key);
    assert [a, b][1..] == [b] && [b][1..] == [];
    assert Sort([b]) == Insert(b, []) == [b] + [] == [b];
    assert Sort([a, b]) == Insert(a, Sort([b])) == [a] + [b] == [a, b];
    assert JoinSections([b]) == FramedPartSection(b);
    assert JoinSections([a, b]) == FramedPartSection(a) + ([NL, NL] + JoinSections([b]));
  }

  // ----- the text -----

  /** A snapshot of one part: its id under two hashes, and its body below. */
  lemma OnePartReads(part: Part)
    ensures RenderCompositeSnapshot([part]) == [0x23, 0x23, 0x20] + part.key + [0x0a] + part.value
  {
    assert [part][1..] == [] && Sort<Text>([]) == [];
  }

  /** A part whose id comes before or with all others' stands first, an empty line
      before the rest. */
  lemma FirstPartReads(part: Part, rest: seq<Part>)
    requires rest != [] && forall q :: q in rest ==> !Less(q.key, part.key)
    ensures RenderCompositeSnapshot([part] + rest) ==
            [0x23, 0x23, 0x20] + part.key + [0x0a] + part.value + [0x0a, 0x0a] + RenderCompositeSnapshot(rest)
  {
    hide Less;
    assert ([part] + rest)[1..] == rest;
    SortSorts(rest);
    var sorted := Sort(rest);
    assert sorted[0] in multiset(sorted);
    assert Sort([part] + rest) == [part] + sorted;
    var framed := [0x23, 0x23, 0x20] + part.key + [0x0a] + part.value;
    assert ([part] + sorted)[1..] == sorted && FramedPartSection(part) == framed;
    assert framed + ([NL, NL] + JoinSections(sorted)) == framed + [0x0a, 0x0a] + JoinSections(sorted);
  }

  // ----- bytes -----

  lemma {:induction false} JoinBytes(parts: seq<Part>)
    requires parts != []
    ensures ByteLength(JoinSections(parts)) == TotalFramed(parts) + 2 * (|parts| - 1)
  {
    hide ByteLength, FramedPartSection;
    if |parts| == 1 {
      assert TotalFramed(parts[1..]) == 0;
    } else {
      var head, tail := FramedPartSection(parts[0]), JoinSections(parts[1..]);
      JoinBytes(parts[1..]);
      ByteLengthAppend(head, [NL, NL] + tail);
      ByteLengthAppend([NL, NL], tail);
      SeparatorBytes();
    }
  }

  lemma SeparatorBytes()
    ensures ByteLength([NL, NL]) == 2
  {
    assert [NL, NL][1..] == [NL] && [NL][1..] == [];
    assert EncodeUtf8([NL]) == [NL] + EncodeUtf8([]);
  }

  lemma {:induction false} InsertBytes(x: Part, xs: seq<Part>)
    ensures TotalFramed(Insert(x, xs)) == FramedPartByteLength(x) + TotalFramed(xs)
  {
    hide FramedPartByteLength, Less;
    if xs == [] || !Less(xs[0].key, x.key) {
      assert ([x] + xs)[1..] == xs;
    } else {
      var rest := Insert(x, xs[1..]);
      InsertBytes(x, xs[1..]);
      assert ([xs[0]] + rest)[1..] == rest;
    }
  }

  lemma {:induction false} SortBytes(xs: seq<Part>)
    ensures TotalFramed(Sort(xs)) == TotalFramed(xs)
  {
    if xs != [] {
      SortBytes(xs[1..]);
      InsertBytes(xs[0], Sort(xs[1..]));
    }
  }

  /** The running sum undercounts the artifact by exactly its separators. */
  lemma RenderedBytes(parts: seq<Part>)
    requires parts != []
    ensures ByteLength(RenderCompositeSnapshot(parts)) == TotalFramed(parts) + 2 * (|parts| - 1)
  {
    SortSorts(parts);
    JoinBytes(Sort(parts));
    SortBytes(parts);
  }

  // ----- the batch -----

  datatype BatchError = OverBudget | Cancelled

  /** `counted` records the parts whose bytes the running total includes. */
  datatype Batch = Batch(pool: Pools.Pool<Part, BatchError>, totalBytes: nat, counted: seq<bool>)

  datatype Step =
    | Turn(w: nat)     // worker w runs from its loop top
    | Arrive(w: nat)   // the part worker w fetches arrives and its callback runs
    | Cancel(w: nat)   // the shared signal cancels the fetch worker w awaits
    | Settle

  function Start(parts: seq<Part>, limit: int): Batch
    requires limit >= 1
  {
    Batch(Pools.Start(|parts|, limit), 0, seq(|parts|, _ => false))
  }

  predicate Fetching(b: Batch, w: nat) {
    && w < |b.pool.workers| && b.pool.workers[w].InFlight?
    && b.pool.workers[w].index < |b.pool.results| == |b.counted|
  }

  predicate Enabled(b: Batch, s: Step) {
    match s
    case Turn(w) => Pools.Enabled(b.pool, Pools.Turn(w))
    case Arrive(w) => Fetching(b, w)
    case Cancel(w) => Fetching(b, w) && b.pool.aborted
    case Settle => Pools.Enabled(b.pool, Pools.Settle)
  }

  /** Any part in flight may be the next to arrive, and once a part failed the batch any
      other may be cancelled instead. */
  lemma AnyOrderIsPossible(parts: seq<Part>, b: Batch, w: nat, limit: int)
    requires Inv(parts, b, limit) && w < |b.pool.workers|
    ensures Enabled(b, Arrive(w)) <==> b.pool.workers[w].InFlight?
    ensures Enabled(b, Cancel(w)) <==> b.pool.workers[w].InFlight? && b.pool.aborted
    ensures Enabled(b, Turn(w)) <==> b.pool.workers[w] == Pools.AtLoopTop
    ensures Enabled(b, Settle) <==> Pools.Enabled(b.pool, Pools.Settle)
  {
    hide Pools.Inv, FramedPartByteLength, CountedBytes, TotalFramed;
    InFlightApart(b, limit);
  }

  /** The pool event one step amounts to. */
  function PoolEvent(parts: seq<Part>, b: Batch, s: Step): Pools.Event<Part, BatchError>
    requires Enabled(b, s) && |parts| == |b.counted|
  {
    match s
    case Turn(w) => Pools.Turn(w)
    case Arrive(w) =>
      var part := parts[b.pool.workers[w].index];
      if b.totalBytes + FramedPartByteLength(part) > MAX_COMPOSITE_BYTES
      then Pools.Fail(w, OverBudget) else Pools.Answer(w, part)
    case Cancel(w) => Pools.Fail(w, Cancelled)
    case Settle => Pools.Settle
  }

  function Next(parts: seq<Part>, b: Batch, s: Step): Batch
    requires Enabled(b, s) && |parts| == |b.counted|
  {
    var pool := Pools.Next(b.pool, PoolEvent(parts, b, s));
    if s.Arrive? then
      var i := b.pool.workers[s.w].index;
      Batch(pool, b.totalBytes + FramedPartByteLength(parts[i]), b.counted[i := true])
    else b.(pool := pool)
  }

  ghost function CountedBytes(parts: seq<Part>, counted: seq<bool>): nat
    requires |parts| == |counted|
  {
    if parts == [] then 0
    else (if counted[0] then FramedPartByteLength(parts[0]) else 0) + CountedBytes(parts[1..], counted[1..])
  }

  lemma {:induction false} CountOne(parts: seq<Part>, counted: seq<bool>, i: nat)
    requires i < |parts| == |counted| && !counted[i]
    ensures CountedBytes(parts, counted[i := true]) == CountedBytes(parts, counted) + FramedPartByteLength(parts[i])
  {
    hide FramedPartByteLength;
    if i > 0 {
      assert counted[i := true][1..] == counted[1..][i - 1 := true];
      CountOne(parts[1..], counted[1..], i - 1);
    } else {
      assert counted[0 := true][1..] == counted[1..];
    }
  }

  lemma {:induction false} CountedBound(parts: seq<Part>, counted: seq<bool>)
    requires |parts| == |counted|
    ensures CountedBytes(parts, counted) <= TotalFramed(parts)
    ensures (forall i :: 0 <= i < |counted| ==> counted[i]) ==> CountedBytes(parts, counted) == TotalFramed(parts)
  {
    hide FramedPartByteLength;
    if parts != [] {
      CountedBound(parts[1..], counted[1..]);
      assert forall i :: 0 <= i < |counted[1..]| ==> counted[1..][i] == counted[i + 1];
    }
  }

  ghost predicate Inv(parts: seq<Part>, b: Batch, limit: int) {
    && Pools.Inv(b.pool, limit)
    && b.pool.size == |parts| == |b.counted|
    && (forall i :: i in b.pool.answers ==> i < |parts| && b.pool.answers[i] == parts[i] && b.counted[i])
    && (forall w :: 0 <= w < |b.pool.workers| && b.pool.workers[w].InFlight? ==>
          b.pool.workers[w].index < |parts| && !b.counted[b.pool.workers[w].index])
    && (forall i :: |b.pool.calls| <= i < |parts| ==> !b.counted[i])
    && b.totalBytes == CountedBytes(parts, b.counted)
    && (!b.pool.aborted ==> b.totalBytes <= MAX_COMPOSITE_BYTES)
    && (b.pool.aborted ==> b.pool.failure == Some(OverBudget) && TotalFramed(parts) > MAX_COMPOSITE_BYTES)
  }

  lemma StartInv(parts: seq<Part>, limit: int)
    requires limit >= 1
    ensures Inv(parts, Start(parts, limit), limit)
  {
    Pools.StartInv<Part, BatchError>(|parts|, limit);
    NoneCounted(parts);
  }

  lemma NoneCounted(parts: seq<Part>)
    ensures CountedBytes(parts, seq(|parts|, _ => false)) == 0
  {
    if parts != [] {
      assert seq(|parts|, _ => false)[1..] == seq(|parts[1..]|, _ => false);
      NoneCounted(parts[1..]);
    }
  }

  lemma StepInv(parts: seq<Part>, b: Batch, s: Step, limit: int)
    requires Inv(parts, b, limit) && Enabled(b, s)
    ensures Inv(parts, Next(parts, b, s), limit)
  {
    if s.Arrive? {
      ArriveInv(parts, b, s, limit);
    } else {
      hide Pools.Inv, FramedPartByteLength, CountedBytes, TotalFramed;
      Pools.StepInv(b.pool, PoolEvent(parts, b, s), limit);
      InFlightApart(b, limit);
    }
  }

  lemma ArriveInv(parts: seq<Part>, b: Batch, s: Step, limit: int)
    requires Inv(parts, b, limit) && Enabled(b, s) && s.Arrive?
    ensures Inv(parts, Next(parts, b, s), limit)
  {
    hide Pools.Inv, FramedPartByteLength, CountedBytes, TotalFramed;
    Pools.StepInv(b.pool, PoolEvent(parts, b, s), limit);
    InFlightApart(b, limit);
    var i := b.pool.workers[s.w].index;
    CountOne(parts, b.counted, i);
    CountedBound(parts, b.counted[i := true]);
  }

  lemma InFlightApart(b: Batch, limit: int)
    requires Pools.Inv(b.pool, limit)
    ensures Pools.Apart(b.pool.workers)
    ensures forall w :: 0 <= w < |b.pool.workers| && b.pool.workers[w].InFlight? ==>
                          b.pool.workers[w].index < |b.pool.calls| <= b.pool.size == |b.pool.results|
    ensures !b.pool.aborted && b.pool.nextIndex < b.pool.size ==> |b.pool.calls| == b.pool.nextIndex
    ensures b.pool.aborted <==> b.pool.failure.Some?
  {
  }

  ghost predicate Schedule(parts: seq<Part>, b: Batch, steps: seq<Step>)
    decreases |steps|
  {
    steps == [] || (Enabled(b, steps[0]) && |parts| == |b.counted| && Schedule(parts, Next(parts, b, steps[0]), steps[1..]))
  }

  ghost function Run(parts: seq<Part>, b: Batch, steps: seq<Step>): Batch
    requires Schedule(parts, b, steps)
    decreases |steps|
  {
    if steps == [] then b else Run(parts, Next(parts, b, steps[0]), steps[1..])
  }

  lemma {:induction false} RunInv(parts: seq<Part>, b: Batch, steps: seq<Step>, limit: int)
    requires Inv(parts, b, limit) && Schedule(parts, b, steps)
    ensures Inv(parts, Run(parts, b, steps), limit)
    decreases |steps|
  {
    hide Inv, Enabled, Next;
    if steps != [] {
      StepInv(parts, b, steps[0], limit);
      RunInv(parts, Next(parts, b, steps[0]), steps[1..], limit);
    }
  }

  // ----- the observation -----

  datatype Observation = BudgetExceeded | Snapshot(text: Text)

  function Filled(slots: seq<Option<Part>>): (parts: seq<Part>)
    requires forall i :: 0 <= i < |slots| ==> slots[i].Some?
  {
    seq(|slots|, i requires 0 <= i < |slots| => slots[i].value)
  }

  /** What the observe call does with a settled batch: fail with its error, or
      render once and check the real artifact against the budget. */
  function Conclude(b: Batch): Observation
    requires b.pool.outcome.Resolved? ==> forall i :: 0 <= i < |b.pool.outcome.slots| ==> b.pool.outcome.slots[i].Some?
    requires !b.pool.outcome.Pending?
  {
    if b.pool.outcome.Rejected? then BudgetExceeded
    else
      var rendered := RenderCompositeSnapshot(Filled(b.pool.outcome.slots));
      if ByteLength(rendered) > MAX_COMPOSITE_BYTES then BudgetExceeded else Snapshot(rendered)
  }

  /** Whatever order the parts complete in, the observation is that of the final
      artifact: over budget exactly when its bytes exceed the limit. */
  lemma ObservationIgnoresCompletionOrder(parts: seq<Part>, limit: int, steps: seq<Step>)
    requires limit >= 1 && parts != []
    requires Schedule(parts, Start(parts, limit), steps)
    requires !Run(parts, Start(parts, limit), steps).pool.outcome.Pending?
    ensures var b := Run(parts, Start(parts, limit), steps);
            var rendered := RenderCompositeSnapshot(parts);
            && (b.pool.outcome.Resolved? ==> forall i :: 0 <= i < |b.pool.outcome.slots| ==> b.pool.outcome.slots[i].Some?)
            && Conclude(b) == if ByteLength(rendered) > 10485760 then BudgetExceeded else Snapshot(rendered)
  {
    hide ByteLength, RenderCompositeSnapshot, TotalFramed, CountedBytes, Enabled, Next;
    var b := Run(parts, Start(parts, limit), steps);
    StartInv(parts, limit);
    RunInv(parts, Start(parts, limit), steps, limit);
    RenderedBytes(parts);
    if b.pool.outcome.Resolved? {
      Pools.ResolvedHoldsAnswers(b.pool, limit);
      assert Filled(b.pool.outcome.slots) == parts;
    }
  }

  /** The observe call as it runs: the pool's callbacks add to one counter. */
  class CompositeRun {
    const parts: seq<Part>
    const pool: Pools.BatchRun<Part, BatchError>
    var totalBytes: nat
    ghost var counted: seq<bool>

    ghost function View(): Batch
      reads this, pool, pool.results
    {
      Batch(pool.View(), totalBytes, counted)
    }

    /** The counter is the framed bytes of the parts that arrived, within the
        budget unless the batch is doomed, and doomed only if the whole is over. */
    ghost predicate Valid()
      reads this, pool, pool.results
    {
      Inv(parts, View(), pool.limit)
    }

    constructor (parts: seq<Part>, limit: int)
      requires limit >= 1
      ensures Valid() && View() == Start(parts, limit) && this.parts == parts
    {
      this.parts := parts;
      var batch := new Pools.BatchRun<Part, BatchError>(|parts|, limit);
      pool, totalBytes, counted := batch, 0, seq(|parts|, _ => false);
      new;
      StartInv(parts, limit);
    }

    /** The part worker `w` fetched has arrived. */
    method OnPart(w: nat)
      requires Valid() && Enabled(View(), Arrive(w))
      modifies this, pool, pool.results
      ensures Valid() && View() == Next(parts, old(View()), Arrive(w))
    {
      hide FramedPartByteLength, Pools.Next, Pools.Inv, CountedBytes, TotalFramed;
      StepInv(parts, View(), Arrive(w), pool.limit);
      var part := parts[pool.workers[w].index];
      counted := counted[pool.workers[w].index := true];
      totalBytes := totalBytes + FramedPartByteLength(part);
      if totalBytes > MAX_COMPOSITE_BYTES {
        pool.OnFailure(w, OverBudget);
      } else {
        pool.OnAnswer(w, part);
      }
    }
  }
}
