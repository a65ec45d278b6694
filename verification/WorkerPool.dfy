/** The bounded, fail-fast worker pool, as a step system over every schedule of
    its workers and of the calls they await. */
module WorkerPool {
  import opened Options

  datatype Worker = AtLoopTop | InFlight(index: nat) | Returned

  datatype Outcome<+R, +E> = Pending | Resolved(slots: seq<Option<R>>) | Rejected(error: E)

  /** `calls`, `answers` and `failed` record the history: the items `fn` was
      called on, in order, and what became of each call. */
  datatype Pool<R, E> = Pool(
    size: nat,
    workers: seq<Worker>,
    nextIndex: nat,
    aborted: bool,
    results: seq<Option<R>>,
    failure: Option<E>,
    outcome: Outcome<R, E>,
    calls: seq<nat>,
    answers: map<nat, R>,
    failed: set<nat>)

  datatype Event<R, E> =
    | Turn(w: nat)              // worker w runs from its loop top to its next await
    | Answer(w: nat, value: R)  // the call worker w awaits resolves
    | Fail(w: nat, error: E)    // the call worker w awaits rejects
    | Settle                    // the race between the pool and the failure resolves

  /** The smaller of the two. */
  function WorkerCount(size: nat, limit: int): (n: nat)
    requires limit >= 1
    ensures n <= limit && n <= size && (n == limit || n == size)
  {
    if limit < size then limit else size
  }

  function Start<R, E>(size: nat, limit: int): Pool<R, E>
    requires limit >= 1
  {
    Pool(size, seq(WorkerCount(size, limit), _ => AtLoopTop), 0, false,
         seq(size, _ => None), None, Pending, [], map[], {})
  }

  predicate Enabled<R, E>(p: Pool<R, E>, e: Event<R, E>) {
    match e
    case Turn(w) => w < |p.workers| && p.workers[w] == AtLoopTop
    case Answer(w, _) => w < |p.workers| && p.workers[w].InFlight? && p.workers[w].index < |p.results|
    case Fail(w, _) => w < |p.workers| && p.workers[w].InFlight?
    case Settle => p.outcome.Pending? && (p.failure.Some? || AllReturned(p))
  }

  predicate AllReturned<R, E>(p: Pool<R, E>) {
    forall w :: 0 <= w < |p.workers| ==> p.workers[w] == Returned
  }

  function Next<R, E>(p: Pool<R, E>, e: Event<R, E>): Pool<R, E>
    requires Enabled(p, e)
  {
    match e
    case Turn(w) =>
      if p.aborted then p.(workers := p.workers[w := Returned])
      else
        var index := p.nextIndex;
        var q := p.(nextIndex := index + 1);
        if index >= p.size then q.(workers := p.workers[w := Returned])
        else q.(workers := p.workers[w := InFlight(index)], calls := p.calls + [index])
    case Answer(w, value) =>
      var index := p.workers[w].index;
      p.(workers := p.workers[w := AtLoopTop],
         results := p.results[index := Some(value)],
         answers := p.answers[index := value])
    case Fail(w, error) =>
      p.(workers := p.workers[w := Returned],
         aborted := true,
         failure := if p.failure.Some? then p.failure else Some(error),
         failed := p.failed + {p.workers[w].index})
    case Settle =>
      p.(outcome := if p.failure.Some? then Rejected(p.failure.value) else Resolved(p.results))
  }

  // ----- what every schedule keeps -----

  ghost predicate Outstanding<R, E>(p: Pool<R, E>, i: nat) {
    i < |p.calls| && i !in p.answers && i !in p.failed
  }

  /** No two workers await the same call. */
  predicate Apart(workers: seq<Worker>) {
    forall u, v :: 0 <= u < v < |workers| && workers[u].InFlight? ==> workers[u] != workers[v]
  }

  ghost predicate Awaited<R, E>(p: Pool<R, E>, i: nat) {
    exists w :: 0 <= w < |p.workers| && p.workers[w] == InFlight(i)
  }

  ghost predicate Inv<R, E>(p: Pool<R, E>, limit: int) {
    && limit >= 1
    && |p.workers| == WorkerCount(p.size, limit)
    && |p.results| == p.size
    // calls start at most once each, and in order
    && |p.calls| == (if p.nextIndex < p.size then p.nextIndex else p.size)
    && (forall i :: 0 <= i < |p.calls| ==> p.calls[i] == i)
    // each outstanding call has exactly one worker awaiting it
    && Apart(p.workers)
    && (forall w :: 0 <= w < |p.workers| && p.workers[w].InFlight? ==> Outstanding(p, p.workers[w].index))
    && (forall i :: 0 <= i < |p.calls| && Outstanding(p, i) ==> Awaited(p, i))
    // slots hold the answers
    && (forall i :: 0 <= i < p.size ==> p.results[i] == (if i in p.answers then Some(p.answers[i]) else None))
    && (forall i :: i in p.answers || i in p.failed ==> i < |p.calls|)
    && p.answers.Keys !! p.failed
    // abort, failure record and failed calls go together
    && (p.aborted <==> p.failure.Some?) && (p.aborted <==> p.failed != {})
    && (!p.aborted ==> forall w :: 0 <= w < |p.workers| && p.workers[w] == Returned ==> p.nextIndex >= p.size)
    // the outcome
    && (p.outcome.Rejected? ==> p.failure == Some(p.outcome.error))
    && (p.outcome.Resolved? ==> !p.aborted && AllReturned(p) && p.outcome.slots == p.results)
  }

  lemma StartInv<R, E>(size: nat, limit: int)
    requires limit >= 1
    ensures Inv<R, E>(Start(size, limit), limit)
  {
  }

  lemma StepInv<R, E>(p: Pool<R, E>, e: Event<R, E>, limit: int)
    requires Inv(p, limit) && Enabled(p, e)
    ensures Inv(Next(p, e), limit)
  {
    match e
    case Turn(w) => TurnInv(p, w, limit);
    case Answer(w, value) => AnswerInv(p, w, value, limit);
    case Fail(w, error) => FailInv(p, w, error, limit);
    case Settle => SettleInv(p, limit);
  }

  lemma SettleInv<R, E>(p: Pool<R, E>, limit: int)
    requires Inv(p, limit) && Enabled(p, Settle)
    ensures Inv(Next(p, Settle), limit)
  {
    var q := Next(p, Event<R, E>.Settle);
    forall i | 0 <= i < |q.calls| && Outstanding(q, i) ensures Awaited(q, i) {
      assert Outstanding(p, i);
      var w :| 0 <= w < |p.workers| && p.workers[w] == InFlight(i);
      assert q.workers[w] == InFlight(i);
    }
  }

  lemma TurnInv<R, E>(p: Pool<R, E>, w: nat, limit: int)
    requires Inv(p, limit) && Enabled(p, Turn(w))
    ensures Inv(Next(p, Turn(w)), limit)
  {
    var q := Next(p, Event<R, E>.Turn(w));
    forall v | 0 <= v < |q.workers| && q.workers[v].InFlight?
      ensures Outstanding(q, q.workers[v].index)
    {
      assert v != w ==> q.workers[v] == p.workers[v];
    }
    forall i | 0 <= i < |q.calls| && Outstanding(q, i) ensures Awaited(q, i) {
      if i < |p.calls| {
        assert Outstanding(p, i);
        var v :| 0 <= v < |p.workers| && p.workers[v] == InFlight(i);
        assert q.workers[v] == InFlight(i);
      } else {
        assert q.workers[w] == InFlight(i);
      }
    }
  }

  lemma AnswerInv<R, E>(p: Pool<R, E>, w: nat, value: R, limit: int)
    requires Inv(p, limit) && Enabled(p, Answer(w, value))
    ensures Inv(Next(p, Answer(w, value)), limit)
  {
    var q := Next(p, Event<R, E>.Answer(w, value));
    forall v | 0 <= v < |q.workers| && q.workers[v].InFlight?
      ensures Outstanding(q, q.workers[v].index)
    {
      assert v != w ==> q.workers[v] == p.workers[v] && (p.workers[w].InFlight? ==> p.workers[v] != p.workers[w]);
    }
    forall i | 0 <= i < |q.calls| && Outstanding(q, i) ensures Awaited(q, i) {
      assert Outstanding(p, i);
      var v :| 0 <= v < |p.workers| && p.workers[v] == InFlight(i);
      assert q.workers[v] == InFlight(i);
    }
  }

  lemma FailInv<R, E>(p: Pool<R, E>, w: nat, error: E, limit: int)
    requires Inv(p, limit) && Enabled(p, Fail(w, error))
    ensures Inv(Next(p, Fail(w, error)), limit)
  {
    var q := Next(p, Event<R, E>.Fail(w, error));
    assert p.workers[w].index in q.failed;
    forall v | 0 <= v < |q.workers| && q.workers[v].InFlight?
      ensures Outstanding(q, q.workers[v].index)
    {
      assert v != w ==> q.workers[v] == p.workers[v] && (p.workers[w].InFlight? ==> p.workers[v] != p.workers[w]);
    }
    forall i | 0 <= i < |q.calls| && Outstanding(q, i) ensures Awaited(q, i) {
      assert Outstanding(p, i);
      var v :| 0 <= v < |p.workers| && p.workers[v] == InFlight(i);
      assert q.workers[v] == InFlight(i);
    }
  }

  /** Any schedule is possible: a worker at its loop top may run, an awaited call may
      resolve or reject, and the race is over, once, as soon as a call has failed or
      every worker has returned. */
  lemma AnyStepIsPossible<R, E>(p: Pool<R, E>, w: nat, value: R, error: E, limit: int)
    requires Inv(p, limit) && w < |p.workers|
    ensures Enabled(p, Turn(w)) <==> p.workers[w] == AtLoopTop
    ensures Enabled(p, Answer(w, value)) <==> p.workers[w].InFlight?
    ensures Enabled(p, Fail(w, error)) <==> p.workers[w].InFlight?
    ensures Enabled(p, Settle) <==>
            p.outcome.Pending? && (p.failed != {} || forall v :: 0 <= v < |p.workers| ==> p.workers[v] == Returned)
  {
    assert p.workers[w].InFlight? ==> Outstanding(p, p.workers[w].index);
  }

  /** What a step adds to the history: a turn at most the next call, an answer its value
      under the call its worker awaited, a failure that call, the settling nothing. */
  lemma HistoryMeans<R, E>(p: Pool<R, E>, e: Event<R, E>, limit: int)
    requires Inv(p, limit) && Enabled(p, e)
    ensures var q := Next(p, e);
            && p.calls <= q.calls <= p.calls + [|p.calls|] && (!e.Turn? ==> q.calls == p.calls)
            && q.answers == (if e.Answer? then p.answers[p.workers[e.w].index := e.value] else p.answers)
            && q.failed == (if e.Fail? then p.failed + {p.workers[e.w].index} else p.failed)
            && (q.failure == if e.Fail? && p.failed == {} then Some(e.error) else p.failure)
            && q.size == p.size
  {
  }

  // ----- schedules -----

  ghost predicate Schedule<R, E>(p: Pool<R, E>, events: seq<Event<R, E>>)
    decreases |events|
  {
    events == [] || (Enabled(p, events[0]) && Schedule(Next(p, events[0]), events[1..]))
  }

  ghost function Run<R, E>(p: Pool<R, E>, events: seq<Event<R, E>>): Pool<R, E>
    requires Schedule(p, events)
    decreases |events|
  {
    if events == [] then p else Run(Next(p, events[0]), events[1..])
  }

  lemma {:induction false} RunInv<R, E>(p: Pool<R, E>, events: seq<Event<R, E>>, limit: int)
    requires Inv(p, limit) && Schedule(p, events)
    ensures Inv(Run(p, events), limit)
    decreases |events|
  {
    hide Inv, Next, Enabled;
    if events != [] {
      StepInv(p, events[0], limit);
      RunInv(Next(p, events[0]), events[1..], limit);
    }
  }

  ghost function OutstandingCalls<R, E>(p: Pool<R, E>): set<nat> {
    set i | 0 <= i < |p.calls| && Outstanding(p, i)
  }

  /** In every schedule: calls start once each and in input order; at most
      `min(limit, size)` are outstanding; a rejection carries the first caught
      error; a resolution holds the answer of call `i` in every slot `i`. */
  lemma EverySchedule<R, E>(size: nat, limit: int, events: seq<Event<R, E>>)
    requires limit >= 1 && Schedule(Start(size, limit), events)
    ensures var p := Run(Start(size, limit), events);
            && |p.calls| <= size && (forall i :: 0 <= i < |p.calls| ==> p.calls[i] == i)
            && |OutstandingCalls(p)| <= limit && |OutstandingCalls(p)| <= size
            && (p.outcome.Rejected? ==> p.failed != {} && p.failure == Some(p.outcome.error))
            && (p.outcome.Resolved? ==>
                  && |p.calls| == |p.outcome.slots| == size && p.failed == {}
                  && forall i :: 0 <= i < size ==> i in p.answers && p.outcome.slots[i] == Some(p.answers[i]))
  {
    var s := Start<R, E>(size, limit);
    var p := Run(s, events);
    StartInv<R, E>(size, limit);
    RunInv(s, events, limit);
    SizeKept(s, events);
    OutstandingBounded(p, limit);
    if p.outcome.Resolved? { ResolvedHoldsAnswers(p, limit); }
  }

  /** And no fewer: while items are left to start and nothing failed, once every
      worker has run to its next await the outstanding calls are the smaller of
      `limit` and `size`. */
  lemma PoolIsFull<R, E>(size: nat, limit: int, events: seq<Event<R, E>>)
    requires limit >= 1 && Schedule(Start(size, limit), events)
    requires var p := Run(Start(size, limit), events);
             !p.aborted && |p.calls| < size && forall w :: 0 <= w < |p.workers| ==> p.workers[w] != AtLoopTop
    ensures var p := Run(Start(size, limit), events);
            |OutstandingCalls(p)| == if limit < size then limit else size
  {
    var s := Start<R, E>(size, limit);
    var p := Run(s, events);
    StartInv<R, E>(size, limit);
    RunInv(s, events, limit);
    SizeKept(s, events);
    OutstandingBounded(p, limit);
    forall w | 0 <= w < |p.workers| ensures p.workers[w].InFlight? {}
    AwaitedByAll(p.workers);
    forall i | i in AwaitedBy(p.workers) ensures i in OutstandingCalls(p) {
      var w := AwaitedByOnly(p.workers, i);
      assert Outstanding(p, i);
    }
    Subset(AwaitedBy(p.workers), OutstandingCalls(p));
  }

  lemma {:induction false} AwaitedByAll(workers: seq<Worker>)
    requires Apart(workers) && forall w :: 0 <= w < |workers| ==> workers[w].InFlight?
    ensures |AwaitedBy(workers)| == |workers|
  {
    if workers != [] {
      AwaitedByAll(workers[1..]);
      NotAwaited(workers[1..], workers[0].index);
    }
  }

  lemma {:induction false} NotAwaited(workers: seq<Worker>, i: nat)
    requires forall w :: 0 <= w < |workers| ==> workers[w] != InFlight(i)
    ensures i !in AwaitedBy(workers)
  {
    if workers != [] { NotAwaited(workers[1..], i); }
  }

  lemma {:induction false} AwaitedByOnly(workers: seq<Worker>, i: nat) returns (w: nat)
    requires i in AwaitedBy(workers)
    ensures w < |workers| && workers[w] == InFlight(i)
  {
    if workers[0] == InFlight(i) {
      w := 0;
    } else {
      w := AwaitedByOnly(workers[1..], i);
      w := w + 1;
    }
  }

  lemma {:induction false} SizeKept<R, E>(p: Pool<R, E>, events: seq<Event<R, E>>)
    requires Schedule(p, events)
    ensures Run(p, events).size == p.size
    decreases |events|
  {
    if events != [] { SizeKept(Next(p, events[0]), events[1..]); }
  }

  lemma ResolvedHoldsAnswers<R, E>(p: Pool<R, E>, limit: int)
    requires Inv(p, limit) && !p.aborted && AllReturned(p)
    ensures |p.calls| == p.size && p.failed == {}
    ensures forall i :: 0 <= i < p.size ==> i in p.answers && p.results[i] == Some(p.answers[i])
  {
    if p.size > 0 { assert p.workers[0] == Returned; }
    forall i | 0 <= i < p.size ensures i in p.answers {
      assert !Awaited(p, i);
    }
  }

  lemma OutstandingBounded<R, E>(p: Pool<R, E>, limit: int)
    requires Inv(p, limit)
    ensures |OutstandingCalls(p)| <= |p.workers|
  {
    forall i | i in OutstandingCalls(p) ensures i in AwaitedBy(p.workers) {
      var w :| 0 <= w < |p.workers| && p.workers[w] == InFlight(i);
      AwaitedByHas(p.workers, w);
    }
    AwaitedBounded(p.workers);
    Subset(OutstandingCalls(p), AwaitedBy(p.workers));
  }

  lemma AwaitedByHas(workers: seq<Worker>, w: nat)
    requires w < |workers| && workers[w].InFlight?
    ensures workers[w].index in AwaitedBy(workers)
  {
    if w > 0 { AwaitedByHas(workers[1..], w - 1); }
  }

  ghost function AwaitedBy(workers: seq<Worker>): set<nat> {
    if workers == [] then {}
    else AwaitedBy(workers[1..]) + (if workers[0].InFlight? then {workers[0].index} else {})
  }

  lemma AwaitedBounded(workers: seq<Worker>)
    ensures |AwaitedBy(workers)| <= |workers|
  {
    if workers != [] { AwaitedBounded(workers[1..]); }
  }

  lemma Subset(a: set<nat>, b: set<nat>)
    requires a <= b
    ensures |a| <= |b|
  {
    if a != {} {
      var x :| x in a;
      Subset(a - {x}, b - {x});
    }
  }

  // ----- fail fast -----

  predicate NoFailure<R, E>(events: seq<Event<R, E>>) {
    forall i :: 0 <= i < |events| ==> !events[i].Fail?
  }

  lemma {:induction false} ScheduleSplits<R, E>(p: Pool<R, E>, a: seq<Event<R, E>>, b: seq<Event<R, E>>)
    requires Schedule(p, a + b)
    ensures Schedule(p, a) && Schedule(Run(p, a), b) && Run(Run(p, a), b) == Run(p, a + b)
    decreases |a|
  {
    hide Enabled, Next;
    if a == [] {
      assert a + b == b;
    } else {
      assert (a + b)[0] == a[0] && (a + b)[1..] == a[1..] + b;
      ScheduleSplits(Next(p, a[0]), a[1..], b);
    }
  }

  lemma {:induction false} AfterAbort<R, E>(p: Pool<R, E>, events: seq<Event<R, E>>)
    requires p.aborted && p.failure.Some? && Schedule(p, events)
    requires !p.outcome.Resolved?
    ensures var q := Run(p, events);
            q.calls == p.calls && q.failure == p.failure && !q.outcome.Resolved?
    decreases |events|
  {
    if events != [] { AfterAbort(Next(p, events[0]), events[1..]); }
  }

  lemma {:induction false} BeforeAnyFailure<R, E>(p: Pool<R, E>, events: seq<Event<R, E>>)
    requires !p.aborted && p.failure.None? && Schedule(p, events) && NoFailure(events)
    ensures !Run(p, events).aborted && Run(p, events).failure.None?
    decreases |events|
  {
    if events != [] {
      assert !events[0].Fail?;
      BeforeAnyFailure(Next(p, events[0]), events[1..]);
    }
  }

  /** The first call to fail dooms the batch: its error is the one surfaced,
      and no call starts afterwards, whatever the siblings still do. */
  lemma FirstFailureWins<R, E>(size: nat, limit: int, before: seq<Event<R, E>>, w: nat, error: E,
                               after: seq<Event<R, E>>)
    requires limit >= 1 && NoFailure(before)
    requires Schedule(Start(size, limit), before + ([Fail(w, error)] + after))
    ensures var s := Start<R, E>(size, limit);
            var q := Run(s, before + ([Fail(w, error)] + after));
            && q.failure == Some(error)
            && (q.outcome == Pending || q.outcome == Rejected(error))
            && Schedule(s, before) && q.calls == Run(s, before).calls
  {
    var s := Start<R, E>(size, limit);
    var tail := [Event<R, E>.Fail(w, error)] + after;
    ScheduleSplits(s, before, tail);
    BeforeAnyFailure(s, before);
    StartInv<R, E>(size, limit);
    RunInv(s, before, limit);
    var p := Run(s, before);
    assert tail[0] == Fail(w, error) && tail[1..] == after;
    assert p.workers[w].InFlight? && !AllReturned(p);
    var q := Next(p, tail[0]);
    AfterAbort(q, after);
    RunInv(s, before + tail, limit);
  }

  // ----- progress -----

  function Weight(workers: seq<Worker>): nat {
    if workers == [] then 0
    else Weight(workers[1..]) +
         (match workers[0] case AtLoopTop => 1 case InFlight(_) => 2 case Returned => 0)
  }

  /** What is left to do, an upper bound on the steps any schedule still has. */
  function Work<R, E>(p: Pool<R, E>): int {
    3 * (p.size - |p.calls|) + Weight(p.workers) + (if p.outcome.Pending? then 1 else 0)
  }

  lemma {:induction false} WeightUpdate(workers: seq<Worker>, w: nat, state: Worker)
    requires w < |workers|
    ensures Weight(workers[w := state]) ==
            Weight(workers) - Weight([workers[w]]) + Weight([state])
  {
    if w > 0 {
      assert workers[w := state][1..] == workers[1..][w - 1 := state];
      WeightUpdate(workers[1..], w - 1, state);
    }
  }

  lemma StepUsesWork<R, E>(p: Pool<R, E>, e: Event<R, E>, limit: int)
    requires Inv(p, limit) && Enabled(p, e)
    ensures Work(Next(p, e)) < Work(p)
  {
    if !e.Settle? { WeightUpdate(p.workers, e.w, Next(p, e).workers[e.w]); }
  }

  /** Every schedule is finite, within a bound fixed by the input. */
  lemma {:induction false} SchedulesEnd<R, E>(p: Pool<R, E>, events: seq<Event<R, E>>, limit: int)
    requires Inv(p, limit) && Schedule(p, events)
    ensures |events| <= Work(p)
    decreases |events|
  {
    hide Inv, Next, Enabled, Work;
    if events != [] {
      StepInv(p, events[0], limit);
      StepUsesWork(p, events[0], limit);
      SchedulesEnd(Next(p, events[0]), events[1..], limit);
    } else {
      WorkNonNegative(p, limit);
    }
  }

  lemma WorkNonNegative<R, E>(p: Pool<R, E>, limit: int)
    requires Inv(p, limit)
    ensures 0 <= Work(p)
  {
  }

  /** An unsettled pool can take a step of its own or waits for a call to end:
      it is never stuck. */
  lemma NeverStuck<R, E>(p: Pool<R, E>, limit: int)
    requires Inv(p, limit) && p.outcome.Pending?
    ensures Enabled(p, Settle) || exists w: nat :: w < |p.workers| && (Enabled(p, Turn(w)) || p.workers[w].InFlight?)
  {
    if !AllReturned(p) {
      var w :| 0 <= w < |p.workers| && p.workers[w] != Returned;
      assert Enabled(p, Turn(w)) || p.workers[w].InFlight?;
    }
  }

  // ----- the pool as the program runs it -----

  class BatchRun<R, E> {
    const size: nat
    const limit: int
    var workers: seq<Worker>
    var nextIndex: nat
    var aborted: bool
    const results: array<Option<R>>
    var failure: Option<E>
    var outcome: Outcome<R, E>
    ghost var calls: seq<nat>
    ghost var answers: map<nat, R>
    ghost var failed: set<nat>

    ghost function View(): Pool<R, E>
      reads this, results
    {
      Pool(size, workers, nextIndex, aborted, results[..], failure, outcome, calls, answers, failed)
    }

    /** Calls started once each and in order, no more outstanding than workers,
        the first failure kept, and every slot its own call's answer. */
    ghost predicate Valid()
      reads this, results
    {
      Inv(View(), limit)
    }

    constructor (size: nat, limit: int)
      requires limit >= 1
      ensures Valid() && View() == Start(size, limit) && fresh(results) && this.limit == limit
    {
      this.size, this.limit := size, limit;
      results := new Option<R>[size](_ => None);
      workers := seq(WorkerCount(size, limit), _ => AtLoopTop);
      nextIndex, aborted, failure, outcome := 0, false, None, Pending;
      calls, answers, failed := [], map[], {};
      new;
      assert results[..] == seq(size, _ => None);
      StartInv<R, E>(size, limit);
    }

    /** The synchronous stretch of worker `w` from its loop top: the item it
        calls `fn` on, if any. */
    method RunWorker(w: nat) returns (started: Option<nat>)
      requires Valid() && Enabled(View(), Turn(w))
      modifies this
      ensures Valid() && View() == Next(old(View()), Turn(w))
      ensures started == if workers[w].InFlight? then Some(workers[w].index) else None
    {
      StepInv(View(), Event<R, E>.Turn(w), limit);
      if aborted {
        workers := workers[w := Returned];
        return None;
      }
      var index := nextIndex;
      nextIndex := nextIndex + 1;
      if index >= size {
        workers := workers[w := Returned];
        return None;
      }
      workers := workers[w := InFlight(index)];
      calls := calls + [index];
      return Some(index);
    }

    method OnAnswer(w: nat, value: R)
      requires Valid() && Enabled(View(), Answer(w, value))
      modifies this, results
      ensures Valid() && View() == Next(old(View()), Answer(w, value))
    {
      StepInv(View(), Answer(w, value), limit);
      var index := workers[w].index;
      results[index] := Some(value);
      workers := workers[w := AtLoopTop];
      answers := answers[index := value];
    }

    method OnFailure(w: nat, error: E)
      requires Valid() && Enabled(View(), Fail(w, error))
      modifies this
      ensures Valid() && View() == Next(old(View()), Fail(w, error))
    {
      StepInv(View(), Fail(w, error), limit);
      failed := failed + {workers[w].index};
      aborted := true;
      if failure.None? {
        failure := Some(error);
      }
      workers := workers[w := Returned];
    }

    method SettleRace()
      requires Valid() && Enabled(View(), Settle)
      modifies this
      ensures Valid() && View() == Next(old(View()), Settle)
    {
      StepInv(View(), Event<R, E>.Settle, limit);
      if failure.Some? {
        outcome := Rejected(failure.value);
      } else {
        outcome := Resolved(results[..]);
      }
    }
  }

  /** A JavaScript number; infinities and NaN are not finite. */
  datatype Number = Finite(value: real) | NotFinite

  predicate PositiveInteger(limit: Number) {
    limit.Finite? && limit.value == limit.value.Floor as real && limit.value >= 1.0
  }

  /** A limit that is not a positive integer is refused before anything starts. */
  method OpenBatch<R, E>(size: nat, limit: Number) returns (batch: Option<BatchRun<R, E>>)
    ensures batch.Some? <==> limit.Finite? && limit.value >= 1.0 && limit.value == limit.value.Floor as real
    ensures batch.Some? ==>
              fresh(batch.value) && batch.value.Valid() && batch.value.View() == Start(size, limit.value.Floor)
  {
    if !PositiveInteger(limit) {
      return None;
    }
    var run := new BatchRun<R, E>(size, limit.value.Floor);
    return Some(run);
  }
}
