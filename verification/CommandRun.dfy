/** One supervised child process: capped capture of both streams, and a promise
    settled by whichever of error, exit, close and three timers decides first. */
module CommandRun {
  import opened Options
  import opened Utf16
  import opened Utf8

  const STDOUT_CAP_BYTES := 1024 * 1024
  const STDERR_RETENTION_CAP_BYTES := 8000

  datatype Ended = Ended(code: Option<int>, signalled: bool)

  datatype Failure = SpawnError | TimedOut | Signalled

  datatype Outcome =
    | Failed(failure: Failure, stderr: seq<Byte>)
    | Result(stdout: seq<Byte>, exitCode: int, truncated: bool)

  datatype Event =
    | Stdout(chunk: seq<Byte>)
    | Stderr(chunk: seq<Byte>)
    | ChildError
    | Exit(ended: Ended)
    | Close(ended: Ended)
    | WallClock      // the wall-clock timer fires
    | CloseFallback  // the wait for the streams to close runs out
    | SigkillDue     // the grace after SIGTERM runs out

  /** `wallClock`, `sigkill` and `fallback` are the armed timers; `allOut`,
      `allErr`, `sigterms` and `sigkills` record what arrived and was sent. */
  datatype Run = Run(
    timedOut: bool, truncated: bool, stdout: seq<Byte>, stderr: seq<Byte>,
    wallClock: bool, sigkill: bool, fallback: Option<Ended>, exited: bool,
    outcome: Option<Outcome>,
    allOut: seq<Byte>, allErr: seq<Byte>, sigterms: nat, sigkills: nat)

  function Start(): Run {
    Run(false, false, [], [], true, false, None, false, None, [], [], 0, 0)
  }

  /** Timers fire only while armed; an exit is reported once. */
  predicate Enabled(r: Run, e: Event) {
    match e
    case WallClock => r.wallClock
    case CloseFallback => r.fallback.Some?
    case SigkillDue => r.sigkill
    case Exit(_) => !r.exited
    case _ => true
  }

  function KeepStdout(stdout: seq<Byte>, truncated: bool, chunk: seq<Byte>): (seq<Byte>, bool) {
    if |stdout| >= STDOUT_CAP_BYTES then (stdout, truncated || |chunk| > 0)
    else
      var remaining := STDOUT_CAP_BYTES - |stdout|;
      if |chunk| > remaining then (stdout + chunk[..remaining], true) else (stdout + chunk, truncated)
  }

  function KeepStderr(stderr: seq<Byte>, chunk: seq<Byte>): seq<Byte> {
    var combined := stderr + chunk;
    if |combined| > STDERR_RETENTION_CAP_BYTES
    then combined[|combined| - STDERR_RETENTION_CAP_BYTES..]
    else combined
  }

  /** Settles once, disarming the two timers that could still settle. */
  function Finish(r: Run, outcome: Outcome): Run {
    if r.outcome.Some? then r else r.(outcome := Some(outcome), wallClock := false, fallback := None)
  }

  function ResolveFromExit(r: Run, ended: Ended): Run {
    if r.timedOut then Finish(r, Failed(TimedOut, r.stderr))
    else if ended.signalled then Finish(r, Failed(Signalled, r.stderr))
    else Finish(r, Result(r.stdout, if ended.code.Some? then ended.code.value else 0, r.truncated))
  }

  function After(r: Run, e: Event): Run
    requires Enabled(r, e)
  {
    match e
    case Stdout(chunk) =>
      var (stdout, truncated) := KeepStdout(r.stdout, r.truncated, chunk);
      r.(stdout := stdout, truncated := truncated, allOut := r.allOut + chunk)
    case Stderr(chunk) => r.(stderr := KeepStderr(r.stderr, chunk), allErr := r.allErr + chunk)
    case ChildError => Finish(r, Failed(SpawnError, r.stderr))
    case Exit(ended) =>
      var q := r.(exited := true);
      if q.outcome.Some? then q
      else if q.timedOut then ResolveFromExit(q, ended)
      else q.(wallClock := false, fallback := Some(ended))
    case Close(ended) => if r.outcome.Some? then r else ResolveFromExit(r, ended)
    case WallClock => r.(wallClock := false, timedOut := true, sigkill := true, sigterms := r.sigterms + 1)
    case CloseFallback => ResolveFromExit(r.(fallback := None), r.fallback.value)
    case SigkillDue => r.(sigkill := false, sigkills := r.sigkills + 1)
  }

  // ----- what every order of events keeps -----

  ghost predicate Captured(r: Run) {
    && r.stdout == Head(r.allOut) && (r.truncated <==> |r.allOut| > STDOUT_CAP_BYTES)
    && r.stderr == Tail(r.allErr)
  }

  ghost function Head(all: seq<Byte>): seq<Byte> { all[..Min(|all|, STDOUT_CAP_BYTES)] }

  ghost function Tail(all: seq<Byte>): seq<Byte> { all[Max(0, |all| - STDERR_RETENTION_CAP_BYTES)..] }

  ghost predicate Timers(r: Run) {
    // a fired timeout has sent SIGTERM, and SIGKILL is armed until it too was sent
    && (r.timedOut <==> r.sigterms == 1) && r.sigterms <= 1 && r.sigkills <= 1
    && (r.timedOut ==> (r.sigkill <==> r.sigkills == 0)) && (!r.timedOut ==> !r.sigkill && r.sigkills == 0)
    && (r.timedOut ==> !r.wallClock)
    // an unsettled run is never left waiting on its streams alone
    && (r.outcome.None? ==> r.wallClock || r.fallback.Some? || (r.timedOut && !r.exited))
    && (r.outcome.Some? ==> !r.wallClock && r.fallback.None?)
    && (r.exited && r.outcome.None? ==> r.fallback.Some? && !r.wallClock && !r.timedOut)
    && (r.fallback.Some? ==> r.exited)
  }

  ghost predicate Truthful(r: Run) {
    match r.outcome
    case None => true
    case Some(Failed(failure, stderr)) => (failure.TimedOut? ==> r.timedOut) && |stderr| <= STDERR_RETENTION_CAP_BYTES
    case Some(Result(stdout, _, truncated)) =>
      stdout <= r.allOut && |stdout| <= STDOUT_CAP_BYTES && (truncated ==> |stdout| == STDOUT_CAP_BYTES)
  }

  ghost predicate Inv(r: Run) { Captured(r) && Timers(r) && Truthful(r) }

  lemma StartInv()
    ensures Inv(Start())
  {
  }

  lemma KeepStdoutIsHead(all: seq<Byte>, chunk: seq<Byte>)
    ensures KeepStdout(Head(all), |all| > STDOUT_CAP_BYTES, chunk) == (Head(all + chunk), |all + chunk| > STDOUT_CAP_BYTES)
  {
    if |all| >= STDOUT_CAP_BYTES {
      assert (all + chunk)[..STDOUT_CAP_BYTES] == all[..STDOUT_CAP_BYTES];
    } else {
      var remaining := STDOUT_CAP_BYTES - |all|;
      assert all[..|all|] == all && (all + chunk)[..|all + chunk|] == all + chunk;
      if |chunk| > remaining {
        assert (all + chunk)[..STDOUT_CAP_BYTES] == all + chunk[..remaining];
      }
    }
  }

  lemma KeepStderrIsTail(all: seq<Byte>, chunk: seq<Byte>)
    ensures KeepStderr(Tail(all), chunk) == Tail(all + chunk)
  {
    var dropped := Max(0, |all| - STDERR_RETENTION_CAP_BYTES);
    assert all[dropped..] + chunk == (all + chunk)[dropped..];
    var combined := Tail(all) + chunk;
    if |combined| > STDERR_RETENTION_CAP_BYTES {
      assert combined[|combined| - STDERR_RETENTION_CAP_BYTES..] ==
             (all + chunk)[|all + chunk| - STDERR_RETENTION_CAP_BYTES..];
    }
  }

  lemma StepInv(r: Run, e: Event)
    requires Inv(r) && Enabled(r, e)
    ensures Inv(After(r, e))
    ensures r.outcome.Some? ==> After(r, e).outcome == r.outcome
  {
    match e
    case Stdout(chunk) =>
      hide KeepStdout, Head;
      KeepStdoutIsHead(r.allOut, chunk);
    case Stderr(chunk) =>
      hide KeepStderr, Tail;
      KeepStderrIsTail(r.allErr, chunk);
    case _ =>
  }

  ghost predicate Possible(r: Run, events: seq<Event>)
    decreases |events|
  {
    events == [] || (Enabled(r, events[0]) && Possible(After(r, events[0]), events[1..]))
  }

  ghost function RunAll(r: Run, events: seq<Event>): Run
    requires Possible(r, events)
    decreases |events|
  {
    if events == [] then r else RunAll(After(r, events[0]), events[1..])
  }

  lemma {:induction false} RunInv(r: Run, events: seq<Event>)
    requires Inv(r) && Possible(r, events)
    ensures Inv(RunAll(r, events))
    ensures r.outcome.Some? ==> RunAll(r, events).outcome == r.outcome
    decreases |events|
  {
    hide Inv, After, Enabled;
    if events != [] {
      StepInv(r, events[0]);
      RunInv(After(r, events[0]), events[1..]);
    }
  }

  function WrittenBy(e: Event): seq<Byte> { match e case Stdout(chunk) => chunk case _ => [] }

  function ComplainedBy(e: Event): seq<Byte> { match e case Stderr(chunk) => chunk case _ => [] }

  /** All the child wrote to each stream. */
  ghost function Written(events: seq<Event>): seq<Byte> {
    if events == [] then [] else WrittenBy(events[0]) + Written(events[1..])
  }

  ghost function Complained(events: seq<Event>): seq<Byte> {
    if events == [] then [] else ComplainedBy(events[0]) + Complained(events[1..])
  }

  lemma RecordsOne(r: Run, e: Event)
    requires Enabled(r, e)
    ensures var q := After(r, e);
            && q.allOut == r.allOut + WrittenBy(e) && q.allErr == r.allErr + ComplainedBy(e)
            && (q.timedOut <==> r.timedOut || e.WallClock?)
  {
    hide KeepStdout, KeepStderr;
    assert r.allOut + [] == r.allOut && r.allErr + [] == r.allErr;
  }

  ghost predicate RanOut(events: seq<Event>) { exists i :: 0 <= i < |events| && events[i].WallClock? }

  lemma RanOutByHead(events: seq<Event>)
    requires events != []
    ensures RanOut(events) <==> events[0].WallClock? || RanOut(events[1..])
  {
    if i :| 0 <= i < |events[1..]| && events[1..][i].WallClock? { assert events[i + 1].WallClock?; }
    if i :| 0 < i < |events| && events[i].WallClock? { assert events[1..][i - 1].WallClock?; }
  }

  lemma {:induction false} RecordsAll(r: Run, events: seq<Event>)
    requires Possible(r, events)
    ensures var q := RunAll(r, events);
            && q.allOut == r.allOut + Written(events) && q.allErr == r.allErr + Complained(events)
            && (q.timedOut <==> r.timedOut || RanOut(events))
    decreases |events|
  {
    hide After, Enabled, WrittenBy, ComplainedBy;
    if events != [] {
      RecordsOne(r, events[0]);
      RecordsAll(After(r, events[0]), events[1..]);
      RanOutByHead(events);
    }
  }

  /** In every order of events: capture is exact, a settled outcome is final,
      and a timed-out run has SIGKILL armed until it was sent, settled or not. */
  lemma EveryOrder(events: seq<Event>, more: seq<Event>)
    requires Possible(Start(), events) && Possible(RunAll(Start(), events), more)
    ensures var r := RunAll(Start(), events);
            && r.stdout == Written(events)[..Min(|Written(events)|, 1048576)]
            && (r.truncated <==> |Written(events)| > 1048576)
            && r.stderr == Complained(events)[Max(0, |Complained(events)| - 8000)..]
            && (r.timedOut <==> exists i :: 0 <= i < |events| && events[i].WallClock?)
            && (r.timedOut ==> r.sigkill || r.sigkills == 1)
            && (r.outcome.Some? ==> RunAll(r, more).outcome == r.outcome)
            && (r.outcome.None? ==> r.wallClock || r.fallback.Some? || (r.timedOut && !r.exited))
  {
    StartInv();
    RunInv(Start(), events);
    RunInv(RunAll(Start(), events), more);
    RecordsAll(Start(), events);
    assert [] + Written(events) == Written(events) && [] + Complained(events) == Complained(events);
  }

  /** Every order is allowed for: output, errors and closes at any time, an exit unless
      there was one, and each timer exactly while armed. */
  lemma AnyOrderIsPossible(r: Run, ended: Ended, chunk: seq<Byte>)
    ensures Enabled(r, Event.Stdout(chunk)) && Enabled(r, Event.Stderr(chunk)) && Enabled(r, ChildError)
    ensures Enabled(r, Close(ended)) && (Enabled(r, Exit(ended)) <==> !r.exited)
    ensures Enabled(r, WallClock) <==> r.wallClock
    ensures Enabled(r, CloseFallback) <==> r.fallback.Some?
    ensures Enabled(r, SigkillDue) <==> r.sigkill
    ensures Enabled(r, Exit(ended)) ==> After(r, Exit(ended)).exited
  {
  }

  predicate Quiet(events: seq<Event>) { forall i :: 0 <= i < |events| ==> !events[i].WallClock? }

  /** Once the child exited in time the wall clock can no longer fire. */
  lemma {:induction false} ExitedInTime(r: Run, events: seq<Event>)
    requires Inv(r) && r.exited && !r.timedOut && Possible(r, events)
    ensures !RunAll(r, events).timedOut
    decreases |events|
  {
    hide Captured, Truthful, KeepStdout, KeepStderr;
    if events != [] {
      StepInv(r, events[0]);
      ExitedInTime(After(r, events[0]), events[1..]);
    }
  }

  lemma {:induction false} NoTimeoutYet(r: Run, events: seq<Event>)
    requires Inv(r) && !r.timedOut && Possible(r, events) && Quiet(events)
    ensures !RunAll(r, events).timedOut
    decreases |events|
  {
    hide Inv, KeepStdout, KeepStderr;
    if events != [] {
      assert !events[0].WallClock?;
      StepInv(r, events[0]);
      NoTimeoutYet(After(r, events[0]), events[1..]);
    }
  }

  /** An exit before the wall clock fired is never reported as a timeout. */
  lemma ExitBeforeTimeout(before: seq<Event>, ended: Ended, after: seq<Event>)
    requires Quiet(before) && Possible(Start(), before)
    requires var r := RunAll(Start(), before); Enabled(r, Exit(ended)) && Possible(After(r, Exit(ended)), after)
    ensures var r := RunAll(After(RunAll(Start(), before), Exit(ended)), after);
            !r.timedOut && (r.outcome.Some? && r.outcome.value.Failed? ==> !r.outcome.value.failure.TimedOut?)
  {
    hide Captured, Timers, KeepStdout, KeepStderr;
    StartInv();
    RunInv(Start(), before);
    NoTimeoutYet(Start(), before);
    var r := RunAll(Start(), before);
    StepInv(r, Exit(ended));
    var q := After(r, Exit(ended));
    ExitedInTime(q, after);
    RunInv(q, after);
  }

  /** The ending an event resolves from: a close, an elapsed close fallback, or
      the exit of a run already timed out. */
  function ResolvesFrom(r: Run, e: Event): Option<Ended> {
    match e
    case Close(ended) => Some(ended)
    case CloseFallback => r.fallback
    case Exit(ended) => if r.timedOut then Some(ended) else None
    case _ => None
  }

  /** What settles a run and as what: a result only for an ending that was not
      signalled of a run that had not timed out, with the child's own exit code
      and everything captured by then. */
  lemma SettlesTruthfully(r: Run, e: Event)
    requires Inv(r) && Enabled(r, e) && r.outcome.None?
    ensures var q, from := After(r, e), ResolvesFrom(r, e);
            var code := if from.Some? && from.value.code.Some? then from.value.code.value else 0;
            && (q.outcome.Some? <==> from.Some? || e.ChildError?)
            && (q.outcome.Some? && q.outcome.value.Result? <==> from.Some? && !from.value.signalled && !r.timedOut)
            && (q.outcome.Some? && q.outcome.value.Result? ==>
                  q.outcome.value == Result(Head(r.allOut), code, |r.allOut| > STDOUT_CAP_BYTES))
            && (q.outcome == Some(Failed(TimedOut, Tail(r.allErr))) <==> from.Some? && r.timedOut)
            && (q.outcome == Some(Failed(Signalled, Tail(r.allErr))) <==> from.Some? && !r.timedOut && from.value.signalled)
            && (q.outcome == Some(Failed(SpawnError, Tail(r.allErr))) <==> e.ChildError?)
  {
    hide Head, Tail, KeepStdout, KeepStderr;
  }

  // ----- the listeners as they run -----

  class Supervisor {
    var timedOut: bool
    var truncated: bool
    var stdout: seq<Byte>
    var stderr: seq<Byte>
    var wallClock: bool
    var sigkill: bool
    var fallback: Option<Ended>
    var outcome: Option<Outcome>
    ghost var exited: bool
    ghost var allOut: seq<Byte>
    ghost var allErr: seq<Byte>
    ghost var sigterms: nat
    ghost var sigkills: nat

    ghost function View(): Run
      reads this
    {
      Run(timedOut, truncated, stdout, stderr, wallClock, sigkill, fallback, exited, outcome,
          allOut, allErr, sigterms, sigkills)
    }

    /** Captured is the head and the tail of what arrived, SIGKILL is armed from
        the timeout until it was sent, and the outcome tells the truth. */
    ghost predicate Valid()
      reads this
    {
      Inv(View())
    }

    constructor ()
      ensures Valid() && View() == Start()
    {
      timedOut, truncated, stdout, stderr := false, false, [], [];
      wallClock, sigkill, fallback, outcome := true, false, None, None;
      exited, allOut, allErr, sigterms, sigkills := false, [], [], 0, 0;
    }

    method OnStdout(chunk: seq<Byte>)
      requires Valid()
      modifies this
      ensures Valid() && View() == After(old(View()), Event.Stdout(chunk))
    {
      StepInv(View(), Event.Stdout(chunk));
      allOut := allOut + chunk;
      if |stdout| >= STDOUT_CAP_BYTES {
        if |chunk| > 0 {
          truncated := true;
        }
        return;
      }
      var remaining := STDOUT_CAP_BYTES - |stdout|;
      if |chunk| > remaining {
        stdout := stdout + chunk[..remaining];
        truncated := true;
      } else {
        stdout := stdout + chunk;
      }
    }

    method OnStderr(chunk: seq<Byte>)
      requires Valid()
      modifies this
      ensures Valid() && View() == After(old(View()), Event.Stderr(chunk))
    {
      StepInv(View(), Event.Stderr(chunk));
      allErr := allErr + chunk;
      var combined := stderr + chunk;
      if |combined| > STDERR_RETENTION_CAP_BYTES {
        stderr := combined[|combined| - STDERR_RETENTION_CAP_BYTES..];
      } else {
        stderr := combined;
      }
    }

    method Settle(result: Outcome)
      modifies this
      ensures View() == Finish(old(View()), result)
    {
      if outcome.None? {
        outcome := Some(result);
        wallClock := false;
        fallback := None;
      }
    }

    method SettleFromExit(ended: Ended)
      modifies this
      ensures View() == ResolveFromExit(old(View()), ended)
    {
      if timedOut {
        Settle(Failed(TimedOut, stderr));
        return;
      }
      if ended.signalled {
        Settle(Failed(Signalled, stderr));
        return;
      }
      Settle(Result(stdout, if ended.code.Some? then ended.code.value else 0, truncated));
    }

    method OnError()
      requires Valid()
      modifies this
      ensures Valid() && View() == After(old(View()), ChildError)
    {
      StepInv(View(), ChildError);
      Settle(Failed(SpawnError, stderr));
    }

    method OnExit(ended: Ended)
      requires Valid() && Enabled(View(), Exit(ended))
      modifies this
      ensures Valid() && View() == After(old(View()), Exit(ended))
    {
      StepInv(View(), Exit(ended));
      exited := true;
      if outcome.Some? {
        return;
      }
      if timedOut {
        SettleFromExit(ended);
        return;
      }
      wallClock := false;
      fallback := Some(ended);
    }

    method OnClose(ended: Ended)
      requires Valid()
      modifies this
      ensures Valid() && View() == After(old(View()), Close(ended))
    {
      StepInv(View(), Close(ended));
      if outcome.Some? {
        return;
      }
      SettleFromExit(ended);
    }

    method OnWallClock()
      requires Valid() && Enabled(View(), WallClock)
      modifies this
      ensures Valid() && View() == After(old(View()), WallClock)
    {
      StepInv(View(), WallClock);
      wallClock := false;
      timedOut := true;
      sigterms := sigterms + 1;
      sigkill := true;
    }

    method OnCloseFallback()
      requires Valid() && Enabled(View(), CloseFallback)
      modifies this
      ensures Valid() && View() == After(old(View()), CloseFallback)
    {
      StepInv(View(), CloseFallback);
      var ended := fallback.value;
      fallback := None;
      SettleFromExit(ended);
    }

    method OnSigkillDue()
      requires Valid() && Enabled(View(), SigkillDue)
      modifies this
      ensures Valid() && View() == After(old(View()), SigkillDue)
    {
      StepInv(View(), SigkillDue);
      sigkill := false;
      sigkills := sigkills + 1;
    }
  }
}
