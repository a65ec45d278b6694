/** Idle reaping of the daemon: a lease-driven decision, the loop that applies
    it, and both directions of its timing. */
module Reaping {
  import opened Utf16
  import opened Options
  import opened Heartbeats

  const BOOT_GRACE_MS := 10000

  datatype Config = Config(resolve: Resolver, workspace: Text, socket: Text, reapAfterMs: int)

  /** One pass of the loop. `records` is absent when the registry could not be
      read; `Errored` is a check that threw before deciding. */
  datatype Check =
    | Checked(now: int, openCount: nat, anySession: bool, records: Option<seq<Heartbeat>>)
    | Errored

  datatype State = State(idleSince: Option<int>, hasSeenSession: bool, stopping: bool)

  datatype Decision = Decision(reap: bool, idleSince: Option<int>, hasSeenSession: bool)

  function RequiredIdle(reapAfterMs: int, hasSeenSession: bool): int {
    if hasSeenSession then reapAfterMs else Max(reapAfterMs, BOOT_GRACE_MS)
  }

  function ShouldReap(openCount: nat, channelAttached: bool, hasSeenSession: bool, idleSince: Option<int>,
                      now: int, reapAfterMs: int): Decision {
    if reapAfterMs <= 0 then Decision(false, None, hasSeenSession)
    else if openCount > 0 then Decision(false, None, true)
    else if channelAttached then Decision(false, None, hasSeenSession)
    else
      var since := if idleSince.Some? then idleSince.value else now;
      Decision(now - since >= RequiredIdle(reapAfterMs, hasSeenSession), Some(since), hasSeenSession)
  }

  /** A channel lease of this very daemon, current at `now`. */
  predicate LiveLease(config: Config, h: Heartbeat, now: int) {
    h.kind.Channel? && MatchesBinding(config.resolve, h, config.workspace, config.socket) && !IsStale(h, now)
  }

  /** The registry is scanned only when it can matter; a failed read counts as
      an attached channel for this pass. */
  predicate ChannelAttached(config: Config, check: Check)
    requires check.Checked?
  {
    config.reapAfterMs > 0 && check.openCount == 0
    && (check.records.None?
        || exists i :: 0 <= i < |check.records.value| && LiveLease(config, check.records.value[i], check.now))
  }

  function Step(config: Config, s: State, check: Check): State {
    match check
    case Errored => s
    case Checked(now, openCount, anySession, _) =>
      var decision := ShouldReap(openCount, ChannelAttached(config, check), s.hasSeenSession || anySession,
                                 s.idleSince, now, config.reapAfterMs);
      State(decision.idleSince, decision.hasSeenSession, s.stopping || decision.reap)
  }

  /** Some session of this daemon's workspace was registered at that check. */
  predicate SawSession(check: Check) { check.Checked? && (check.openCount > 0 || check.anySession) }

  /** The check saw no open session, read the registry, and found no live lease. */
  ghost predicate Quiet(config: Config, check: Check) {
    check.Checked? ==>
      check.openCount == 0 && check.records.Some?
      && forall i :: 0 <= i < |check.records.value| ==> !LiveLease(config, check.records.value[i], check.now)
  }

  function Start(): State { State(None, false, false) }

  /** The state after the first `n` checks, `stopping` ending the loop. */
  function After(config: Config, s: State, checks: seq<Check>, n: nat): State
    requires n <= |checks|
  {
    if n == 0 then s
    else
      var before := After(config, s, checks, n - 1);
      if before.stopping then before else Step(config, before, checks[n - 1])
  }

  // ----- it reaps only after a quiet window -----

  /** An idle run: it began at check `k`, and every check since was quiet. */
  ghost predicate IdleRun(config: Config, checks: seq<Check>, n: nat, since: int, k: nat)
    requires n <= |checks|
  {
    k < n && checks[k].Checked? && checks[k].now == since && forall j :: k <= j < n ==> Quiet(config, checks[j])
  }

  predicate SeenBefore(checks: seq<Check>, n: nat)
    requires n <= |checks|
  {
    exists j :: 0 <= j < n && SawSession(checks[j])
  }

  /** What a loop that has not stopped knows of the checks so far. */
  ghost predicate Knows(config: Config, checks: seq<Check>, n: nat, s: State)
    requires n <= |checks|
  {
    && (s.idleSince.Some? ==> exists k :: IdleRun(config, checks, n, s.idleSince.value, k))
    && (s.hasSeenSession <==> SeenBefore(checks, n))
  }

  lemma KnowsMore(config: Config, checks: seq<Check>, n: nat, s: State)
    requires n < |checks| && config.reapAfterMs > 0 && Knows(config, checks, n, s)
    ensures Knows(config, checks, n + 1, Step(config, s, checks[n]))
  {
    var check, next := checks[n], Step(config, s, checks[n]);
    assert SawSession(check) ==> SeenBefore(checks, n + 1);
    assert SeenBefore(checks, n) ==> SeenBefore(checks, n + 1);
    if next.idleSince.Some? {
      var k := n;
      if s.idleSince.Some? { k :| IdleRun(config, checks, n, s.idleSince.value, k); }
      assert IdleRun(config, checks, n + 1, next.idleSince.value, k);
    }
  }

  lemma {:induction false} IdleRunKept(config: Config, checks: seq<Check>, n: nat) returns (k: nat)
    requires n <= |checks| && config.reapAfterMs > 0
    requires n > 0 ==> !After(config, Start(), checks, n - 1).stopping
    ensures var s := After(config, Start(), checks, n);
            && (s.idleSince.Some? ==> IdleRun(config, checks, n, s.idleSince.value, k))
            && (s.hasSeenSession <==> SeenBefore(checks, n))
  {
    LoopKnows(config, checks, n);
    var s := After(config, Start(), checks, n);
    k := 0;
    if s.idleSince.Some? { k :| IdleRun(config, checks, n, s.idleSince.value, k); }
  }

  lemma {:induction false} LoopKnows(config: Config, checks: seq<Check>, n: nat)
    requires n <= |checks| && config.reapAfterMs > 0
    requires n > 0 ==> !After(config, Start(), checks, n - 1).stopping
    ensures Knows(config, checks, n, After(config, Start(), checks, n))
    decreases n
  {
    hide Knows, Step;
    if n == 0 {
      KnowsNothing(config, checks);
    } else {
      if n > 1 { StoppingIsFinal(config, checks, n - 2); }
      LoopKnows(config, checks, n - 1);
      KnowsMore(config, checks, n - 1, After(config, Start(), checks, n - 1));
    }
  }

  lemma KnowsNothing(config: Config, checks: seq<Check>)
    ensures Knows(config, checks, 0, Start())
  {
  }

  lemma StoppingIsFinal(config: Config, checks: seq<Check>, n: nat)
    requires n < |checks|
    ensures After(config, Start(), checks, n).stopping ==> After(config, Start(), checks, n + 1).stopping
  {
  }

  ghost predicate ClockForward(checks: seq<Check>) {
    forall i, j :: 0 <= i < j < |checks| && checks[i].Checked? && checks[j].Checked? ==> checks[i].now <= checks[j].now
  }

  /** The idle clock started no later than any idle run that is still going. */
  lemma {:induction false} IdleSinceIsEarliest(config: Config, checks: seq<Check>, n: nat, k: nat)
    requires n <= |checks| && config.reapAfterMs > 0 && ClockForward(checks)
    requires n > 0 ==> !After(config, Start(), checks, n - 1).stopping
    requires k < n && checks[k].Checked? && IdleRun(config, checks, n, checks[k].now, k)
    ensures var s := After(config, Start(), checks, n); s.idleSince.Some? && s.idleSince.value <= checks[k].now
    decreases n
  {
    if n > 1 { StoppingIsFinal(config, checks, n - 2); }
    assert Quiet(config, checks[n - 1]);
    if k < n - 1 {
      IdleSinceIsEarliest(config, checks, n - 1, k);
    } else {
      var started := IdleRunKept(config, checks, n - 1);
    }
  }

  ghost predicate QuietLongEnough(config: Config, checks: seq<Check>, n: nat, k: nat)
    requires n < |checks| && checks[n].Checked?
  {
    && k <= n && checks[k].Checked? && IdleRun(config, checks, n + 1, checks[k].now, k)
    && checks[n].now - checks[k].now >= RequiredIdle(config.reapAfterMs, SeenBefore(checks, n + 1))
  }

  lemma ReapIsQuiet(config: Config, checks: seq<Check>, n: nat) returns (k: nat)
    requires n < |checks| && !After(config, Start(), checks, n).stopping && After(config, Start(), checks, n + 1).stopping
    ensures config.reapAfterMs > 0 && checks[n].Checked? && QuietLongEnough(config, checks, n, k)
  {
    k := IdleRunKept(config, checks, n + 1);
  }

  /** On a clock that does not run backwards the loop stops at a check exactly
      when that check ends a quiet window of the required length: the longer boot
      grace until a session was seen. */
  lemma ReapsIffQuietLongEnough(config: Config, checks: seq<Check>, n: nat)
    requires n < |checks| && ClockForward(checks) && !After(config, Start(), checks, n).stopping
    ensures After(config, Start(), checks, n + 1).stopping <==>
            config.reapAfterMs > 0 && checks[n].Checked? && exists k :: QuietLongEnough(config, checks, n, k)
  {
    if After(config, Start(), checks, n + 1).stopping {
      var k := ReapIsQuiet(config, checks, n);
    }
    if config.reapAfterMs > 0 && checks[n].Checked? && exists k :: QuietLongEnough(config, checks, n, k) {
      var k :| QuietLongEnough(config, checks, n, k);
      IdleSinceIsEarliest(config, checks, n + 1, k);
      var started := IdleRunKept(config, checks, n + 1);
      assert Quiet(config, checks[n]);
    }
  }

  // ----- the same from the checks alone -----

  /** A channel record of this very workspace and socket, written at most five
      seconds ahead of the check's clock and not yet past its lease. */
  ghost predicate Attends(config: Config, h: Heartbeat, now: int) {
    && h.kind.Channel? && config.resolve(h.workspace) == config.resolve(config.workspace)
    && config.resolve(h.socket) == config.resolve(config.socket)
    && h.updatedAt.Some? && h.updatedAt.value - 5000 <= now <= h.updatedAt.value + h.ttlMs
  }

  /** A check that keeps the daemon up: a session is open, the registry could not be
      read, or a channel attends. */
  ghost predicate Occupied(config: Config, check: Check) {
    check.Checked?
    && (check.openCount > 0 || check.records.None?
        || exists i :: 0 <= i < |check.records.value| && Attends(config, check.records.value[i], check.now))
  }

  /** Check `n` ends a stretch without occupation from check `k` on: of the configured
      length once a session was seen, and of at least ten seconds before. */
  ghost predicate EndsIdleStretch(config: Config, checks: seq<Check>, n: nat, k: nat)
    requires n < |checks|
  {
    && k <= n && checks[k].Checked? && checks[n].Checked?
    && (forall j :: k <= j <= n ==> !Occupied(config, checks[j]))
    && (checks[n].now - checks[k].now >=
          if (exists j :: 0 <= j <= n && checks[j].Checked? && (checks[j].openCount > 0 || checks[j].anySession))
             || config.reapAfterMs > 10000
          then config.reapAfterMs else 10000)
  }

  lemma OccupiedMeans(config: Config, check: Check)
    ensures Occupied(config, check) <==> !Quiet(config, check)
  {
    if check.Checked? && check.records.Some? {
      forall i | 0 <= i < |check.records.value|
        ensures Attends(config, check.records.value[i], check.now) <==> LiveLease(config, check.records.value[i], check.now)
      {
        FreshInWindow(check.records.value[i], check.now);
      }
    }
  }

  lemma StretchMeans(config: Config, checks: seq<Check>, n: nat, k: nat)
    requires n < |checks| && checks[n].Checked?
    ensures EndsIdleStretch(config, checks, n, k) <==> QuietLongEnough(config, checks, n, k)
  {
    hide Occupied, Quiet;
    forall j | 0 <= j < |checks| ensures Occupied(config, checks[j]) <==> !Quiet(config, checks[j]) {
      OccupiedMeans(config, checks[j]);
    }
    assert SeenBefore(checks, n + 1) <==>
           exists j :: 0 <= j <= n && checks[j].Checked? && (checks[j].openCount > 0 || checks[j].anySession);
  }

  /** When the daemon reaps, told from the checks and the configured time alone. */
  lemma ReapsIffIdleStretch(config: Config, checks: seq<Check>, n: nat)
    requires n < |checks| && ClockForward(checks) && !After(config, Start(), checks, n).stopping
    ensures After(config, Start(), checks, n + 1).stopping <==>
            config.reapAfterMs > 0 && exists k :: EndsIdleStretch(config, checks, n, k)
  {
    hide EndsIdleStretch, QuietLongEnough, After;
    ReapsIffQuietLongEnough(config, checks, n);
    if checks[n].Checked? {
      forall k ensures EndsIdleStretch(config, checks, n, k) <==> QuietLongEnough(config, checks, n, k) {
        StretchMeans(config, checks, n, k);
      }
    } else {
      NoStretch(config, checks, n);
    }
  }

  lemma NoStretch(config: Config, checks: seq<Check>, n: nat)
    requires n < |checks| && !checks[n].Checked?
    ensures forall k :: !EndsIdleStretch(config, checks, n, k)
  {
  }

  /** Safety: every check over the whole required window before a reap saw no
      open session and no live lease of this daemon. */
  lemma ReapMeansQuietWindow(config: Config, checks: seq<Check>, n: nat, j: nat)
    requires n < |checks| && ClockForward(checks)
    requires !After(config, Start(), checks, n).stopping && After(config, Start(), checks, n + 1).stopping
    requires j <= n && checks[j].Checked?
    requires checks[j].now > checks[n].now - RequiredIdle(config.reapAfterMs, SeenBefore(checks, n + 1)) || j == n
    ensures Quiet(config, checks[j])
  {
    var k := ReapIsQuiet(config, checks, n);
  }

  // ----- the loop -----

  class ReapLoop {
    const config: Config
    var idleSince: Option<int>
    var hasSeenSession: bool
    var stopping: bool
    ghost var seen: seq<Check>

    ghost function View(): State
      reads this
    {
      State(idleSince, hasSeenSession, stopping)
    }

    /** The idle clock began at a check since which every check was quiet, and
        the flag says whether any check saw a session. */
    ghost predicate Valid()
      reads this
    {
      config.reapAfterMs > 0 ==> Knows(config, seen, |seen|, View())
    }

    constructor (config: Config)
      ensures Valid() && View() == Start() && seen == [] && this.config == config
    {
      this.config := config;
      idleSince, hasSeenSession, stopping, seen := None, false, false, [];
      new;
      KnowsNothing(config, []);
    }

    method Consider(check: Check)
      requires Valid()
      modifies this
      ensures Valid() && seen == old(seen) + [check] && View() == Step(config, old(View()), check)
    {
      ghost var more := seen + [check];
      if config.reapAfterMs > 0 {
        KnowsAlike(config, seen, more, View());
        KnowsMore(config, more, |seen|, View());
      }
      seen := more;
      if check.Errored? {
        return;
      }
      var attached := ChannelAttached(config, check);
      var decision := ShouldReap(check.openCount, attached, hasSeenSession || check.anySession, idleSince,
                                 check.now, config.reapAfterMs);
      idleSince := decision.idleSince;
      hasSeenSession := decision.hasSeenSession;
      if decision.reap {
        stopping := true;
      }
    }

    /** Runs until it decides to stop or the given checks run out. */
    method Loop(checks: seq<Check>) returns (passes: nat)
      requires Valid() && View() == Start() && seen == []
      modifies this
      ensures passes <= |checks| && View() == After(config, Start(), checks, passes)
      ensures Valid() && seen == checks[..passes]
      ensures passes < |checks| ==> stopping
    {
      passes := 0;
      while passes < |checks| && !stopping
        invariant passes <= |checks| && View() == After(config, Start(), checks, passes)
        invariant Valid() && seen == checks[..passes]
      {
        Consider(checks[passes]);
        passes := passes + 1;
      }
    }
  }

  lemma KnowsAlike(config: Config, checks: seq<Check>, more: seq<Check>, s: State)
    requires checks <= more && Knows(config, checks, |checks|, s)
    ensures Knows(config, more, |checks|, s)
  {
    assert forall j :: 0 <= j < |checks| ==> more[j] == checks[j];
    assert SeenBefore(checks, |checks|) <==> SeenBefore(more, |checks|);
    if s.idleSince.Some? {
      var k :| IdleRun(config, checks, |checks|, s.idleSince.value, k);
      assert IdleRun(config, more, |checks|, s.idleSince.value, k);
    }
  }

  // ----- it does reap -----

  /** From check `a` on: no session, no read failure, and no lease of this daemon
      outlasting `deadline`. */
  ghost predicate Ceased(config: Config, checks: seq<Check>, a: nat, deadline: int) {
    forall j :: a <= j < |checks| ==>
      && checks[j].Checked? && checks[j].openCount == 0 && checks[j].records.Some?
      && forall i :: 0 <= i < |checks[j].records.value| ==> LapsedBy(config, checks[j].records.value[i], deadline)
  }

  predicate LapsedBy(config: Config, h: Heartbeat, deadline: int) {
    h.kind.Channel? && MatchesBinding(config.resolve, h, config.workspace, config.socket) && h.updatedAt.Some?
    ==> h.updatedAt.value + h.ttlMs <= deadline
  }

  ghost predicate Gaps(checks: seq<Check>, a: nat, gap: nat) {
    forall i, j :: a <= i && j == i + 1 < |checks| && checks[i].Checked? && checks[j].Checked? ==>
      checks[j].now - checks[i].now <= gap
  }

  /** The first check from `a` on whose clock is past `time`. */
  lemma FirstPast(checks: seq<Check>, a: nat, time: int, gap: nat) returns (b: nat)
    requires a < |checks| && Gaps(checks, a, gap)
    requires (forall j :: a <= j < |checks| ==> checks[j].Checked?) && checks[|checks| - 1].now > time
    ensures a <= b < |checks| && checks[b].now > time && checks[b].now <= Max(time + gap, checks[a].now)
  {
    b := a;
    while checks[b].now <= time
      invariant a <= b < |checks| && checks[b].now <= Max(time + gap, checks[a].now)
      decreases |checks| - b
    {
      assert checks[b + 1].now - checks[b].now <= gap;
      b := b + 1;
    }
  }

  /** Liveness: once everything ceased, the loop stops within the last lease's
      end (or the last activity, if later) plus the idle window and two gaps. */
  lemma ReapsWithin(config: Config, checks: seq<Check>, a: nat, deadline: int, gap: nat) returns (c: nat)
    requires config.reapAfterMs > 0 && a < |checks| && ClockForward(checks)
    requires Ceased(config, checks, a, deadline) && Gaps(checks, a, gap)
    requires checks[|checks| - 1].now >= Max(deadline, checks[a].now) + Max(config.reapAfterMs, BOOT_GRACE_MS) + gap
    ensures c < |checks| && After(config, Start(), checks, c + 1).stopping
    ensures a <= c && checks[c].now <= Max(deadline, checks[a].now) + Max(config.reapAfterMs, BOOT_GRACE_MS) + 2 * gap
  {
    var window := Max(config.reapAfterMs, BOOT_GRACE_MS);
    var b := FirstPast(checks, a, deadline, gap);
    c := FirstPast(checks, b, checks[b].now + window - 1, gap);
    forall j | b <= j < |checks| ensures Quiet(config, checks[j]) {
      QuietAfterDeadline(config, checks, a, deadline, j);
    }
    if !After(config, Start(), checks, c).stopping {
      assert QuietLongEnough(config, checks, c, b);
      ReapsIffQuietLongEnough(config, checks, c);
    }
  }

  lemma QuietAfterDeadline(config: Config, checks: seq<Check>, a: nat, deadline: int, j: nat)
    requires Ceased(config, checks, a, deadline) && a <= j < |checks| && checks[j].now > deadline
    ensures Quiet(config, checks[j])
  {
    forall i | 0 <= i < |checks[j].records.value|
      ensures !LiveLease(config, checks[j].records.value[i], checks[j].now)
    {
      assert LapsedBy(config, checks[j].records.value[i], deadline);
    }
  }
}
