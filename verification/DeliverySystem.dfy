/** Any number of transport clients and one daemon, interleaved in every order,
    with failing calls, crashes, restarts and an arbitrary clock. */
module DeliverySystem {
  import opened Options
  import opened Utf16
  import opened DeliveryBlocks
  import opened DeliveryRender
  import opened DeliveryDaemon

  /** Where a client stands in its reserve, surface, commit sequence. */
  datatype Phase =
    | Idle
    | Holding(id: nat, claim: Claim)  // reserved, nothing surfaced yet
    | Surfaced(id: nat)               // the rendering was fully written or pushed
    | Lost(id: nat)                   // the write or push failed

  datatype Cause = Directly | ByCommit(id: nat)

  /** `plans` and `owner` remember every reservation ever issued, `surfaced` and
      `failed` what became of its rendering, `orphans` the reservations whose
      holder is gone or saw a call fail, `causes` how each row was claimed. */
  datatype World = World(daemon: Daemon, phases: map<nat, Phase>, nextId: nat,
                         plans: map<nat, Plan>, owner: map<nat, nat>,
                         surfaced: set<nat>, failed: set<nat>, orphans: set<nat>,
                         causes: map<RowKey, Cause>)

  datatype Action =
    | Reserves(c: nat, session: nat, lifecycle: Lifecycle, maxEvents: Option<int>, answered: bool)
    | Releases(c: nat, applied: bool)
    | Surfaces(c: nat)
    | Fails(c: nat)
    | Commits(c: nat, applied: bool)
    | Crashes(c: nat)
    | Env(op: Op)

  function PhaseOf(w: World, c: nat): Phase { if c in w.phases then w.phases[c] else Idle }

  /** The daemon operation an action amounts to, if it reaches the daemon. */
  function ToOp(w: World, a: Action): Option<Op> {
    match a
    case Reserves(_, session, lifecycle, maxEvents, _) => Some(Reserve(w.nextId, session, lifecycle, maxEvents))
    case Releases(c, applied) => if applied && !PhaseOf(w, c).Idle? then Some(Release(PhaseOf(w, c).id)) else None
    case Commits(c, applied) => if applied && !PhaseOf(w, c).Idle? then Some(Commit(PhaseOf(w, c).id)) else None
    case Env(op) => Some(op)
    case _ => None
  }

  /** The protocol each client follows; foreign operations are any but theirs. */
  predicate Enabled(w: World, a: Action) {
    && (ToOp(w, a).Some? ==> Admits(w.daemon, ToOp(w, a).value))
    && match a
       case Reserves(c, _, _, _, _) => PhaseOf(w, c).Idle?
       case Releases(c, _) => PhaseOf(w, c).Holding? || PhaseOf(w, c).Lost?
       case Surfaces(c) => PhaseOf(w, c).Holding?
       case Fails(c) => PhaseOf(w, c).Holding?
       case Commits(c, _) => PhaseOf(w, c).Surfaced?
       case Crashes(c) => !PhaseOf(w, c).Idle?
       case Env(op) => !op.Reserve? && !op.Commit? && !op.Release?
  }

  function DaemonAfter(w: World, a: Action): Daemon
    requires Enabled(w, a)
  {
    if ToOp(w, a).Some? then Next(w.daemon, ToOp(w, a).value) else w.daemon
  }

  function Causes(w: World, claimed: set<RowKey>, cause: Cause): map<RowKey, Cause> {
    map k | k in w.causes.Keys + claimed :: if k in w.causes then w.causes[k] else cause
  }

  function Step(w: World, a: Action): World
    requires Enabled(w, a)
  {
    var d := DaemonAfter(w, a);
    match a
    case Reserves(c, _, _, _, answered) =>
      if w.nextId !in d.reservations then w.(daemon := d)
      else
        var plan := d.reservations[w.nextId];
        w.(daemon := d, nextId := w.nextId + 1,
           plans := w.plans[w.nextId := plan], owner := w.owner[w.nextId := c],
           phases := w.phases[c := if answered then Holding(w.nextId, plan.claim) else Idle],
           orphans := if answered then w.orphans else w.orphans + {w.nextId})
    case Releases(c, applied) =>
      w.(daemon := d, phases := w.phases[c := Idle],
         orphans := if applied then w.orphans else w.orphans + {PhaseOf(w, c).id})
    case Surfaces(c) =>
      w.(phases := w.phases[c := Surfaced(PhaseOf(w, c).id)], surfaced := w.surfaced + {PhaseOf(w, c).id})
    case Fails(c) =>
      w.(phases := w.phases[c := Lost(PhaseOf(w, c).id)], failed := w.failed + {PhaseOf(w, c).id})
    case Commits(c, applied) =>
      w.(daemon := d, phases := w.phases[c := Idle],
         orphans := if applied then w.orphans else w.orphans + {PhaseOf(w, c).id},
         causes := Causes(w, d.claimed, ByCommit(PhaseOf(w, c).id)))
    case Crashes(c) =>
      w.(phases := w.phases[c := Idle], orphans := w.orphans + {PhaseOf(w, c).id})
    case Env(op) =>
      w.(daemon := d, causes := Causes(w, d.claimed, Directly))
  }

  function Begin(now: int): World {
    World(Start(now), map[], 0, map[], map[], {}, {}, {}, map[])
  }

  // ----- what every interleaving keeps -----

  ghost predicate Renders(claim: Claim) {
    claim.events != [] || !Blank(Sanitize(Hook, claim.message))
  }

  /** A plan surfaces something and, unless a recap or a reminder speaks for
      other rows, claims only rows whose events it shows. */
  ghost predicate SoundPlan(plan: Plan) {
    && Renders(plan.claim)
    && (plan.claim.lifecycle.TurnInterruptible? && plan.claim.events != [] && plan.claim.reminder.None? ==>
          forall k :: k in plan.candidates ==> k.id in Ids(plan.claim.events))
  }

  predicate HeldByOwner(w: World, id: nat)
    requires id in w.owner
  {
    !PhaseOf(w, w.owner[id]).Idle? && PhaseOf(w, w.owner[id]).id == id
  }

  ghost predicate Registered(w: World) {
    && w.plans.Keys == w.owner.Keys
    && (forall id :: id in w.plans ==> id < w.nextId && SoundPlan(w.plans[id]))
    && (forall id :: id in w.daemon.reservations ==> Stored(w, id))
  }

  /** A stored lease is as issued and has a live holder, or is an orphan. */
  ghost predicate Stored(w: World, id: nat)
    requires id in w.daemon.reservations
  {
    && id in w.plans && id in w.owner && w.plans[id] == w.daemon.reservations[id]
    && (id in w.orphans || HeldByOwner(w, id))
  }

  ghost predicate PhaseOk(w: World, c: nat) {
    match PhaseOf(w, c)
    case Idle => true
    case Holding(id, claim) =>
      id in w.plans && id in w.owner && w.owner[id] == c && claim == w.plans[id].claim
      && id !in w.surfaced && id !in w.failed
    case Surfaced(id) => id in w.plans && id in w.owner && w.owner[id] == c && id in w.surfaced && id !in w.failed
    case Lost(id) => id in w.plans && id in w.owner && w.owner[id] == c && id in w.failed && id !in w.surfaced
  }

  ghost predicate Justified(w: World, k: RowKey) {
    k in w.causes && (w.causes[k].ByCommit? ==>
      var id := w.causes[k].id;
      id in w.surfaced && id in w.plans && k in w.plans[id].candidates)
  }

  ghost predicate WorldInv(w: World) {
    && Registered(w)
    && (forall c :: PhaseOk(w, c))
    && w.surfaced !! w.failed && w.surfaced + w.failed + w.orphans <= w.plans.Keys
    && (forall k :: k in w.daemon.claimed ==> Justified(w, k))
    && w.causes.Keys <= w.daemon.claimed
  }

  lemma BeginInv(now: int)
    ensures WorldInv(Begin(now))
  {
  }

  /** What a claim decision hands out is always something the renderers surface. */
  lemma DecisionRenders(d: Daemon, session: nat, lifecycle: Lifecycle, maxEvents: Option<int>)
    requires Decide(d, session, lifecycle, maxEvents).Some?
    ensures var claim := Decide(d, session, lifecycle, maxEvents).value.claim;
            Renders(claim) && claim.lifecycle == lifecycle
  {
    hide Available, LeasedPending, SettledHigh, Unread, ReminderDue, Blank, Sanitize, Select;
    ReminderRenders();
  }

  lemma ReminderRenders()
    ensures !Blank(Sanitize(Hook, REMINDER))
  {
    hide Sanitize, Clean;
    assert REMINDER[0] == 'M' as int;
    FirstKept(REMINDER);
  }

  lemma FirstKept(s: Text)
    requires s != [] && Allowed(Hook, s[0]) && !IsSpace(s[0])
    ensures !Blank(Sanitize(Hook, s))
  {
    hide Clean, Allowed, IsSpace;
    var rest := Sanitize(Hook, s[1..]);
    assert Sanitize(Hook, s) == [s[0]] + rest;
    assert Sanitize(Hook, s)[0] == s[0];
  }

  lemma PlanIsSound(d: Daemon, session: nat, lifecycle: Lifecycle, maxEvents: Option<int>, expiresAt: int)
    requires Decide(d, session, lifecycle, maxEvents).Some?
    ensures var decision := Decide(d, session, lifecycle, maxEvents).value;
            SoundPlan(Plan(Keys(decision.candidates), decision.claim, expiresAt))
  {
    hide Decide, Renders;
    DecisionRenders(d, session, lifecycle, maxEvents);
    var decision := Decide(d, session, lifecycle, maxEvents).value;
    if lifecycle.TurnInterruptible? && decision.claim.events != [] && decision.claim.reminder.None? {
      ClaimedIsSurfaced(d, session, lifecycle, maxEvents);
      forall k | k in Keys(decision.candidates) ensures k.id in Ids(decision.claim.events) {
        var r :| r in decision.candidates && r.Key() == k;
        var i :| 0 <= i < |decision.claim.events| && decision.claim.events[i] == r.event;
        assert Ids(decision.claim.events)[i] == k.id;
      }
    }
  }

  /** How one daemon operation moves the registry and the claimed column. */
  lemma OpEffect(d: Daemon, op: Op)
    requires Admits(d, op)
    ensures var q := Next(d, op);
            && d.claimed <= q.claimed
            && (forall id :: id in q.reservations && (op.Reserve? ==> id != op.id) ==>
                  id in d.reservations && q.reservations[id] == d.reservations[id])
            && (op.Reserve? && op.id in q.reservations ==> SoundPlan(q.reservations[op.id])
                                                           && q.reservations[op.id].claim.lifecycle == op.lifecycle)
            && (op.Release? ==> op.id !in q.reservations)
            && (op.Commit? ==> op.id !in q.reservations
                               && (q.claimed > d.claimed ==>
                                     op.id in d.reservations && d.reservations[op.id].expiresAt > d.now)
                               && (op.id in d.reservations ==> q.claimed <= d.claimed + d.reservations[op.id].candidates))
            && (!op.Commit? && !op.DirectClaim? ==> q.claimed == d.claimed)
  {
    hide Decide, SoundPlan;
    if op.Reserve? {
      var decision := Decide(Prune(d), op.session, op.lifecycle, op.maxEvents);
      if decision.Some? {
        DecisionRenders(Prune(d), op.session, op.lifecycle, op.maxEvents);
        PlanIsSound(Prune(d), op.session, op.lifecycle, op.maxEvents, d.now + RESERVATION_TTL_MS);
      }
    }
  }

  lemma StoredAfterReserve(w: World, a: Action, id: nat)
    requires Registered(w) && Enabled(w, a) && a.Reserves? && id in Step(w, a).daemon.reservations
    ensures Stored(Step(w, a), id)
  {
    hide Next, SoundPlan, Prune, Causes, Admits;
    OpEffect(w.daemon, ToOp(w, a).value);
    if id != w.nextId { assert Stored(w, id); }
  }

  lemma StoredKept(w: World, a: Action, id: nat)
    requires Registered(w) && Enabled(w, a) && id in Step(w, a).daemon.reservations
    ensures Stored(Step(w, a), id)
  {
    hide Next, SoundPlan, Prune, Causes, Admits;
    if a.Reserves? {
      StoredAfterReserve(w, a, id);
    } else {
      if ToOp(w, a).Some? { OpEffect(w.daemon, ToOp(w, a).value); }
      assert Stored(w, id);
    }
  }

  lemma RegisteredKept(w: World, a: Action)
    requires WorldInv(w) && Enabled(w, a)
    ensures Registered(Step(w, a))
  {
    hide Next, SoundPlan, Prune, Justified, PhaseOk, Causes, Stored, HeldByOwner;
    if ToOp(w, a).Some? { OpEffect(w.daemon, ToOp(w, a).value); }
    forall id | id in Step(w, a).daemon.reservations ensures Stored(Step(w, a), id) {
      StoredKept(w, a, id);
    }
  }

  lemma PhasesKept(w: World, a: Action)
    requires WorldInv(w) && Enabled(w, a)
    ensures forall c :: PhaseOk(Step(w, a), c)
    ensures var v := Step(w, a); v.surfaced !! v.failed && v.surfaced + v.failed + v.orphans <= v.plans.Keys
  {
    hide Next, SoundPlan, Prune, Justified, Enabled;
    var v := Step(w, a);
    forall c ensures PhaseOk(v, c) {
      if !a.Env? && a.c == c { OwnPhaseKept(w, a); } else { OtherPhaseKept(w, a, c); }
    }
    if !a.Env? { assert PhaseOk(w, a.c); OwnPhaseKept(w, a); }
  }

  lemma OwnPhaseKept(w: World, a: Action)
    requires WorldInv(w) && Enabled(w, a) && !a.Env?
    ensures PhaseOk(Step(w, a), a.c)
    ensures var v := Step(w, a); v.surfaced !! v.failed && v.surfaced + v.failed + v.orphans <= v.plans.Keys
  {
    hide Next, SoundPlan, Prune, Justified;
    assert PhaseOk(w, a.c);
  }

  lemma OtherPhaseKept(w: World, a: Action, c: nat)
    requires WorldInv(w) && Enabled(w, a) && (a.Env? || a.c != c)
    ensures PhaseOk(Step(w, a), c)
  {
    hide Next, SoundPlan, Prune, Justified;
    assert PhaseOk(w, c);
    if !a.Env? { assert PhaseOk(w, a.c); }
  }

  lemma ClaimsKept(w: World, a: Action)
    requires WorldInv(w) && Enabled(w, a)
    ensures var v := Step(w, a); v.causes.Keys <= v.daemon.claimed
    ensures forall k :: k in Step(w, a).daemon.claimed ==> Justified(Step(w, a), k)
  {
    hide Next, SoundPlan, Prune;
    if ToOp(w, a).Some? { OpEffect(w.daemon, ToOp(w, a).value); }
    var v := Step(w, a);
    if !a.Env? { assert PhaseOk(w, a.c); }
    forall k | k in v.daemon.claimed ensures Justified(v, k) {
      assert k in w.daemon.claimed ==> Justified(w, k);
    }
  }

  lemma StepKeepsInv(w: World, a: Action)
    requires WorldInv(w) && Enabled(w, a)
    ensures WorldInv(Step(w, a))
  {
    hide Step, Enabled;
    RegisteredKept(w, a);
    PhasesKept(w, a);
    ClaimsKept(w, a);
  }

  // ----- interleavings -----

  ghost predicate Interleaving(w: World, actions: seq<Action>)
    decreases |actions|
  {
    actions == [] || (Enabled(w, actions[0]) && Interleaving(Step(w, actions[0]), actions[1..]))
  }

  ghost function After(w: World, actions: seq<Action>): World
    requires Interleaving(w, actions)
    decreases |actions|
  {
    if actions == [] then w else After(Step(w, actions[0]), actions[1..])
  }

  lemma {:induction false} AfterKeepsInv(w: World, actions: seq<Action>)
    requires WorldInv(w) && Interleaving(w, actions)
    ensures WorldInv(After(w, actions))
    decreases |actions|
  {
    hide WorldInv, Step, Enabled;
    if actions != [] {
      StepKeepsInv(w, actions[0]);
      AfterKeepsInv(Step(w, actions[0]), actions[1..]);
    }
  }

  /** The one step that claims a row is a direct claim, or the commit, in time, of
      a reservation whose non-empty rendering was surfaced before it. The cause
      recorded is that step, and causes once recorded stay. */
  lemma NewClaimNeedsSurface(w: World, a: Action, k: RowKey)
    requires WorldInv(w) && Enabled(w, a)
    requires k in Step(w, a).daemon.claimed && k !in w.daemon.claimed
    ensures k in Step(w, a).causes
    ensures || (a.Env? && a.op.DirectClaim? && Step(w, a).causes[k] == Directly)
            || (a.Commits? && a.applied && PhaseOf(w, a.c).Surfaced?
                && var id := PhaseOf(w, a.c).id;
                   && id in w.surfaced && id !in w.failed && id in w.plans && w.plans[id].expiresAt > w.daemon.now
                   && k in w.plans[id].candidates && SoundPlan(w.plans[id]) && Step(w, a).causes[k] == ByCommit(id))
    ensures forall earlier :: earlier in w.causes ==>
              earlier in Step(w, a).causes && Step(w, a).causes[earlier] == w.causes[earlier]
  {
    hide Next, Prune, SoundPlan;
    if ToOp(w, a).Some? { OpEffect(w.daemon, ToOp(w, a).value); }
    if !a.Env? { assert PhaseOk(w, a.c); }
    if a.Commits? && a.applied && PhaseOf(w, a.c).id in w.daemon.reservations { assert Stored(w, PhaseOf(w, a.c).id); }
  }

  /** Nothing keeps a client from crashing, or the environment from any operation
      but those on reservations. */
  lemma EnvironmentIsFree(w: World, c: nat, op: Op)
    ensures !PhaseOf(w, c).Idle? ==> Enabled(w, Crashes(c)) && PhaseOf(Step(w, Crashes(c)), c).Idle?
                                     && Step(w, Crashes(c)).daemon == w.daemon
    ensures Admits(w.daemon, op) && !op.Reserve? && !op.Commit? && !op.Release? ==>
              Enabled(w, Env(op)) && Step(w, Env(op)).daemon == Next(w.daemon, op)
  {
    hide Next, Admits;
  }

  /** Across all interleavings: a row is claimed directly or by a reservation
      surfaced in full and never failed, and a stored lease has a live holder
      unless a call failed or its holder crashed. */
  lemma EveryInterleaving(now: int, actions: seq<Action>)
    requires Interleaving(Begin(now), actions)
    ensures var w := After(Begin(now), actions);
            && (forall k :: k in w.daemon.claimed ==>
                  k in w.causes && (w.causes[k].ByCommit? ==>
                    var id := w.causes[k].id;
                    id in w.surfaced && id !in w.failed && id in w.plans && k in w.plans[id].candidates))
            && (forall id :: id in w.daemon.reservations ==> Stored(w, id))
  {
    BeginInv(now);
    AfterKeepsInv(Begin(now), actions);
    var w := After(Begin(now), actions);
    forall k | k in w.daemon.claimed ensures Justified(w, k) {}
  }

  /** Recaps of the run, if any, come when no row they take is leased. */
  ghost predicate OrderlyInterleaving(w: World, actions: seq<Action>)
    requires Interleaving(w, actions)
    decreases |actions|
  {
    actions == []
    || ((ToOp(w, actions[0]).Some? ==> Orderly(w.daemon, ToOp(w, actions[0]).value))
        && OrderlyInterleaving(Step(w, actions[0]), actions[1..]))
  }

  lemma {:induction false} LeasesStayDisjoint(w: World, actions: seq<Action>)
    requires Inv(w.daemon) && Interleaving(w, actions) && OrderlyInterleaving(w, actions)
    ensures Inv(After(w, actions).daemon)
    decreases |actions|
  {
    hide Inv, Next, Admits, Orderly;
    if actions != [] {
      if ToOp(w, actions[0]).Some? { OpKeepsInvIff(w.daemon, ToOp(w, actions[0]).value); }
      LeasesStayDisjoint(Step(w, actions[0]), actions[1..]);
    }
  }

  /** Unless a recap took leased rows every unacknowledged row is, after any
      interleaving, exactly one of claimed, leased to one live reservation, or
      available. */
  lemma TrichotomyAcrossClients(now: int, actions: seq<Action>, r: Row)
    requires Interleaving(Begin(now), actions) && OrderlyInterleaving(Begin(now), actions)
    requires var d := After(Begin(now), actions).daemon; r in d.rows && r.Key() !in d.acked
    ensures var d := After(Begin(now), actions).daemon;
            var claimed, leased, available :=
              r.Key() in d.claimed, LeasedOnce(d, r.Key()), r in Available(d, r.session, r.urgency);
            && (claimed || leased || available)
            && !(claimed && leased) && !(claimed && available) && !(leased && available)
  {
    hide Interleaving, After, Available, LeasedOnce, OrderlyInterleaving;
    LeasesStayDisjoint(Begin(now), actions);
    Trichotomy(After(Begin(now), actions).daemon, r);
  }

  /** Interleavings without recaps are orderly. */
  lemma {:induction false} NoRecapIsOrderly(w: World, actions: seq<Action>)
    requires Interleaving(w, actions)
    requires forall i :: 0 <= i < |actions| ==>
               (actions[i].Reserves? ==> !actions[i].lifecycle.PostCompact?) && (actions[i].Env? ==> !Recaps(actions[i].op))
    ensures OrderlyInterleaving(w, actions)
    decreases |actions|
  {
    hide Next, Admits, Step, Enabled;
    if actions != [] {
      assert !(actions[0].Env? && Recaps(actions[0].op));
      NoRecapIsOrderly(Step(w, actions[0]), actions[1..]);
    }
  }
}
