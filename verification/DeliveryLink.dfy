/** One client's connection to the daemon. Between and during its calls the
    environment runs any foreign actions and fails any call, before or after it
    reached the daemon. */
module DeliveryLink {
  import opened Options
  import opened Utf16
  import opened DeliveryBlocks
  import opened DeliveryRender
  import opened DeliveryDaemon
  import opened DeliverySystem

  datatype Fault = NoFault | BeforeEffect | AfterEffect

  datatype Turn = Turn(foreign: seq<Action>, fault: Fault)

  predicate Foreign(me: nat, a: Action) { a.Env? || a.c != me }

  /** Foreign actions in order; one that is not possible at its turn is skipped. */
  function Interfere(w: World, me: nat, actions: seq<Action>): World
    decreases |actions|
  {
    if actions == [] then w
    else
      var a := actions[0];
      Interfere(if Foreign(me, a) && Enabled(w, a) then Step(w, a) else w, me, actions[1..])
  }

  /** Any interleaving of the environment and other clients can be what happens
      in between. */
  lemma {:induction false} InterfereIsFree(w: World, me: nat, actions: seq<Action>)
    requires Interleaving(w, actions) && forall i :: 0 <= i < |actions| ==> actions[i].Env? || actions[i].c != me
    ensures Interfere(w, me, actions) == After(w, actions)
    decreases |actions|
  {
    hide Step, Enabled;
    if actions != [] { InterfereIsFree(Step(w, actions[0]), me, actions[1..]); }
  }

  function Do(w: World, a: Action): World { if Enabled(w, a) then Step(w, a) else w }

  ghost function Orphaned(w: World, me: nat): set<nat> {
    set id | id in w.orphans && id in w.owner && w.owner[id] == me
  }

  /** What no foreign action can take from a client. */
  ghost predicate Keeps(w: World, v: World, me: nat) {
    && PhaseOf(v, me) == PhaseOf(w, me) && Orphaned(v, me) == Orphaned(w, me)
    && Grows(w, v) && SameFates(w, v, me)
  }

  /** Reservations stay as issued and claims are for good. */
  ghost predicate Grows(w: World, v: World) {
    && w.nextId <= v.nextId && w.daemon.claimed <= v.daemon.claimed
    && (forall id :: id in w.plans ==> id in v.plans && v.plans[id] == w.plans[id])
    && (forall id :: id in w.owner ==> id in v.owner && v.owner[id] == w.owner[id])
  }

  ghost predicate SameFates(w: World, v: World, me: nat) {
    forall id :: id in w.owner && w.owner[id] == me ==>
      (id in v.surfaced <==> id in w.surfaced) && (id in v.failed <==> id in w.failed)
  }

  lemma StepGrows(w: World, a: Action)
    requires WorldInv(w) && Enabled(w, a)
    ensures Grows(w, Step(w, a))
  {
    hide Next, SoundPlan, Prune, Justified, Causes, Admits, Stored, PhaseOk;
    if ToOp(w, a).Some? { OpEffect(w.daemon, ToOp(w, a).value); }
    assert w.nextId !in w.plans && w.plans.Keys == w.owner.Keys;
  }

  lemma ForeignKeepsFates(w: World, me: nat, a: Action)
    requires WorldInv(w) && Enabled(w, a) && Foreign(me, a)
    ensures SameFates(w, Step(w, a), me)
  {
    hide Next, SoundPlan, Prune, Justified, Causes, Admits, Stored;
    if !a.Env? { assert PhaseOk(w, a.c); }
  }

  lemma ForeignKeepsOrphans(w: World, me: nat, a: Action)
    requires WorldInv(w) && Enabled(w, a) && Foreign(me, a)
    ensures Orphaned(Step(w, a), me) == Orphaned(w, me) && PhaseOf(Step(w, a), me) == PhaseOf(w, me)
  {
    hide Next, SoundPlan, Prune, Justified, Causes, Admits, Stored;
    if !a.Env? { assert PhaseOk(w, a.c); }
  }

  lemma ForeignKeeps(w: World, me: nat, a: Action)
    requires WorldInv(w) && Enabled(w, a) && Foreign(me, a)
    ensures WorldInv(Step(w, a)) && Keeps(w, Step(w, a), me)
  {
    hide WorldInv, Step, Enabled, Grows, SameFates, Foreign, Orphaned;
    StepKeepsInv(w, a);
    StepGrows(w, a);
    ForeignKeepsFates(w, me, a);
    ForeignKeepsOrphans(w, me, a);
  }

  lemma {:induction false} InterfereKeeps(w: World, me: nat, actions: seq<Action>)
    requires WorldInv(w)
    ensures WorldInv(Interfere(w, me, actions)) && Keeps(w, Interfere(w, me, actions), me)
    decreases |actions|
  {
    hide WorldInv, Step, Enabled, PhaseOf, Foreign;
    if actions != [] {
      var a := actions[0];
      if Foreign(me, a) && Enabled(w, a) {
        ForeignKeeps(w, me, a);
        InterfereKeeps(Step(w, a), me, actions[1..]);
      } else {
        InterfereKeeps(w, me, actions[1..]);
      }
    }
  }

  datatype ReserveAnswer = Unreachable | Nothing | Reserved(id: nat, claim: Claim)

  datatype CommitAnswer = Uncertain | Committed | Lapsed

  class Link {
    const me: nat
    const env: nat -> Turn
    var world: World
    var calls: nat

    constructor (me: nat, env: nat -> Turn, world: World)
      ensures this.me == me && this.env == env && this.world == world && calls == 0
    {
      this.me, this.env, this.world, calls := me, env, world, 0;
    }

    /** Nobody interferes and nothing fails from here on. */
    ghost predicate Calm()
      reads this
    {
      forall n :: calls <= n ==> env(n) == Turn([], NoFault)
    }

    ghost predicate Ready()
      reads this
    {
      WorldInv(world) && PhaseOf(world, me).Idle?
    }

    /** The world a call meets, the foreign steps of its turn taken. */
    ghost function Met(): World
      reads this
    {
      Interfere(world, me, env(calls).foreign)
    }

    method Foreigners() returns (fault: Fault)
      requires WorldInv(world)
      modifies this
      ensures world == old(Met()) && fault == env(old(calls)).fault && calls == old(calls) + 1
      ensures WorldInv(world) && Keeps(old(world), world, me)
      ensures old(Calm()) ==> Calm() && fault.NoFault? && world == old(world)
    {
      hide WorldInv, Keeps;
      InterfereKeeps(world, me, env(calls).foreign);
      world, fault := Interfere(world, me, env(calls).foreign), env(calls).fault;
      calls := calls + 1;
    }

    /** A read-only preview: the settled events, or a failed call. */
    method PreviewHigh(session: nat) returns (answer: Option<seq<Event>>)
      requires WorldInv(world)
      modifies this
      ensures calls == old(calls) + 1
      ensures world == if env(old(calls)).fault.BeforeEffect? then old(Met()) else PreviewStep(old(Met()))
      ensures answer == if env(old(calls)).fault.NoFault? then Some(PreviewSettledHigh(world.daemon, session)) else None
      ensures WorldInv(world) && Keeps(old(world), world, me)
      ensures old(Calm()) ==> Calm() && answer == Some(PreviewSettledHigh(old(world).daemon, session))
                              && world == old(world).(daemon := Prune(old(world).daemon))
    {
      hide WorldInv, Keeps, Prune, PreviewSettledHigh;
      ghost var before := world;
      var fault := Foreigners();
      if fault.BeforeEffect? {
        return None;
      }
      PreviewKeeps(world, me);
      KeepsOn(before, world, PreviewStep(world), me);
      PruneHidesNothing(world.daemon, session, TurnInterruptible, None);
      world := PreviewStep(world);
      answer := if fault.AfterEffect? then None else Some(PreviewSettledHigh(world.daemon, session));
    }

    method PreviewCoalesced(session: nat) returns (answer: Option<Option<Text>>)
      requires WorldInv(world)
      modifies this
      ensures calls == old(calls) + 1
      ensures world == if env(old(calls)).fault.BeforeEffect? then old(Met()) else PreviewStep(old(Met()))
      ensures answer == if env(old(calls)).fault.NoFault? then Some(PreviewReminder(world.daemon, session)) else None
      ensures WorldInv(world) && Keeps(old(world), world, me)
      ensures old(Calm()) ==> Calm() && answer == Some(PreviewReminder(old(world).daemon, session))
                              && world == old(world).(daemon := Prune(old(world).daemon))
    {
      hide WorldInv, Keeps, Prune, PreviewReminder;
      ghost var before := world;
      var fault := Foreigners();
      if fault.BeforeEffect? {
        return None;
      }
      PreviewKeeps(world, me);
      KeepsOn(before, world, PreviewStep(world), me);
      PruneHidesNothing(world.daemon, session, TurnInterruptible, None);
      world := PreviewStep(world);
      answer := if fault.AfterEffect? then None else Some(PreviewReminder(world.daemon, session));
    }

    /** Ask for a reservation: a lost answer leaves an orphaned lease behind. */
    method Reserve(session: nat, lifecycle: Lifecycle, maxEvents: Option<int>) returns (answer: ReserveAnswer)
      requires Ready()
      modifies this
      ensures calls == old(calls) + 1
      ensures var fault := env(old(calls)).fault;
              && world == (if fault.BeforeEffect? then old(Met())
                           else Do(old(Met()), Reserves(me, session, lifecycle, maxEvents, fault.NoFault?)))
              && (answer.Unreachable? <==> !fault.NoFault?)
      ensures answer.Nothing? ==> Decide(world.daemon, session, lifecycle, maxEvents).None?
      ensures WorldInv(world) && Grows(old(world), world)
      ensures !answer.Reserved? ==> PhaseOf(world, me).Idle?
      ensures !answer.Unreachable? ==> Orphaned(world, me) == Orphaned(old(world), me)
      ensures SameFates(old(world), world, me)
      ensures answer.Reserved? ==> PhaseOf(world, me) == Holding(answer.id, answer.claim) && old(world).nextId <= answer.id
                                   && Obeys(answer.claim, lifecycle, maxEvents)
      ensures old(Calm()) ==> Calm() && CalmReserve(old(world), world, session, lifecycle, maxEvents, answer)
    {
      hide WorldInv, Keeps, Step, Enabled, Grows, Prune, Decide, Orphaned, Next, SameFates;
      ghost var before := world;
      var fault := Foreigners();
      KeepsGrows(before, world, me);
      if fault.BeforeEffect? {
        return Unreachable;
      }
      var asks := Reserves(me, session, lifecycle, maxEvents, fault.NoFault?);
      OwnReserve(world, asks);
      GrowsOn(before, world, Step(world, asks));
      ReserveKeepsFates(world, asks);
      FatesOn(before, world, Step(world, asks), me);
      var id := world.nextId;
      world := Step(world, asks);
      if fault.AfterEffect? {
        return Unreachable;
      }
      return if PhaseOf(world, me).Holding? then Reserved(id, PhaseOf(world, me).claim) else Nothing;
    }

    /** Give a reservation back without claiming; `ok` is false if the call fails. */
    method Release() returns (ok: bool)
      requires WorldInv(world) && (PhaseOf(world, me).Holding? || PhaseOf(world, me).Lost?)
      modifies this
      ensures calls == old(calls) + 1 && (ok <==> env(old(calls)).fault.NoFault?)
      ensures world == Do(old(Met()), Releases(me, !env(old(calls)).fault.BeforeEffect?))
      ensures WorldInv(world) && Grows(old(world), world) && SameFates(old(world), world, me)
      ensures PhaseOf(world, me).Idle?
      ensures !env(old(calls)).fault.BeforeEffect? ==> PhaseOf(old(world), me).id !in world.daemon.reservations
      ensures ok ==> Orphaned(world, me) == Orphaned(old(world), me)
      ensures old(Calm()) ==> Calm() && ok
    {
      hide WorldInv, Keeps, Step, Enabled, Grows, Orphaned, SameFates;
      ghost var before := world;
      var fault := Foreigners();
      KeepsGrows(before, world, me);
      var releases := Releases(me, !fault.BeforeEffect?);
      OwnRelease(world, releases);
      GrowsOn(before, world, Step(world, releases));
      FatesOn(before, world, Step(world, releases), me);
      world := Step(world, releases);
      return fault.NoFault?;
    }

    /** Write the rendering to the hook's stream, or push it to the channel. */
    method Surface() returns (ok: bool)
      requires WorldInv(world) && PhaseOf(world, me).Holding?
      modifies this
      ensures calls == old(calls) + 1 && (ok <==> env(old(calls)).fault.NoFault?)
      ensures world == Do(old(Met()), if ok then Surfaces(me) else Fails(me))
      ensures WorldInv(world) && Grows(old(world), world) && Orphaned(world, me) == Orphaned(old(world), me)
      ensures var id := PhaseOf(old(world), me).id;
              PhaseOf(world, me) == if ok then Surfaced(id) else Lost(id)
      ensures OwnFate(world, me, PhaseOf(old(world), me).id, ok)
      ensures old(Calm()) ==> Calm() && ok && world.daemon == old(world).daemon
    {
      hide WorldInv, Keeps, Step, Enabled, Grows, Orphaned;
      ghost var before := world;
      var fault := Foreigners();
      KeepsGrows(before, world, me);
      var surfaces := if fault.NoFault? then Surfaces(me) else Fails(me);
      OwnSurface(world, surfaces);
      GrowsOn(before, world, Step(world, surfaces));
      world := Step(world, surfaces);
      return fault.NoFault?;
    }

    /** Claim what was surfaced. `Lapsed` is the daemon's null answer. */
    method Commit() returns (answer: CommitAnswer)
      requires WorldInv(world) && PhaseOf(world, me).Surfaced?
      modifies this
      ensures calls == old(calls) + 1
      ensures world == Do(old(Met()), Commits(me, !env(old(calls)).fault.BeforeEffect?))
      ensures answer == if !env(old(calls)).fault.NoFault? then Uncertain
                        else if InTime(old(Met()).daemon, old(PhaseOf(world, me)).id) then Committed else Lapsed
      ensures WorldInv(world) && Grows(old(world), world) && SameFates(old(world), world, me)
      ensures PhaseOf(world, me).Idle?
      ensures !answer.Uncertain? ==> Orphaned(world, me) == Orphaned(old(world), me)
      ensures var id := PhaseOf(old(world), me).id;
              && id in world.plans
              && (answer.Committed? ==> world.plans[id].candidates <= world.daemon.claimed)
      ensures old(Calm()) ==>
                && Calm() && world.daemon == Next(old(world).daemon, Op.Commit(PhaseOf(old(world), me).id))
                && answer == if InTime(old(world).daemon, PhaseOf(old(world), me).id) then Committed else Lapsed
    {
      hide WorldInv, Keeps, Step, Enabled, Grows, Orphaned, SameFates, Next;
      ghost var before := world;
      var fault := Foreigners();
      KeepsGrows(before, world, me);
      var commits := Commits(me, !fault.BeforeEffect?);
      OwnCommit(world, commits);
      GrowsOn(before, world, Step(world, commits));
      FatesOn(before, world, Step(world, commits), me);
      var taken := Take(world.daemon, PhaseOf(world, me).id);
      world := Step(world, commits);
      return if !fault.NoFault? then Uncertain else if taken.Some? then Committed else Lapsed;
    }
  }

  /** The daemon still stores the reservation and it has not run out. */
  ghost predicate InTime(d: Daemon, id: nat) { id in d.reservations && d.reservations[id].expiresAt > d.now }

  ghost predicate Obeys(claim: Claim, lifecycle: Lifecycle, maxEvents: Option<int>) {
    && claim.lifecycle == lifecycle && Renders(claim)
    && (lifecycle.TurnInterruptible? && maxEvents.Some? ==> |claim.events| <= Max(1, maxEvents.value))
  }

  ghost predicate CalmReserve(w: World, v: World, session: nat, lifecycle: Lifecycle, maxEvents: Option<int>,
                              answer: ReserveAnswer) {
    && w.nextId !in w.daemon.reservations
    && v.daemon == Next(w.daemon, Op.Reserve(w.nextId, session, lifecycle, maxEvents))
    && match Decide(Prune(w.daemon), session, lifecycle, maxEvents)
       case None => answer.Nothing?
       case Some(decision) =>
         && answer == Reserved(w.nextId, decision.claim) && Take(v.daemon, w.nextId).Some?
         && w.nextId in v.plans && v.plans[w.nextId].candidates == Keys(decision.candidates)
  }

  /** An own reservation whose rendering was surfaced, or failed to be. */
  ghost predicate OwnFate(w: World, me: nat, id: nat, ok: bool) {
    id in w.owner && w.owner[id] == me && if ok then id in w.surfaced else id in w.failed
  }

  lemma FateStays(w: World, v: World, me: nat, id: nat, ok: bool)
    requires OwnFate(w, me, id, ok) && Grows(w, v) && SameFates(w, v, me)
    ensures OwnFate(v, me, id, ok)
  {
  }

  lemma KeepsGrows(w: World, v: World, me: nat)
    requires Keeps(w, v, me)
    ensures Grows(w, v) && SameFates(w, v, me)
    ensures PhaseOf(v, me) == PhaseOf(w, me) && Orphaned(v, me) == Orphaned(w, me)
  {
  }

  lemma GrowsOn(u: World, v: World, w: World)
    requires Grows(u, v) && Grows(v, w)
    ensures Grows(u, w) && u.nextId <= v.nextId
  {
  }

  lemma FatesOn(u: World, v: World, w: World, me: nat)
    requires Grows(u, v) && SameFates(u, v, me) && SameFates(v, w, me)
    ensures SameFates(u, w, me)
  {
  }

  lemma NextIdIsFresh(w: World)
    requires WorldInv(w)
    ensures w.nextId !in w.daemon.reservations
  {
    forall id | id in w.daemon.reservations ensures id < w.nextId { assert Stored(w, id); }
  }

  lemma OwnReserve(w: World, a: Action)
    requires WorldInv(w) && a.Reserves? && PhaseOf(w, a.c).Idle?
    ensures Enabled(w, a) && WorldInv(Step(w, a)) && Grows(w, Step(w, a))
    ensures var v := Step(w, a);
            && w.nextId !in w.daemon.reservations
            && v.daemon == Next(w.daemon, Op.Reserve(w.nextId, a.session, a.lifecycle, a.maxEvents))
            && (!a.answered ==> PhaseOf(v, a.c).Idle?)
            && (a.answered ==>
                  && Orphaned(v, a.c) == Orphaned(w, a.c)
                  && match Decide(Prune(w.daemon), a.session, a.lifecycle, a.maxEvents)
                     case None =>
                       PhaseOf(v, a.c).Idle? && Decide(v.daemon, a.session, a.lifecycle, a.maxEvents).None?
                     case Some(decision) =>
                       && PhaseOf(v, a.c) == Holding(w.nextId, decision.claim)
                       && Obeys(decision.claim, a.lifecycle, a.maxEvents) && Take(v.daemon, w.nextId).Some?
                       && w.nextId in v.plans && v.plans[w.nextId].candidates == Keys(decision.candidates))
  {
    hide Decide, Justified, Stored, PhaseOk, Causes, SoundPlan;
    NextIdIsFresh(w);
    StepKeepsInv(w, a);
    StepGrows(w, a);
    var decision := Decide(Prune(w.daemon), a.session, a.lifecycle, a.maxEvents);
    if decision.Some? {
      DecisionRenders(Prune(w.daemon), a.session, a.lifecycle, a.maxEvents);
      if a.lifecycle.TurnInterruptible? { ClaimMatchesPreview(Prune(w.daemon), a.session, a.maxEvents); }
    }
  }

  lemma ReserveKeepsFates(w: World, a: Action)
    requires a.Reserves? && Enabled(w, a)
    ensures SameFates(w, Step(w, a), a.c)
  {
    hide Next, Admits;
  }

  lemma OwnRelease(w: World, a: Action)
    requires WorldInv(w) && a.Releases? && (PhaseOf(w, a.c).Holding? || PhaseOf(w, a.c).Lost?)
    ensures Enabled(w, a) && WorldInv(Step(w, a)) && Grows(w, Step(w, a)) && SameFates(w, Step(w, a), a.c)
    ensures PhaseOf(Step(w, a), a.c).Idle?
    ensures a.applied ==> PhaseOf(w, a.c).id !in Step(w, a).daemon.reservations
    ensures a.applied ==> Orphaned(Step(w, a), a.c) == Orphaned(w, a.c)
  {
    hide Justified, Stored, PhaseOk, Causes, SoundPlan, Decide;
    StepKeepsInv(w, a);
    StepGrows(w, a);
  }

  lemma OwnSurface(w: World, a: Action)
    requires WorldInv(w) && (a.Surfaces? || a.Fails?) && PhaseOf(w, a.c).Holding?
    ensures Enabled(w, a) && WorldInv(Step(w, a)) && Grows(w, Step(w, a))
    ensures Orphaned(Step(w, a), a.c) == Orphaned(w, a.c)
    ensures var id := PhaseOf(w, a.c).id;
            PhaseOf(Step(w, a), a.c) == (if a.Surfaces? then Surfaced(id) else Lost(id))
            && OwnFate(Step(w, a), a.c, id, a.Surfaces?) && Step(w, a).daemon == w.daemon
  {
    hide Next, Justified, Stored, Causes, SoundPlan;
    assert PhaseOk(w, a.c);
    StepKeepsInv(w, a);
    StepGrows(w, a);
  }

  lemma OwnCommit(w: World, a: Action)
    requires WorldInv(w) && a.Commits? && PhaseOf(w, a.c).Surfaced?
    ensures Enabled(w, a) && WorldInv(Step(w, a)) && Grows(w, Step(w, a)) && SameFates(w, Step(w, a), a.c)
    ensures PhaseOf(Step(w, a), a.c).Idle?
    ensures a.applied ==> Orphaned(Step(w, a), a.c) == Orphaned(w, a.c)
    ensures var v, id := Step(w, a), PhaseOf(w, a.c).id;
            && id in v.plans
            && (a.applied ==> v.daemon == Next(w.daemon, Op.Commit(id)))
            && (a.applied && Take(w.daemon, id).Some? ==> v.plans[id].candidates <= v.daemon.claimed)
  {
    hide Justified, Causes, SoundPlan, Decide;
    StepKeepsInv(w, a);
    StepGrows(w, a);
    assert PhaseOk(w, a.c);
    var id := PhaseOf(w, a.c).id;
    if id in w.daemon.reservations { assert Stored(w, id); }
  }

  function PreviewStep(w: World): World { w.(daemon := Prune(w.daemon)) }

  lemma PreviewKeeps(w: World, me: nat)
    requires WorldInv(w)
    ensures WorldInv(PreviewStep(w)) && Keeps(w, PreviewStep(w), me)
  {
    var a := Env(Op.Preview);
    StepKeepsInv(w, a);
    assert Causes(w, w.daemon.claimed, Directly) == w.causes;
    assert Step(w, a) == PreviewStep(w);
    ForeignKeeps(w, me, a);
  }

  lemma KeepsOn(u: World, v: World, w: World, me: nat)
    requires Keeps(u, v, me) && Keeps(v, w, me)
    ensures Keeps(u, w, me)
  {
  }
}
