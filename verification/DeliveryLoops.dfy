/** The sized-reserve loop of both transports and the two cycles built on it:
    reserve, re-check the fit, surface, and only then commit. */
module DeliveryLoops {
  import opened Options
  import opened Utf16
  import opened DeliveryBlocks
  import opened DeliveryRender
  import opened DeliveryDaemon
  import opened DeliverySystem
  import opened DeliveryLink

  const MAX_RESERVE_ATTEMPTS := 3

  datatype Request = Request(maxEvents: Option<int>, moreDeferred: bool)

  datatype Failure = Previewing | Reserving | Releasing

  datatype Verdict = Accept(moreDeferred: bool) | Retry(cap: nat) | GiveUp(at: Failure)

  datatype Sized = Unavailable(at: Failure) | Empty | Exhausted | Sized(id: nat, claim: Claim, moreDeferred: bool)

  // ----- the arithmetic of one attempt -----

  /** How many events an attempt asks for. */
  function RequestFor(t: Transport, w: Wording, preview: seq<Event>, reminder: Option<Text>,
                      forcedCap: Option<nat>, isLast: bool): Request {
    if isLast then Request(Some(1), |preview| > 1)
    else if preview != [] then
      var fit := PackEventsUnderCap(t, w, preview, MaxContent(t) - ReminderReserve(reminder));
      var capped := if forcedCap.Some? then Min(fit, forcedCap.value) else fit;
      var asked := Max(1, capped);
      Request(Some(asked), asked < |preview|)
    else if forcedCap.Some? then Request(Some(forcedCap.value), false)
    else Request(None, false)
  }

  /** What a request may ask for: never more than a forced cap, one at the end. */
  predicate Modest(request: Request, forcedCap: Option<nat>, isLast: bool) {
    && (isLast ==> request.maxEvents == Some(1))
    && (forcedCap.Some? ==> request.maxEvents.Some? && request.maxEvents.value <= Max(1, forcedCap.value))
  }

  lemma RequestIsModest(t: Transport, w: Wording, preview: seq<Event>, reminder: Option<Text>,
                        forcedCap: Option<nat>, isLast: bool)
    ensures Modest(RequestFor(t, w, preview, reminder, forcedCap, isLast), forcedCap, isLast)
  {
    hide PackEventsUnderCap;
  }

  /** A last attempt asks for one event. Any other asks, of the preview, for the
      longest prefix the loop accepts among those no longer than a forced cap, at least
      one event; and says more is deferred exactly when it leaves some of it out. */
  lemma RequestMeans(t: Transport, w: Wording, preview: seq<Event>, reminder: Option<Text>,
                     forcedCap: Option<nat>, isLast: bool)
    requires forcedCap.Some? ==> forcedCap.value >= 1
    ensures var request := RequestFor(t, w, preview, reminder, forcedCap, isLast);
            && (isLast ==> request.maxEvents == Some(1))
            && (!isLast && preview == [] ==>
                  request.maxEvents == if forcedCap.Some? then Some(forcedCap.value as int) else None)
            && (request.moreDeferred <==> request.maxEvents.Some? && preview != [] && |preview| > request.maxEvents.value)
    ensures !isLast && preview != [] ==>
              var request := RequestFor(t, w, preview, reminder, forcedCap, isLast);
              var longest := if forcedCap.Some? then Min(forcedCap.value, |preview|) else |preview|;
              && request.maxEvents.Some? && 1 <= request.maxEvents.value <= longest
              && (request.maxEvents.value < longest ==>
                    Accepts(t, w, Prefix(preview, request.maxEvents.value, reminder), true))
              && forall j :: request.maxEvents.value < j <= longest ==>
                   !Accepts(t, w, Prefix(preview, j, reminder), j < |preview|)
  {
    hide PackEventsUnderCap, Accepts, MaxContent, ReminderReserve;
    if preview != [] { FirstAttemptIsLargest(t, w, preview, reminder); }
  }

  function ClaimFitOf(t: Transport, w: Wording, claim: Claim, moreDeferred: bool): ClaimFit {
    ResolveClaimFit(t, w, claim.events, moreDeferred, MaxContent(t) - ReminderReserve(claim.reminder), w.deferred)
  }

  /** Every mismatch tightens the cap: a claim that obeyed a request but does not
      fit yields a cap below what was asked, and below any cap forced before. */
  lemma MismatchTightens(t: Transport, w: Wording, claim: Claim, moreDeferred: bool,
                         request: Request, forcedCap: Option<nat>, isLast: bool)
    requires claim.events != [] && claim.lifecycle.TurnInterruptible?
    requires Modest(request, forcedCap, isLast) && Obeys(claim, TurnInterruptible, request.maxEvents)
    requires !ClaimFitOf(t, w, claim, moreDeferred).fits
    ensures var cap := Max(1, ClaimFitOf(t, w, claim, moreDeferred).includedCount);
            && 1 <= cap < |claim.events|
            && (request.maxEvents.Some? ==> cap < request.maxEvents.value)
            && (forcedCap.Some? ==> cap < forcedCap.value)
            && !isLast
  {
    hide ResolveClaimFit, MaxContent, ReminderReserve, Assembled, Renders;
    FitMeans(t, w, claim.events, moreDeferred, MaxContent(t) - ReminderReserve(claim.reminder), w.deferred);
  }

  /** Undisturbed, the first request comes back whole and passes the fit test. */
  lemma PackedFits(t: Transport, w: Wording, preview: seq<Event>, cap: int)
    requires preview != []
    ensures var k := PackEventsUnderCap(t, w, preview, cap);
            && 1 <= k <= |preview|
            && ResolveClaimFit(t, w, preview[..k], k < |preview|, cap, w.deferred).fits
  {
    hide Assembled;
    var k := PackEventsUnderCap(t, w, preview, cap);
    FitsIffSmall(t, w, preview, cap);
    FitCountMonotone(t, w, preview, cap - |w.deferred|, cap);
    FitMeans(t, w, preview[..k], k < |preview|, cap, w.deferred);
    assert preview[..|preview|] == preview;
  }

  predicate Remains(preview: seq<Event>, claim: Claim) {
    exists e :: e in preview && e.id !in Ids(claim.events)
  }

  /** An event whose id none of the claim's events has. */
  lemma RemainsMeans(preview: seq<Event>, claim: Claim)
    ensures Remains(preview, claim) <==> exists e :: e in preview && forall f :: f in claim.events ==> f.id != e.id
  {
    forall e: Event ensures e.id in Ids(claim.events) <==> exists f :: f in claim.events && f.id == e.id {
      NamedMeans(claim.events, e.id);
    }
  }

  lemma NamedMeans(events: seq<Event>, id: Text)
    ensures id in Ids(events) <==> exists f :: f in events && f.id == id
  {
    if f :| f in events && f.id == id {
      var i :| 0 <= i < |events| && events[i] == f;
      assert Ids(events)[i] == id;
    }
    if id in Ids(events) {
      var i :| 0 <= i < |Ids(events)| && Ids(events)[i] == id;
      assert events[i] in events;
    }
  }

  /** Once the whole preview is leased, no settled event is left to defer. */
  lemma NothingRemains(d: Daemon, id: nat, session: nat, maxEvents: Option<int>)
    requires id !in d.reservations
    requires Decide(Prune(d), session, TurnInterruptible, maxEvents).Some?
    requires Decide(Prune(d), session, TurnInterruptible, maxEvents).value.claim.events == PreviewSettledHigh(d, session)
    ensures !Remains(PreviewSettledHigh(Next(d, Reserve(id, session, TurnInterruptible, maxEvents)), session),
                     Decide(Prune(d), session, TurnInterruptible, maxEvents).value.claim)
  {
    hide Decide;
    var claim := Decide(Prune(d), session, TurnInterruptible, maxEvents).value.claim;
    var q := Next(d, Reserve(id, session, TurnInterruptible, maxEvents));
    forall e | e in PreviewSettledHigh(q, session) ensures e.id in Ids(claim.events) {
      var r :| r in SettledHigh(q, session) && r.event == e;
      ReservingOnlyHides(d, id, session, maxEvents, r);
      var i :| 0 <= i < |SettledHigh(d, session)| && SettledHigh(d, session)[i] == r;
      assert claim.events[i] == e && Ids(claim.events)[i] == e.id;
    }
  }

  lemma ReservingOnlyHides(d: Daemon, id: nat, session: nat, maxEvents: Option<int>, r: Row)
    requires id !in d.reservations
    requires r in SettledHigh(Next(d, Reserve(id, session, TurnInterruptible, maxEvents)), session)
    ensures r in SettledHigh(d, session)
  {
    hide Decide, Leased;
    LeasesStay(d, id, session, maxEvents, r.Key());
  }

  lemma LeasesStay(d: Daemon, id: nat, session: nat, maxEvents: Option<int>, key: RowKey)
    requires id !in d.reservations
    ensures Leased(d, key) ==> Leased(Next(d, Reserve(id, session, TurnInterruptible, maxEvents)), key)
  {
    hide Decide;
    var q := Next(d, Reserve(id, session, TurnInterruptible, maxEvents));
    forall i | i in d.reservations && Live(d.reservations[i], d.now) && key in d.reservations[i].candidates
      ensures Leased(q, key)
    {
      assert i in q.reservations;
    }
  }

  // ----- one attempt -----

  ghost predicate SameHoldings(w: World, v: World, me: nat) {
    Grows(w, v) && SameFates(w, v, me) && Orphaned(v, me) == Orphaned(w, me)
  }

  lemma HoldingsOn(u: World, v: World, w: World, me: nat)
    requires SameHoldings(u, v, me) && SameHoldings(v, w, me)
    ensures SameHoldings(u, w, me)
  {
    GrowsOn(u, v, w);
    FatesOn(u, v, w, me);
  }

  lemma KeptHoldings(w: World, v: World, me: nat)
    requires Keeps(w, v, me)
    ensures SameHoldings(w, v, me) && PhaseOf(v, me) == PhaseOf(w, me)
  {
  }

  /** Some call numbered from `from` up to `to` failed. */
  ghost predicate Faulted(link: Link, from: nat, to: nat) {
    exists n :: from <= n < to && !link.env(n).fault.NoFault?
  }

  /** The flag a rendering is given about settled work beyond the claim is true at
      the moment it is given, unless sizing already knew of more. */
  ghost predicate Signposts(d: Daemon, session: nat, claim: Claim, moreDeferred: bool) {
    claim.events != [] && !moreDeferred ==>
      forall e :: e in PreviewSettledHigh(d, session) ==> exists f :: f in claim.events && f.id == e.id
  }

  /** Preview, then decide how much to ask for. */
  method Size(link: Link, t: Transport, w: Wording, session: nat, lifecycle: Lifecycle,
              forcedCap: Option<nat>, isLast: bool) returns (request: Option<Request>)
    requires link.Ready()
    modifies link
    ensures link.Ready() && SameHoldings(old(link.world), link.world, link.me)
    ensures request.Some? && lifecycle.TurnInterruptible? ==> Modest(request.value, forcedCap, isLast)
    ensures request.Some? && !lifecycle.TurnInterruptible? ==> request.value == Request(None, false)
    ensures link.calls >= old(link.calls) && (request.None? ==> Faulted(link, old(link.calls), link.calls))
    ensures old(link.Calm()) && lifecycle.TurnInterruptible? ==>
              var d := old(link.world).daemon;
              && link.Calm() && link.world.daemon == Prune(d)
              && request == Some(RequestFor(t, w, PreviewSettledHigh(d, session), PreviewReminder(d, session),
                                            forcedCap, isLast))
  {
    hide WorldInv, Keeps, Grows, SameFates, Orphaned, RequestFor, Modest, SameHoldings, Interfere, PreviewStep;
    ghost var w0 := link.world;
    if !lifecycle.TurnInterruptible? {
      NoChange(w0, link.me);
      return Some(Request(None, false));
    }
    var preview := link.PreviewHigh(session);
    ghost var w1 := link.world;
    KeptHoldings(w0, w1, link.me);
    if preview.None? {
      return None;
    }
    var reminder := link.PreviewCoalesced(session);
    KeptHoldings(w1, link.world, link.me);
    HoldingsOn(w0, w1, link.world, link.me);
    if reminder.None? {
      return None;
    }
    PruneHidesNothing(w0.daemon, session, lifecycle, None);
    PruneTwice(w0.daemon);
    RequestIsModest(t, w, preview.value, reminder.value, forcedCap, isLast);
    request := Some(RequestFor(t, w, preview.value, reminder.value, forcedCap, isLast));
  }

  lemma NoChange(w: World, me: nat)
    ensures SameHoldings(w, w, me)
  {
  }

  lemma PruneTwice(d: Daemon)
    ensures Prune(Prune(d)) == Prune(d)
  {
  }

  /** Re-check the reservation actually granted: keep it if it renders whole
      under the final `moreDeferred`, otherwise release it and tighten the cap. */
  method Judge(link: Link, t: Transport, w: Wording, session: nat, claim: Claim, moreDeferred: bool)
    returns (verdict: Verdict)
    requires WorldInv(link.world) && PhaseOf(link.world, link.me).Holding? && PhaseOf(link.world, link.me).claim == claim
    requires claim.events != []
    modifies link
    ensures WorldInv(link.world) && Grows(old(link.world), link.world)
    ensures verdict.Accept? ==> PhaseOf(link.world, link.me) == PhaseOf(old(link.world), link.me)
                                && SameHoldings(old(link.world), link.world, link.me)
                                && ClaimFitOf(t, w, claim, verdict.moreDeferred).fits
                                && (moreDeferred ==> verdict.moreDeferred)
    ensures verdict.Accept? && !moreDeferred ==>
              (verdict.moreDeferred <==>
                 exists e :: e in PreviewSettledHigh(link.world.daemon, session)
                             && forall f :: f in claim.events ==> f.id != e.id)
    ensures verdict.Retry? ==> PhaseOf(link.world, link.me).Idle? && SameHoldings(old(link.world), link.world, link.me)
                               && var md := moreDeferred || ClaimFitOf(t, w, claim, moreDeferred).fits;
                                  && !ClaimFitOf(t, w, claim, md).fits
                                  && verdict.cap == Max(1, ClaimFitOf(t, w, claim, md).includedCount)
    ensures link.calls >= old(link.calls) && (verdict.GiveUp? ==> Faulted(link, old(link.calls), link.calls))
    ensures verdict.GiveUp? ==> PhaseOf(link.world, link.me).Idle?
                                && (verdict.at.Releasing? || SameHoldings(old(link.world), link.world, link.me))
    ensures old(link.Calm()) && ClaimFitOf(t, w, claim, moreDeferred).fits
            && (moreDeferred || !Remains(PreviewSettledHigh(old(link.world).daemon, session), claim)) ==>
              link.Calm() && verdict == Accept(moreDeferred)
              && (link.world == old(link.world) || link.world.daemon == Prune(old(link.world).daemon))
  {
    hide WorldInv, Keeps, Grows, SameFates, Orphaned, SameHoldings, ClaimFitOf, Remains, Prune, Interfere, PreviewStep,
      PreviewSettledHigh;
    ghost var w0 := link.world;
    NoChange(w0, link.me);
    var fit := ClaimFitOf(t, w, claim, moreDeferred);
    if fit.fits {
      if moreDeferred {
        return Accept(true);
      }
      var settled := link.PreviewHigh(session);
      KeptHoldings(w0, link.world, link.me);
      if settled.None? {
        verdict := LetGo(link, w0, GiveUp(Previewing));
        return;
      }
      RemainsMeans(settled.value, claim);
      if !Remains(settled.value, claim) {
        return Accept(false);
      }
      var finalFit := ClaimFitOf(t, w, claim, true);
      if finalFit.fits {
        return Accept(true);
      }
      verdict := LetGo(link, w0, Retry(Max(1, finalFit.includedCount)));
      return;
    }
    verdict := LetGo(link, w0, Retry(Max(1, fit.includedCount)));
  }

  /** Release before going on; a failed release ends the loop. */
  method LetGo(link: Link, ghost before: World, onward: Verdict) returns (verdict: Verdict)
    requires WorldInv(link.world) && PhaseOf(link.world, link.me).Holding?
    requires SameHoldings(before, link.world, link.me)
    modifies link
    ensures WorldInv(link.world) && Grows(before, link.world) && PhaseOf(link.world, link.me).Idle?
    ensures link.calls == old(link.calls) + 1
    ensures if link.env(old(link.calls)).fault.NoFault? then verdict == onward && SameHoldings(before, link.world, link.me)
            else verdict == GiveUp(Releasing)
  {
    hide WorldInv, Grows, SameFates, Orphaned, Interfere, Do;
    ghost var held := link.world;
    var released := link.Release();
    GrowsOn(before, held, link.world);
    if released {
      HoldingsOn(before, held, link.world, link.me);
      return onward;
    }
    return GiveUp(Releasing);
  }

  // ----- the loop -----

  /** What holds once the loop has decided. */
  ghost predicate Decided(t: Transport, w: Wording, lifecycle: Lifecycle, before: World, after: World, me: nat,
                          sized: Sized) {
    && WorldInv(after) && Grows(before, after)
    && match sized
       case Sized(id, claim, moreDeferred) =>
         && PhaseOf(after, me) == Holding(id, claim) && before.nextId <= id
         && SameHoldings(before, after, me) && claim.lifecycle == lifecycle && Renders(claim)
         && (claim.events == [] ==> !moreDeferred)
         && (claim.events != [] && lifecycle.TurnInterruptible? ==> Accepts(t, w, claim, moreDeferred))
       case Empty => PhaseOf(after, me).Idle? && SameHoldings(before, after, me)
       case Unavailable(at) => PhaseOf(after, me).Idle? && (at.Previewing? ==> SameHoldings(before, after, me))
       case Exhausted => PhaseOf(after, me).Idle? && SameHoldings(before, after, me)
  }

  /** Undisturbed, the outcome is fixed by the daemon's state at the start. */
  ghost predicate Undisturbed(t: Transport, w: Wording, d: Daemon, session: nat, sized: Sized) {
    var preview, reminder := PreviewSettledHigh(d, session), PreviewReminder(d, session);
    var k := PackEventsUnderCap(t, w, preview, MaxContent(t) - ReminderReserve(reminder));
    if preview == [] then sized.Empty? || (sized.Sized? && sized.claim.events == [])
    else sized.Sized? && k <= |preview| && sized.claim.events == preview[..k]
         && sized.claim.reminder == reminder && sized.moreDeferred == (k < |preview|)
  }

  /** What an undisturbed first attempt asks for, and what the daemon decides. */
  ghost function FirstRequest(t: Transport, w: Wording, d: Daemon, session: nat): Option<int> {
    RequestFor(t, w, PreviewSettledHigh(d, session), PreviewReminder(d, session), None, false).maxEvents
  }

  ghost function FirstDecision(t: Transport, w: Wording, d: Daemon, session: nat): Option<Decision> {
    Decide(d, session, TurnInterruptible, FirstRequest(t, w, d, session))
  }

  /** Undisturbed, the loop leaves the daemon as one reserve would. */
  ghost predicate AsReserved(d: Daemon, session: nat, maxEvents: Option<int>, v: World, sized: Sized) {
    var decision := Decide(d, session, TurnInterruptible, maxEvents);
    && (sized.Sized? <==> decision.Some?)
    && (sized.Sized? ==>
          && sized.claim == decision.value.claim && sized.id !in d.reservations
          && v.daemon == Next(d, Op.Reserve(sized.id, session, TurnInterruptible, maxEvents))
          && sized.id in v.plans && v.plans[sized.id].candidates == Keys(decision.value.candidates))
    && (!sized.Sized? ==> v.daemon == Prune(d))
  }

  /** The sized-reserve loop. Whatever interferes, it never runs out of
      attempts, leaves no lease but the one it returns unless its own call
      failed, and returns only claims that pass the fit test. Undisturbed, it
      accepts its first attempt. */
  method ReserveSized(link: Link, t: Transport, w: Wording, session: nat, lifecycle: Lifecycle)
    returns (sized: Sized, attempts: nat)
    requires link.Ready() && (t.Channel? ==> lifecycle.TurnInterruptible?)
    modifies link
    ensures Decided(t, w, lifecycle, old(link.world), link.world, link.me, sized) && !sized.Exhausted?
    ensures 1 <= attempts <= 3
    ensures Outcomes(link, old(link.calls), session, lifecycle, sized)
    ensures old(link.Calm()) && lifecycle.TurnInterruptible? ==>
              && attempts == 1 && Undisturbed(t, w, old(link.world).daemon, session, sized)
              && link.Calm()
              && AsReserved(old(link.world).daemon, session, FirstRequest(t, w, old(link.world).daemon, session),
                            link.world, sized)
  {
    hide WorldInv, Grows, SameHoldings, Undisturbed, FirstRequest, AsReserved, Outcomes;
    ghost var w0 := link.world;
    NoChange(w0, link.me);
    var forcedCap: Option<nat> := None;
    sized, attempts := Exhausted, 0;
    while attempts < MAX_RESERVE_ATTEMPTS && sized.Exhausted?
      invariant Decided(t, w, lifecycle, w0, link.world, link.me, sized)
      invariant attempts <= MAX_RESERVE_ATTEMPTS && (sized.Exhausted? ==> attempts < MAX_RESERVE_ATTEMPTS)
      invariant forcedCap.Some? ==> 1 <= forcedCap.value
      invariant link.calls >= old(link.calls)
      invariant attempts > 0 ==> Outcomes(link, old(link.calls), session, lifecycle, sized)
      invariant attempts == 0 ==> sized.Exhausted? && forcedCap.None? && link.world == w0 && link.calls == old(link.calls)
      invariant attempts > 0 && old(link.Calm()) && lifecycle.TurnInterruptible? ==>
                  && attempts == 1 && !sized.Exhausted? && Undisturbed(t, w, w0.daemon, session, sized)
                  && link.Calm()
                  && AsReserved(w0.daemon, session, FirstRequest(t, w, w0.daemon, session), link.world, sized)
    {
      attempts := attempts + 1;
      ghost var before, from := link.world, link.calls;
      sized, forcedCap := Attempt(link, t, w, session, lifecycle, forcedCap, attempts == MAX_RESERVE_ATTEMPTS);
      DecidedOn(t, w, lifecycle, w0, before, link.world, link.me, sized);
      OutcomesOn(link, old(link.calls), from, session, lifecycle, sized);
    }
  }

  /** What an outcome tells the caller: nothing pending, a failed call, or a claim
      whose deferred flag is true of the daemon as it now is. */
  ghost predicate Outcomes(link: Link, from: nat, session: nat, lifecycle: Lifecycle, sized: Sized)
    reads link
  {
    match sized
    case Empty => Decide(link.world.daemon, session, lifecycle, None).None?
    case Unavailable(_) => Faulted(link, from, link.calls)
    case Sized(_, claim, moreDeferred) =>
      lifecycle.TurnInterruptible? ==> Signposts(link.world.daemon, session, claim, moreDeferred)
    case Exhausted => true
  }

  lemma OutcomesOn(link: Link, from: nat, later: nat, session: nat, lifecycle: Lifecycle, sized: Sized)
    requires from <= later && Outcomes(link, later, session, lifecycle, sized)
    ensures Outcomes(link, from, session, lifecycle, sized)
  {
    hide Decide, Signposts;
  }

  lemma DecidedOn(t: Transport, w: Wording, lifecycle: Lifecycle, u: World, v: World, x: World, me: nat, sized: Sized)
    requires SameHoldings(u, v, me) && Decided(t, w, lifecycle, v, x, me, sized)
    ensures Decided(t, w, lifecycle, u, x, me, sized)
  {
    hide WorldInv, SameFates, Orphaned;
    GrowsOn(u, v, x);
    if SameHoldings(v, x, me) { HoldingsOn(u, v, x, me); }
  }

  /** One pass of the loop; `Exhausted` means another attempt is needed, with a
      cap strictly below any forced before. */
  method Attempt(link: Link, t: Transport, w: Wording, session: nat, lifecycle: Lifecycle,
                 forcedCap: Option<nat>, isLast: bool) returns (sized: Sized, nextCap: Option<nat>)
    requires link.Ready() && (forcedCap.Some? ==> 1 <= forcedCap.value)
    modifies link
    ensures Decided(t, w, lifecycle, old(link.world), link.world, link.me, sized)
    ensures nextCap.Some? ==> 1 <= nextCap.value
    ensures sized.Exhausted? ==> !isLast && nextCap.Some? && (forcedCap.Some? ==> nextCap.value < forcedCap.value)
    ensures link.calls >= old(link.calls) && Outcomes(link, old(link.calls), session, lifecycle, sized)
    ensures old(link.Calm()) && lifecycle.TurnInterruptible? && forcedCap.None? && !isLast ==>
              && !sized.Exhausted? && Undisturbed(t, w, old(link.world).daemon, session, sized)
              && link.Calm()
              && AsReserved(old(link.world).daemon, session, FirstRequest(t, w, old(link.world).daemon, session),
                            link.world, sized)
  {
    hide Take, AsReserved, CalmReserve, WorldInv, Grows, SameHoldings, Remains, RequestFor, Modest, ClaimFitOf, Renders,
      Prune, Decide, Next, SameFates, Orphaned, Accepts, PreviewSettledHigh, PreviewReminder, PackEventsUnderCap,
      MaxContent, ReminderReserve, Interfere, Do, Faulted, Signposts;
    ghost var w0, c0 := link.world, link.calls;
    nextCap := forcedCap;
    var request := Size(link, t, w, session, lifecycle, forcedCap, isLast);
    ghost var w1, c1 := link.world, link.calls;
    HoldingsGrow(w0, w1, link.me);
    if request.None? {
      return Unavailable(Previewing), nextCap;
    }
    var answer := link.Reserve(session, lifecycle, request.value.maxEvents);
    ghost var w2, c2 := link.world, link.calls;
    GrowsOn(w0, w1, w2);
    if old(link.Calm()) && lifecycle.TurnInterruptible? && forcedCap.None? && !isLast {
      GrantIsReserve(w0, w1, w2, session, request.value.maxEvents, answer);
      CalmGrant(t, w, w0.daemon, session, w1.nextId);
    }
    if answer.Unreachable? {
      FaultAt(link, c0, c1, c2);
      return Unavailable(Reserving), nextCap;
    }
    ReservingHoldings(w0, w1, w2, link.me);
    if answer.Nothing? {
      WithheldForAny(w2.daemon, session, lifecycle, request.value.maxEvents);
      return Empty, nextCap;
    }
    sized, nextCap := Examine(link, t, w, session, lifecycle, answer.id, answer.claim, request.value, forcedCap, isLast);
    GrowsOn(w0, w2, link.world);
    FaultedOn(link, c0, c2, link.calls);
    if !sized.Unavailable? || sized.at.Previewing? { HoldingsOn(w0, w2, link.world, link.me); }
    if sized.Sized? { ReservedOn(w0.daemon, session, request.value.maxEvents, w2, link.world, answer, sized); }
  }

  lemma FaultAt(link: Link, from: nat, n: nat, to: nat)
    requires from <= n < to
    ensures !link.env(n).fault.NoFault? ==> Faulted(link, from, to)
  {
  }

  lemma FaultedOn(link: Link, from: nat, later: nat, to: nat)
    requires from <= later
    ensures Faulted(link, later, to) ==> Faulted(link, from, to)
  {
  }

  /** Whether anything is decided does not depend on `maxEvents`. */
  lemma WithheldForAny(d: Daemon, session: nat, lifecycle: Lifecycle, maxEvents: Option<int>)
    ensures Decide(d, session, lifecycle, maxEvents).None? <==> Decide(d, session, lifecycle, None).None?
  {
    hide SettledHigh, Available, LeasedPending, Select;
  }

  /** A reserve after a prune is a reserve. */
  lemma GrantIsReserve(w: World, p: World, v: World, session: nat, maxEvents: Option<int>, answer: ReserveAnswer)
    requires WorldInv(w) && Grows(w, p) && p.daemon == Prune(w.daemon)
    requires CalmReserve(p, v, session, TurnInterruptible, maxEvents, answer)
    ensures var decision := Decide(Prune(p.daemon), session, TurnInterruptible, maxEvents);
            && p.nextId !in p.daemon.reservations
            && v.daemon == Next(p.daemon, Op.Reserve(p.nextId, session, TurnInterruptible, maxEvents))
            && (if decision.None? then answer.Nothing? else answer == Reserved(p.nextId, decision.value.claim))
    ensures answer.Nothing? ==> AsReserved(w.daemon, session, maxEvents, v, Empty)
    ensures answer.Reserved? ==> AsReserved(w.daemon, session, maxEvents, v, Sized(answer.id, answer.claim, false))
  {
    hide Decide, Justified, PhaseOk;
    assert forall id :: id in w.daemon.reservations ==> Stored(w, id);
    PruneTwice(w.daemon);
    PruneHidesNothing(w.daemon, session, TurnInterruptible, maxEvents);
  }

  /** Later previews change neither the lease nor anything else. */
  lemma ReservedOn(d: Daemon, session: nat, maxEvents: Option<int>, v: World, x: World, answer: ReserveAnswer,
                   sized: Sized)
    requires answer.Reserved? && sized.Sized? && sized.id == answer.id && sized.claim == answer.claim && Grows(v, x)
    ensures AsReserved(d, session, maxEvents, v, Sized(answer.id, answer.claim, false))
            && (x.daemon == v.daemon || x.daemon == Prune(v.daemon)) ==>
              AsReserved(d, session, maxEvents, x, sized)
  {
    hide Decide, Prune;
    if AsReserved(d, session, maxEvents, v, Sized(answer.id, answer.claim, false)) {
      ReservedIsPruned(d, answer.id, session, maxEvents);
    }
  }

  lemma ReservedIsPruned(d: Daemon, id: nat, session: nat, maxEvents: Option<int>)
    requires id !in d.reservations
    ensures var q := Next(d, Op.Reserve(id, session, TurnInterruptible, maxEvents)); Prune(q) == q
  {
    hide Decide;
    PruneTwice(d);
  }

  /** What becomes of a granted reservation. */
  method Examine(link: Link, t: Transport, w: Wording, session: nat, lifecycle: Lifecycle, id: nat, claim: Claim,
                 request: Request, forcedCap: Option<nat>, isLast: bool) returns (sized: Sized, nextCap: Option<nat>)
    requires WorldInv(link.world) && PhaseOf(link.world, link.me) == Holding(id, claim)
    requires Obeys(claim, lifecycle, request.maxEvents)
    requires lifecycle.TurnInterruptible? ==> Modest(request, forcedCap, isLast)
    requires forcedCap.Some? ==> 1 <= forcedCap.value
    modifies link
    ensures WorldInv(link.world) && Grows(old(link.world), link.world) && !sized.Empty?
    ensures !sized.Unavailable? || sized.at.Previewing? ==> SameHoldings(old(link.world), link.world, link.me)
    ensures sized.Sized? ==> sized.id == id && sized.claim == claim && PhaseOf(link.world, link.me) == Holding(id, claim)
                             && (claim.events == [] ==> !sized.moreDeferred)
                             && (claim.events != [] && lifecycle.TurnInterruptible? ==>
                                   Accepts(t, w, claim, sized.moreDeferred))
    ensures !sized.Sized? ==> PhaseOf(link.world, link.me).Idle?
    ensures nextCap.Some? ==> 1 <= nextCap.value
    ensures sized.Exhausted? ==> !isLast && nextCap.Some? && (forcedCap.Some? ==> nextCap.value < forcedCap.value)
    ensures claim.events == [] ==> sized.Sized? && link.world == old(link.world) && link.calls == old(link.calls)
    ensures link.calls >= old(link.calls) && (sized.Unavailable? ==> Faulted(link, old(link.calls), link.calls))
    ensures sized.Sized? && lifecycle.TurnInterruptible? ==>
              Signposts(link.world.daemon, session, claim, sized.moreDeferred)
    ensures old(link.Calm()) && lifecycle.TurnInterruptible? && ClaimFitOf(t, w, claim, request.moreDeferred).fits
            && (request.moreDeferred || !Remains(PreviewSettledHigh(old(link.world).daemon, session), claim)) ==>
              && sized.Sized? && (claim.events != [] ==> sized.moreDeferred == request.moreDeferred)
              && link.Calm()
              && (link.world.daemon == old(link.world).daemon || link.world.daemon == Prune(old(link.world).daemon))
  {
    hide Prune, WorldInv, Grows, SameHoldings, Remains, Modest, ClaimFitOf, Accepts, PreviewSettledHigh;
    nextCap := forcedCap;
    NoChange(link.world, link.me);
    HoldingsGrow(link.world, link.world, link.me);
    if claim.events == [] {
      return Sized(id, claim, false), nextCap;
    }
    if !lifecycle.TurnInterruptible? {
      return Sized(id, claim, request.moreDeferred), nextCap;
    }
    var verdict := Judge(link, t, w, session, claim, request.moreDeferred);
    if verdict.GiveUp? {
      return Unavailable(verdict.at), nextCap;
    }
    if verdict.Accept? {
      FitIsAcceptance(t, w, claim, verdict.moreDeferred);
      return Sized(id, claim, verdict.moreDeferred), nextCap;
    }
    ghost var md := request.moreDeferred || ClaimFitOf(t, w, claim, request.moreDeferred).fits;
    MismatchTightens(t, w, claim, md, request, forcedCap, isLast);
    return Exhausted, Some(verdict.cap);
  }

  lemma FitIsAcceptance(t: Transport, w: Wording, claim: Claim, moreDeferred: bool)
    ensures Accepts(t, w, claim, moreDeferred) <==> ClaimFitOf(t, w, claim, moreDeferred).fits
  {
  }

  lemma ReservingHoldings(u: World, v: World, x: World, me: nat)
    requires SameHoldings(u, v, me) && Grows(v, x) && SameFates(v, x, me) && Orphaned(x, me) == Orphaned(v, me)
    ensures SameHoldings(u, x, me)
  {
    hide Orphaned, SameFates, Grows;
    GrowsOn(u, v, x);
    FatesOn(u, v, x, me);
  }

  /** What an undisturbed first attempt is granted passes every check. */
  lemma CalmGrant(t: Transport, w: Wording, d: Daemon, session: nat, id: nat)
    requires id !in Prune(d).reservations
    ensures var p := Prune(d);
            var preview, reminder := PreviewSettledHigh(d, session), PreviewReminder(d, session);
            var k := PackEventsUnderCap(t, w, preview, MaxContent(t) - ReminderReserve(reminder));
            var request := RequestFor(t, w, preview, reminder, None, false);
            var decision := Decide(Prune(p), session, TurnInterruptible, request.maxEvents);
            && (preview == [] && decision.Some? ==> decision.value.claim.events == [])
            && (preview != [] ==>
                  && decision.Some? && 1 <= k <= |preview|
                  && var claim := decision.value.claim;
                     && claim.events == preview[..k] && claim.reminder == reminder && claim.events != []
                     && request.moreDeferred == (k < |preview|)
                     && ClaimFitOf(t, w, claim, request.moreDeferred).fits
                     && (request.moreDeferred ||
                         var after := Next(p, Reserve(id, session, TurnInterruptible, request.maxEvents));
                         !Remains(PreviewSettledHigh(after, session), claim)))
  {
    hide Remains, ResolveClaimFit, PackEventsUnderCap, SettledHigh, ReminderDue, Available, Next, MaxContent,
      ReminderReserve;
    var p := Prune(d);
    var preview, reminder := PreviewSettledHigh(d, session), PreviewReminder(d, session);
    var request := RequestFor(t, w, preview, reminder, None, false);
    PruneTwice(d);
    PruneHidesNothing(d, session, TurnInterruptible, request.maxEvents);
    var decision := Decide(p, session, TurnInterruptible, request.maxEvents);
    if decision.Some? { ClaimMatchesPreview(p, session, request.maxEvents); }
    if preview != [] {
      PackedFits(t, w, preview, MaxContent(t) - ReminderReserve(reminder));
      assert SettledHigh(p, session) != [];
      if !request.moreDeferred {
        assert preview[..|preview|] == preview;
        NothingRemains(p, id, session, request.maxEvents);
      }
    }
  }

  lemma HoldingsGrow(w: World, v: World, me: nat)
    requires SameHoldings(w, v, me)
    ensures Grows(w, v)
  {
  }

  /** When holdings are unchanged, the only lease gained is the one held. */
  lemma OnlyTheHeldLease(before: World, after: World, me: nat, id: nat)
    requires WorldInv(before) && WorldInv(after) && SameHoldings(before, after, me)
    requires id in after.daemon.reservations && id in after.owner && after.owner[id] == me && id !in before.plans
    ensures !PhaseOf(after, me).Idle? && PhaseOf(after, me).id == id
  {
    assert Stored(after, id) && id !in Orphaned(before, me);
  }

  // ----- surface, then commit -----

  datatype Outcome = Delivered | Uncommitted | SurfaceFailed | CommitUncertain

  lemma SomethingToSurface(t: Transport, w: Wording, claim: Claim, moreDeferred: bool)
    requires Renders(claim)
    ensures Render(t, w, claim, moreDeferred).Some?
  {
  }

  /** No commit ever claims the rows of a reservation that failed to surface. */
  lemma FailedNeverClaims(w: World, me: nat, id: nat)
    requires WorldInv(w) && OwnFate(w, me, id, false)
    ensures forall k :: k in w.daemon.claimed ==> Justified(w, k) && w.causes[k] != ByCommit(id)
  {
  }

  /** Write or push the rendering; commit only if that succeeded, otherwise give
      the reservation back. The answer of that release is not waited for. */
  method SurfaceAndCommit(link: Link, t: Transport, w: Wording, moreDeferred: bool)
    returns (outcome: Outcome, text: Text)
    requires WorldInv(link.world) && PhaseOf(link.world, link.me).Holding? && Renders(PhaseOf(link.world, link.me).claim)
    modifies link
    ensures link.Ready() && Grows(old(link.world), link.world)
    ensures var held := PhaseOf(old(link.world), link.me);
            && Some(text) == Render(t, w, held.claim, moreDeferred)
            && OwnFate(link.world, link.me, held.id, !outcome.SurfaceFailed?)
            && held.id in link.world.plans
            && (outcome.Delivered? ==> link.world.plans[held.id].candidates <= link.world.daemon.claimed)
    ensures outcome.SurfaceFailed? <==> !link.env(old(link.calls)).fault.NoFault?
    ensures outcome.CommitUncertain? ==> !link.env(old(link.calls) + 1).fault.NoFault?
    ensures outcome.SurfaceFailed? && !link.env(old(link.calls) + 1).fault.BeforeEffect? ==>
              PhaseOf(old(link.world), link.me).id !in link.world.daemon.reservations
    ensures outcome.Delivered? || outcome.Uncommitted? ==>
              Orphaned(link.world, link.me) == Orphaned(old(link.world), link.me)
    ensures old(link.Calm()) ==>
              && outcome == (if InTime(old(link.world).daemon, PhaseOf(old(link.world), link.me).id)
                             then Delivered else Uncommitted)
              && link.Calm()
              && link.world.daemon == Next(old(link.world).daemon, Op.Commit(PhaseOf(old(link.world), link.me).id))
    ensures outcome.SurfaceFailed? ==>
              forall k :: k in link.world.daemon.claimed ==>
                Justified(link.world, k) && link.world.causes[k] != ByCommit(PhaseOf(old(link.world), link.me).id)
  {
    hide InTime, Next, WorldInv, Grows, SameFates, Orphaned, Render, OwnFate, Renders, Interfere, Do;
    ghost var w0 := link.world;
    var id, claim := PhaseOf(link.world, link.me).id, PhaseOf(link.world, link.me).claim;
    SomethingToSurface(t, w, claim, moreDeferred);
    text := Render(t, w, claim, moreDeferred).value;
    var surfaced := link.Surface();
    ghost var w1 := link.world;
    if !surfaced {
      var _ := link.Release();
      GrowsOn(w0, w1, link.world);
      FateStays(w1, link.world, link.me, id, false);
      FailedNeverClaims(link.world, link.me, id);
      FateHasPlan(link.world, link.me, id, false);
      return SurfaceFailed, text;
    }
    var answer := link.Commit();
    GrowsOn(w0, w1, link.world);
    FateStays(w1, link.world, link.me, id, true);
    match answer
    case Committed => outcome := Delivered;
    case Lapsed => outcome := Uncommitted;
    case Uncertain => outcome := CommitUncertain;
  }

  lemma FateHasPlan(w: World, me: nat, id: nat, ok: bool)
    requires WorldInv(w) && OwnFate(w, me, id, ok)
    ensures id in w.plans
  {
  }

  /** One delivery by either transport: the channel's poll cycle, or the hook's
      reserve, render, write, commit. `delivery` is absent when nothing was
      pending or a call failed before anything was surfaced. */
  method DeliverOnce(link: Link, t: Transport, w: Wording, session: nat, lifecycle: Lifecycle)
    returns (sized: Sized, delivery: Option<(Outcome, Text)>)
    requires link.Ready() && (t.Channel? ==> lifecycle.TurnInterruptible?)
    modifies link
    ensures link.Ready() && Grows(old(link.world), link.world) && !sized.Exhausted?
    ensures sized.Sized? <==> delivery.Some?
    ensures sized.Empty? ==> Orphaned(link.world, link.me) == Orphaned(old(link.world), link.me)
    ensures sized.Sized? ==>
              && Some(delivery.value.1) == Render(t, w, sized.claim, sized.moreDeferred)
              && (lifecycle.TurnInterruptible? && |sized.claim.events| > 1 && !HasReminder(sized.claim) ==>
                    ShownWhole(t, w, sized.claim, sized.moreDeferred) == |sized.claim.events|)
              && OwnFate(link.world, link.me, sized.id, !delivery.value.0.SurfaceFailed?)
              && sized.id in link.world.plans && link.world.plans[sized.id].claim == sized.claim
              && (delivery.value.0.Delivered? ==> link.world.plans[sized.id].candidates <= link.world.daemon.claimed)
              && (lifecycle.TurnInterruptible? && sized.claim.events != [] && sized.claim.reminder.None? ==>
                    forall k :: k in link.world.plans[sized.id].candidates ==> k.id in Ids(sized.claim.events))
    ensures old(link.Calm()) && lifecycle.TurnInterruptible? ==>
              var d := old(link.world).daemon;
              && link.Calm()
              && link.world.daemon == Next(d, DirectClaim(session, TurnInterruptible, FirstRequest(t, w, d, session)))
              && Undisturbed(t, w, d, session, sized) && (sized.Sized? <==> FirstDecision(t, w, d, session).Some?)
              && (sized.Sized? ==>
                    && delivery.value.0.Delivered? && sized.claim == FirstDecision(t, w, d, session).value.claim
                    && Keys(FirstDecision(t, w, d, session).value.candidates) <= link.world.daemon.claimed)
  {
    hide InTime, FirstRequest, AsReserved, Next, Undisturbed, Outcomes, WorldInv, Grows, SameFates, Orphaned, Render,
      OwnFate, Renders, Accepts, ShownWhole, HasReminder, SameHoldings, Decide, Prune;
    ghost var w0 := link.world;
    var attempts;
    sized, attempts := ReserveSized(link, t, w, session, lifecycle);
    if old(link.Calm()) && lifecycle.TurnInterruptible? {
      ReservedThenCommitted(w0.daemon, session, FirstRequest(t, w, w0.daemon, session), link.world, sized);
    }
    if !sized.Sized? {
      if sized.Empty? { HoldingsOrphans(w0, link.world, link.me); }
      return sized, None;
    }
    ghost var w1 := link.world;
    HeldPlan(w1, link.me);
    var outcome, text := SurfaceAndCommit(link, t, w, sized.moreDeferred);
    GrowsOn(w0, w1, link.world);
    PlansStay(w1, link.world, sized.id);
    if lifecycle.TurnInterruptible? && |sized.claim.events| > 1 && !HasReminder(sized.claim) {
      AcceptedIsShownWhole(t, w, sized.claim, sized.moreDeferred);
    }
    delivery := Some((outcome, text));
  }

  /** What an undisturbed loop reserved can be committed, and then all is as if
      it had been claimed directly. */
  lemma ReservedThenCommitted(d: Daemon, session: nat, maxEvents: Option<int>, v: World, sized: Sized)
    requires AsReserved(d, session, maxEvents, v, sized)
    ensures var decision := Decide(d, session, TurnInterruptible, maxEvents);
            var claimed := Next(d, DirectClaim(session, TurnInterruptible, maxEvents));
            && (sized.Sized? <==> decision.Some?)
            && (!sized.Sized? ==> v.daemon == claimed)
            && (sized.Sized? ==>
                  && InTime(v.daemon, sized.id) && Next(v.daemon, Op.Commit(sized.id)) == claimed
                  && sized.claim == decision.value.claim && Keys(decision.value.candidates) <= claimed.claimed)
  {
    hide Decide;
    PruneHidesNothing(d, session, TurnInterruptible, maxEvents);
    if sized.Sized? { ReserveCommitIsClaim(d, sized.id, session, TurnInterruptible, maxEvents); }
  }

  /** The claim a client holds is its plan's, and that plan claims only what it shows. */
  lemma HeldPlan(w: World, me: nat)
    requires WorldInv(w) && PhaseOf(w, me).Holding?
    ensures var held := PhaseOf(w, me);
            held.id in w.plans && w.plans[held.id].claim == held.claim && SoundPlan(w.plans[held.id])
  {
    assert PhaseOk(w, me);
  }

  lemma PlansStay(w: World, v: World, id: nat)
    requires Grows(w, v) && id in w.plans
    ensures id in v.plans && v.plans[id] == w.plans[id]
  {
  }

  lemma HoldingsOrphans(w: World, v: World, me: nat)
    requires SameHoldings(w, v, me)
    ensures Orphaned(v, me) == Orphaned(w, me)
  {
  }
}
