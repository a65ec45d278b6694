/** A delivery nobody disturbs that claims an event it never showed: the loops
    keep less free than a coalesced reminder's footer takes. */
module DeliveryOverflow {
  import opened Options
  import opened Utf16
  import opened DeliveryBlocks
  import opened DeliveryRender
  import opened DeliveryDaemon
  import opened DeliverySystem
  import opened DeliveryLink
  import opened DeliveryLoops

  const ONE: Text := [0x61]
  const TWO: Text := [0x62]
  const THREE: Text := [0x63]

  /** Two high-urgency events and one normal, all recorded at time 0. */
  function Arrivals(n: nat): seq<Row> {
    [Row(0, High, 0, Plain(ONE, n)), Row(0, High, 0, Plain(TWO, 0)), Row(0, Normal, 0, Plain(THREE, 0))]
  }

  /** The daemon once the high-urgency pair has settled. */
  function Settled(n: nat): Daemon { Daemon(Arrivals(n), {}, {}, map[], SETTLE_MS) }

  /** What the daemon decides then, for any `maxEvents` of two or more. */
  lemma SettledDecision(n: nat, maxEvents: Option<int>)
    requires maxEvents.Some? ==> maxEvents.value >= 2
    ensures var rows, d := Arrivals(n), Settled(n);
            && Decide(d, 0, TurnInterruptible, maxEvents) ==
               Some(Decision(rows, Claim(TurnInterruptible, EventsOf(rows[..2]), [], Some(REMINDER))))
            && PreviewSettledHigh(d, 0) == EventsOf(rows[..2]) && PreviewReminder(d, 0) == Some(REMINDER)
  {
    hide Plain, Available, LeasedPending, SettledHigh;
    var rows, d := Arrivals(n), Settled(n);
    BandViews(n);
    SettledView(n);
    assert rows[..2] + [rows[2]] == rows;
    assert rows[..2][..2] == rows[..2];
  }

  lemma BandViews(n: nat)
    ensures var rows, d := Arrivals(n), Settled(n);
            Available(d, 0, High) == rows[..2] && Available(d, 0, Normal) == [rows[2]] && LeasedPending(d, 0, Normal) == []
  {
    hide Plain, Select;
    var rows, d := Arrivals(n), Settled(n);
    forall key ensures !Leased(d, key) {}
    SelectThree(rows, (r: Row) => Pending(d, 0, High, r) && !Leased(d, r.Key()));
    SelectThree(rows, (r: Row) => Pending(d, 0, Normal, r) && !Leased(d, r.Key()));
    SelectThree(rows, (r: Row) => Pending(d, 0, Normal, r) && Leased(d, r.Key()));
  }

  lemma SettledView(n: nat)
    ensures SettledHigh(Settled(n), 0) == Arrivals(n)[..2]
  {
    hide Plain, Select, Available;
    BandViews(n);
    SelectTwo(Arrivals(n)[..2], (r: Row) => Settled(n).now - r.createdAt >= SETTLE_MS);
  }

  lemma SelectTwo(rows: seq<Row>, keep: Row -> bool)
    requires |rows| == 2
    ensures Select(rows, keep) == (if keep(rows[0]) then [rows[0]] else []) + (if keep(rows[1]) then [rows[1]] else [])
  {
    assert rows[1..] == [rows[1]] && rows[1..][1..] == [];
    assert Select(rows[1..], keep) == if keep(rows[1]) then [rows[1]] else [];
  }

  lemma SelectThree(rows: seq<Row>, keep: Row -> bool)
    requires |rows| == 3
    ensures Select(rows, keep) ==
            (if keep(rows[0]) then [rows[0]] else []) + (if keep(rows[1]) then [rows[1]] else [])
            + (if keep(rows[2]) then [rows[2]] else [])
  {
    SelectTwo(rows[1..], keep);
  }

  // ----- what is asked for -----

  function ClaimOf(n: nat): Claim {
    Claim(TurnInterruptible, [Plain(ONE, n), Plain(TWO, 0)], [], Some(REMINDER))
  }

  lemma ClaimIsDecided(n: nat)
    ensures EventsOf(Arrivals(n)[..2]) == ClaimOf(n).events
  {
  }

  /** What passes the fit test with nothing deferred is asked for in full. */
  lemma AsksForAll(t: Transport, w: Wording, events: seq<Event>, cap: int)
    requires |events| > 1 && ResolveClaimFit(t, w, events, false, cap, w.deferred).fits
    ensures PackEventsUnderCap(t, w, events, cap) == |events|
  {
    hide FitCount, ResolveClaimFit;
    FitMeans(t, w, events, false, cap, w.deferred);
    FitsIffSmall(t, w, events, cap);
  }

  lemma DecidesBoth(t: Transport, w: Wording, n: nat)
    requires Accepts(t, w, ClaimOf(n), false)
    ensures FirstDecision(t, w, Settled(n), 0) == Some(Decision(Arrivals(n), ClaimOf(n)))
  {
    hide Plain, ResolveClaimFit, PackEventsUnderCap, MaxContent, ReminderReserve, Decide, PreviewSettledHigh,
      PreviewReminder, Settled;
    ClaimIsDecided(n);
    AsksForAll(t, w, ClaimOf(n).events, MaxContent(t) - ReminderReserve(Some(REMINDER)));
    SettledDecision(n, Some(2));
  }

  // ----- reaching that daemon -----

  function Arrive(n: nat): seq<Action> {
    [Env(Record(Arrivals(n)[0], 0)), Env(Record(Arrivals(n)[1], 1)), Env(Record(Arrivals(n)[2], 2)), Env(Clock(SETTLE_MS))]
  }

  function WorldOf(rows: seq<Row>, now: int): World { Begin(0).(daemon := Daemon(rows, {}, {}, map[], now)) }

  lemma RecordsLast(rows: seq<Row>, row: Row)
    requires row.Key() !in Keys(rows)
    ensures var w, a := WorldOf(rows, 0), Env(Record(row, |rows|));
            Enabled(w, a) && Step(w, a) == WorldOf(rows + [row], 0)
  {
    var w, a := WorldOf(rows, 0), Env(Record(row, |rows|));
    assert rows[..|rows|] + [row] + rows[|rows|..] == rows + [row];
    assert Causes(w, {}, Directly) == map[];
  }

  /** The daemon is reached by recording the three and letting them settle. */
  lemma Reached(n: nat)
    ensures Interleaving(Begin(0), Arrive(n)) && After(Begin(0), Arrive(n)) == WorldOf(Arrivals(n), SETTLE_MS)
  {
    hide Letters, Step, Enabled, WorldOf;
    var rows, actions := Arrivals(n), Arrive(n);
    assert ONE[0] != TWO[0] && ONE[0] != THREE[0] && TWO[0] != THREE[0];
    StartsEmpty();
    RecordsLast([], rows[0]);
    RecordsLast([rows[0]], rows[1]);
    RecordsLast([rows[0], rows[1]], rows[2]);
    Settles(rows);
    assert [] + [rows[0]] == [rows[0]] && [rows[0]] + [rows[1]] == [rows[0], rows[1]];
    assert [rows[0], rows[1]] + [rows[2]] == rows;
    Follows(WorldOf(rows, 0), actions[3..]);
    Follows(WorldOf([rows[0], rows[1]], 0), actions[2..]);
    Follows(WorldOf([rows[0]], 0), actions[1..]);
    Follows(Begin(0), actions);
  }

  lemma StartsEmpty()
    ensures Begin(0) == WorldOf([], 0)
  {
  }

  lemma Settles(rows: seq<Row>)
    ensures var a := Env(Clock(SETTLE_MS));
            Enabled(WorldOf(rows, 0), a) && Step(WorldOf(rows, 0), a) == WorldOf(rows, SETTLE_MS)
  {
    assert Causes(WorldOf(rows, 0), {}, Directly) == map[];
  }

  lemma Follows(w: World, actions: seq<Action>)
    requires actions != [] && Enabled(w, actions[0]) && Interleaving(Step(w, actions[0]), actions[1..])
    ensures Interleaving(w, actions) && After(w, actions) == After(Step(w, actions[0]), actions[1..])
  {
  }

  // ----- the delivery -----

  lemma ReminderIsClean(t: Transport)
    ensures Clean(t, REMINDER) && REMINDER != []
  {
  }

  method DeliverBoth(link: Link, t: Transport, w: Wording, n: nat) returns (sized: Sized, outcome: Outcome, text: Text)
    requires link.Ready() && link.Calm() && link.world.daemon == Settled(n) && Accepts(t, w, ClaimOf(n), false)
    modifies link
    ensures link.Ready() && Grows(old(link.world), link.world)
    ensures link.world.daemon ==
            Next(Settled(n), DirectClaim(0, TurnInterruptible, FirstRequest(t, w, Settled(n), 0)))
    ensures sized.Sized? && sized.claim == ClaimOf(n) && OwnFate(link.world, link.me, sized.id, true)
    ensures outcome.Delivered? && text == RenderEvents(t, w, ClaimOf(n), false)
    ensures Keys(Arrivals(n)) <= link.world.daemon.claimed
  {
    hide Plain, Accepts, ShownWhole, RenderEvents, WorldInv, FirstRequest, Keys, MaxContent, ReminderReserve, Arrivals,
      PackEventsUnderCap, PreviewSettledHigh, PreviewReminder, Settled, SoundPlan, OwnFate, Grows, Next, Decide;
    DecidesBoth(t, w, n);
    PreviewsBoth(t, w, n);
    var delivery;
    sized, delivery := DeliverOnce(link, t, w, 0, TurnInterruptible);
    outcome, text := delivery.value.0, delivery.value.1;
  }

  lemma PreviewsBoth(t: Transport, w: Wording, n: nat)
    requires Accepts(t, w, ClaimOf(n), false)
    ensures PreviewSettledHigh(Settled(n), 0) == ClaimOf(n).events && PreviewReminder(Settled(n), 0) == Some(REMINDER)
    ensures PackEventsUnderCap(t, w, ClaimOf(n).events, MaxContent(t) - ReminderReserve(Some(REMINDER))) == 2
    ensures ClaimOf(n).events[..2] == ClaimOf(n).events
  {
    hide Plain, ResolveClaimFit, PackEventsUnderCap, MaxContent, ReminderReserve, Decide, PreviewSettledHigh,
      PreviewReminder, Settled;
    ClaimIsDecided(n);
    SettledDecision(n, None);
    AsksForAll(t, w, ClaimOf(n).events, MaxContent(t) - ReminderReserve(Some(REMINDER)));
  }

  /** On a link to the world that recording the three and letting them settle
      reaches, with nobody interfering and no call failing, one delivery surfaces
      the claim the daemon decides there, reports it delivered and claims the
      second event, whose block it never showed. */
  method DeliversUnshown(link: Link, t: Transport, w: Wording) returns (sized: Sized, outcome: Outcome, text: Text)
    requires w.step != [] && RoomForTwo(t, w, ONE, TWO, REMINDER)
    requires link.Ready() && link.Calm()
    requires var n := FillingBody(t, w, ONE, TWO, REMINDER);
             Interleaving(Begin(0), Arrive(n)) && link.world == After(Begin(0), Arrive(n))
    modifies link
    ensures link.Ready() && Grows(old(link.world), link.world)
    ensures var n, d := FillingBody(t, w, ONE, TWO, REMINDER), old(link.world).daemon;
            && FirstDecision(t, w, d, 0) == Some(Decision(Arrivals(n), ClaimOf(n)))
            && link.world.daemon == Next(d, DirectClaim(0, TurnInterruptible, FirstRequest(t, w, d, 0)))
            && sized.Sized? && sized.claim == ClaimOf(n) && OwnFate(link.world, link.me, sized.id, true)
            && outcome.Delivered? && text == RenderEvents(t, w, ClaimOf(n), false)
            && ShownWhole(t, w, ClaimOf(n), false) < 2 && ClaimOf(n).events[1].id == TWO
            && RowKey(0, TWO) !in d.claimed && RowKey(0, TWO) in link.world.daemon.claimed
  {
    hide MaxContent, Accepts, ShownWhole, RenderEvents, WorldInv, FillingBody, RoomForTwo, Letters, FirstRequest, Next,
      Decide, OwnFate, Grows, Interleaving, After;
    ReminderIsClean(t);
    ReminderOverflows(t, w, ONE, TWO, REMINDER);
    var n := FillingBody(t, w, ONE, TWO, REMINDER);
    Reached(n);
    DecidesBoth(t, w, n);
    sized, outcome, text := DeliverBoth(link, t, w, n);
    assert Arrivals(n)[1].Key() in Keys(Arrivals(n));
  }

  /** Such a link exists for every client. */
  method LinkToSettled(me: nat, n: nat) returns (link: Link)
    ensures fresh(link) && link.me == me && link.Ready() && link.Calm()
    ensures Interleaving(Begin(0), Arrive(n)) && link.world == After(Begin(0), Arrive(n))
  {
    hide WorldInv, Step, Enabled;
    Reached(n);
    BeginInv(0);
    AfterKeepsInv(Begin(0), Arrive(n));
    link := new Link(me, _ => Turn([], NoFault), WorldOf(Arrivals(n), SETTLE_MS));
  }
}
