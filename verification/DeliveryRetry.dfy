/** Nothing is lost: rows whose surface failed come back, and undisturbed cycles
    surface every settled event exactly once, in order, within as many cycles. */
module DeliveryRetry {
  import opened Options
  import opened Utf16
  import opened DeliveryBlocks
  import opened DeliveryRender
  import opened DeliveryDaemon
  import opened DeliveryRules
  import opened DeliverySystem
  import opened DeliveryLink
  import opened DeliveryLoops

  // ----- a failed surface gives its rows back -----

  /** Releasing a lease makes each of its unread rows available at once. */
  lemma ReleasedIsAvailable(d: Daemon, id: nat, r: Row)
    requires Inv(d) && id in d.reservations && r in d.rows
    requires r.Key() in d.reservations[id].candidates && r.Key() !in d.acked
    ensures r in Available(Next(d, Release(id)), r.session, r.urgency)
  {
    var q := Next(d, Release(id));
    assert Unclaimed(d, d.reservations[id].candidates);
    assert !Leased(q, r.Key());
  }

  /** So does its expiry, whether or not the daemon was told. */
  lemma ExpiredIsAvailable(d: Daemon, id: nat, r: Row, now: int)
    requires Inv(d) && id in d.reservations && r in d.rows && d.reservations[id].expiresAt <= now
    requires r.Key() in d.reservations[id].candidates && r.Key() !in d.acked
    ensures r in Available(Next(d, Clock(now)), r.session, r.urgency)
  {
    var q := Next(d, Clock(now));
    assert Unclaimed(d, d.reservations[id].candidates);
    assert !Leased(q, r.Key());
  }

  /** Once a reservation that failed to surface no longer holds a row, that row is
      claimed on some other account, leased to one other reservation, or available. */
  lemma FailedIsOpen(w: World, id: nat, r: Row)
    requires WorldInv(w) && Inv(w.daemon) && id in w.failed
    requires r in w.daemon.rows && r.Key() !in w.daemon.acked && !Holds(w.daemon, id, r.Key())
    ensures || (r.Key() in w.daemon.claimed && r.Key() in w.causes && w.causes[r.Key()] != ByCommit(id))
            || (exists other :: other != id && Holds(w.daemon, other, r.Key())
                                && forall i :: Holds(w.daemon, i, r.Key()) ==> i == other)
            || r in Available(w.daemon, r.session, r.urgency)
  {
    hide Inv, Available, PhaseOk, Registered;
    Trichotomy(w.daemon, r);
    if r.Key() in w.daemon.claimed { assert Justified(w, r.Key()); }
  }

  // ----- one undisturbed cycle -----

  ghost predicate DistinctRows(rows: seq<Row>) {
    forall i, j :: 0 <= i < j < |rows| ==> rows[i].Key() != rows[j].Key()
  }

  lemma NextKeepsRowsDistinct(d: Daemon, op: Op)
    requires Admits(d, op) && DistinctRows(d.rows)
    ensures DistinctRows(Next(d, op).rows)
  {
    hide Decide;
    if op.Record? {
      forall i | 0 <= i < |d.rows| ensures d.rows[i].Key() != op.row.Key() { assert d.rows[i] in d.rows; }
    }
  }

  /** No interleaving ever records two rows under one key. */
  lemma {:induction false} RowsStayDistinct(w: World, actions: seq<Action>)
    requires DistinctRows(w.daemon.rows) && Interleaving(w, actions)
    ensures DistinctRows(After(w, actions).daemon.rows)
    decreases |actions|
  {
    hide Next, Admits, DistinctRows;
    if actions != [] {
      var a := actions[0];
      if ToOp(w, a).Some? { NextKeepsRowsDistinct(w.daemon, ToOp(w, a).value); }
      RowsStayDistinct(Step(w, a), actions[1..]);
    }
  }

  /** What one undisturbed delivery makes of the daemon, and the events it surfaces. */
  ghost function Cycle(t: Transport, w: Wording, d: Daemon, session: nat): Daemon {
    Next(d, DirectClaim(session, TurnInterruptible, FirstRequest(t, w, d, session)))
  }

  ghost function SurfacedBy(t: Transport, w: Wording, d: Daemon, session: nat): seq<Event> {
    var decision := FirstDecision(t, w, d, session);
    if decision.None? then [] else decision.value.claim.events
  }

  lemma {:induction false} SelectSuffix(rows: seq<Row>, k: nat, keep: Row -> bool)
    requires k <= |rows|
    requires forall i :: 0 <= i < |rows| ==> (keep(rows[i]) <==> k <= i)
    ensures Select(rows, keep) == rows[k..]
  {
    if rows != [] {
      SelectSuffix(rows[1..], if k == 0 then 0 else k - 1, keep);
      assert k == 0 ==> rows == [rows[0]] + rows[1..];
    }
  }

  lemma {:induction false} SelectKeepsDistinct(rows: seq<Row>, keep: Row -> bool)
    requires DistinctRows(rows)
    ensures DistinctRows(Select(rows, keep))
  {
    if rows != [] {
      SelectKeepsDistinct(rows[1..], keep);
      var rest := Select(rows[1..], keep);
      forall j | 0 <= j < |rest| ensures rest[j].Key() != rows[0].Key() {
        assert rest[j] in rest;
        var i :| 0 <= i < |rows[1..]| && rows[1..][i] == rest[j];
      }
    }
  }

  lemma OtherRowOtherKey(rows: seq<Row>, r: Row, s: Row)
    requires DistinctRows(rows) && r in rows && s in rows && r != s
    ensures r.Key() != s.Key()
  {
    var i :| 0 <= i < |rows| && rows[i] == r;
    var j :| 0 <= j < |rows| && rows[j] == s;
  }

  predicate IsSettled(d: Daemon, session: nat, r: Row) {
    Pending(d, session, High, r) && !Leased(d, r.Key()) && d.now - r.createdAt >= SETTLE_MS
  }

  lemma SettledIsReady(d: Daemon, session: nat, ready: Row -> bool)
    requires forall r :: ready(r) == IsSettled(d, session, r)
    ensures SettledHigh(d, session) == Select(d.rows, ready)
  {
    hide Pending, Leased;
    SelectTwice(d.rows, (r: Row) => Pending(d, session, High, r) && !Leased(d, r.Key()),
                (r: Row) => d.now - r.createdAt >= SETTLE_MS, ready);
  }

  /** Claiming a prefix of the settled rows, and rows of another band, leaves the
      rest of them settled. */
  lemma ClaimLeavesRest(d: Daemon, session: nat, k: nat, others: seq<Row>)
    requires DistinctRows(d.rows) && k <= |SettledHigh(d, session)|
    requires forall r :: r in others ==> r in d.rows && !r.urgency.High?
    ensures var settled := SettledHigh(d, session);
            SettledHigh(Apply(Prune(d), Keys(settled[..k] + others)), session) == settled[k..]
  {
    hide SettledHigh, Pending, Leased, DistinctRows;
    var settled := SettledHigh(d, session);
    var keys := Keys(settled[..k] + others);
    var q := Apply(Prune(d), keys);
    var ready, unclaimed := (r: Row) => IsSettled(d, session, r), (r: Row) => r.Key() !in keys;
    var stillReady := (r: Row) => IsSettled(q, session, r);
    SettledIsReady(d, session, ready);
    SettledIsReady(q, session, stillReady);
    forall r ensures stillReady(r) == (ready(r) && unclaimed(r)) { ReadyAfterClaim(d, session, keys, r); }
    SelectTwice(d.rows, ready, unclaimed, stillReady);
    SelectKeepsDistinct(d.rows, ready);
    forall i | 0 <= i < |settled| ensures unclaimed(settled[i]) <==> k <= i {
      PrefixKeys(d, session, k, others, i);
    }
    SelectSuffix(settled, k, unclaimed);
  }

  lemma ReadyAfterClaim(d: Daemon, session: nat, keys: set<RowKey>, r: Row)
    ensures IsSettled(Apply(Prune(d), keys), session, r) <==> IsSettled(d, session, r) && r.Key() !in keys
  {
    hide Leased;
    SameLeases(d, r.Key());
    SameLeasesOn(Prune(d), keys, r.Key());
  }

  lemma SameLeasesOn(d: Daemon, keys: set<RowKey>, key: RowKey)
    ensures Leased(Apply(d, keys), key) == Leased(d, key)
  {
  }

  lemma PrefixKeys(d: Daemon, session: nat, k: nat, others: seq<Row>, i: nat)
    requires DistinctRows(d.rows) && k <= |SettledHigh(d, session)| && i < |SettledHigh(d, session)|
    requires forall r :: r in others ==> r in d.rows && !r.urgency.High?
    ensures SettledHigh(d, session)[i].Key() in Keys(SettledHigh(d, session)[..k] + others) <==> i < k
  {
    hide Leased, Select;
    var settled := SettledHigh(d, session);
    var cands, r := settled[..k] + others, settled[i];
    assert r in settled && r in d.rows && r.urgency.High?;
    SettledDistinct(d, session);
    if i < k {
      assert cands[i] == r;
    } else {
      forall s | s in cands ensures s.Key() != r.Key() {
        if s in others {
          OtherRowOtherKey(d.rows, r, s);
        } else {
          var j :| 0 <= j < k && settled[j] == s;
        }
      }
    }
  }

  lemma SettledDistinct(d: Daemon, session: nat)
    requires DistinctRows(d.rows)
    ensures DistinctRows(SettledHigh(d, session))
  {
    hide Pending, Leased, DistinctRows;
    SelectKeepsDistinct(d.rows, (r: Row) => Pending(d, session, High, r) && !Leased(d, r.Key()));
    SelectKeepsDistinct(Available(d, session, High), (r: Row) => d.now - r.createdAt >= SETTLE_MS);
  }

  lemma PruneKeepsSettled(d: Daemon, session: nat)
    ensures SettledHigh(Prune(d), session) == SettledHigh(d, session)
  {
    hide Pending, Leased;
    PruneKeepsViews(d, session, High);
    SelectAgrees(Available(d, session, High), (r: Row) => d.now - r.createdAt >= SETTLE_MS,
                 (r: Row) => Prune(d).now - r.createdAt >= SETTLE_MS);
  }

  /** Which rows a turn-interruptible decision takes. */
  lemma DecisionTakes(d: Daemon, session: nat, maxEvents: Option<int>)
    ensures var settled := SettledHigh(d, session);
            match Decide(d, session, TurnInterruptible, maxEvents)
            case None => settled == []
            case Some(decision) =>
              var k := Limit(|settled|, maxEvents);
              && decision.claim.events == EventsOf(settled[..k])
              && (exists others :: decision.candidates == settled[..k] + others
                                   && forall r :: r in others ==> r in d.rows && !r.urgency.High?)
  {
    hide SettledHigh, Leased, ReminderDue;
    var settled := SettledHigh(d, session);
    var k, normal := Limit(|settled|, maxEvents), Available(d, session, Normal);
    assert settled[..k] + [] == settled[..k];
    assert settled == [] ==> settled[..k] + normal == normal;
    assert forall r :: r in normal ==> r in d.rows && !r.urgency.High?;
  }

  /** An undisturbed cycle surfaces a prefix of the settled events, at least one
      of any, and leaves exactly the rest settled. */
  lemma CycleTakesPrefix(t: Transport, w: Wording, d: Daemon, session: nat) returns (k: nat)
    requires DistinctRows(d.rows)
    ensures var settled, q := SettledHigh(d, session), Cycle(t, w, d, session);
            && q.rows == d.rows && k <= |settled| && (settled != [] ==> k > 0)
            && SurfacedBy(t, w, d, session) == EventsOf(settled[..k])
            && SettledHigh(q, session) == settled[k..]
            && d.claimed <= q.claimed && Keys(settled[..k]) <= q.claimed
  {
    hide SettledHigh, Decide, FirstRequest, Prune, DistinctRows;
    var settled, request := SettledHigh(d, session), FirstRequest(t, w, d, session);
    k := Limit(|settled|, request);
    var decision := Decide(d, session, TurnInterruptible, request);
    PruneHidesNothing(d, session, TurnInterruptible, request);
    PruneKeepsSettled(d, session);
    DecisionTakes(d, session, request);
    if decision.Some? {
      var others :| decision.value.candidates == settled[..k] + others
                    && forall r :: r in others ==> r in d.rows && !r.urgency.High?;
      ClaimLeavesRest(d, session, k, others);
      KeysOfPrefix(settled[..k], others);
    }
  }

  lemma KeysOfPrefix(rows: seq<Row>, others: seq<Row>)
    ensures Keys(rows) <= Keys(rows + others)
  {
  }

  // ----- many undisturbed cycles -----

  ghost function Cycles(t: Transport, w: Wording, d: Daemon, session: nat, n: nat): Daemon {
    if n == 0 then d else Cycle(t, w, Cycles(t, w, d, session, n - 1), session)
  }

  /** The events those cycles surface, one cycle after the other. */
  ghost function AllSurfaced(t: Transport, w: Wording, d: Daemon, session: nat, n: nat): seq<Event> {
    if n == 0 then []
    else AllSurfaced(t, w, d, session, n - 1) + SurfacedBy(t, w, Cycles(t, w, d, session, n - 1), session)
  }

  /** What was surfaced and what is still settled are together always the events
      settled at the start, each once and in order; every cycle makes progress,
      and what was surfaced is claimed. */
  lemma {:induction false} CyclesDrain(t: Transport, w: Wording, d: Daemon, session: nat, n: nat)
    requires DistinctRows(d.rows)
    ensures var settled, q := SettledHigh(d, session), Cycles(t, w, d, session, n);
            var rest := SettledHigh(q, session);
            && q.rows == d.rows
            && AllSurfaced(t, w, d, session, n) + EventsOf(rest) == EventsOf(settled)
            && |rest| <= Max(0, |settled| - n)
            && d.claimed <= q.claimed && Keys(settled) <= q.claimed + Keys(rest)
  {
    hide SettledHigh, Cycle, SurfacedBy, DistinctRows, EventsOf, Keys;
    var settled := SettledHigh(d, session);
    if n == 0 {
      assert [] + EventsOf(settled) == EventsOf(settled);
    } else {
      CyclesDrain(t, w, d, session, n - 1);
      var before, so := Cycles(t, w, d, session, n - 1), AllSurfaced(t, w, d, session, n - 1);
      var left := SettledHigh(before, session);
      var k := CycleTakesPrefix(t, w, before, session);
      SplitSettled(left, k);
      Regroup(so, EventsOf(left[..k]), EventsOf(left[k..]));
    }
  }

  lemma Regroup(a: seq<Event>, b: seq<Event>, c: seq<Event>)
    ensures (a + b) + c == a + (b + c)
  {
  }

  lemma SplitSettled(rows: seq<Row>, k: nat)
    requires k <= |rows|
    ensures EventsOf(rows[..k]) + EventsOf(rows[k..]) == EventsOf(rows)
    ensures Keys(rows) == Keys(rows[..k]) + Keys(rows[k..])
  {
    assert rows == rows[..k] + rows[k..];
  }

  /** As many undisturbed cycles as there are settled events surface exactly those
      events, each once and in order, and claim all their rows. */
  lemma CyclesSurfaceAll(t: Transport, w: Wording, d: Daemon, session: nat, n: nat)
    requires DistinctRows(d.rows) && n >= |SettledHigh(d, session)|
    ensures AllSurfaced(t, w, d, session, n) == PreviewSettledHigh(d, session)
    ensures PreviewSettledHigh(Cycles(t, w, d, session, n), session) == []
    ensures Keys(SettledHigh(d, session)) <= Cycles(t, w, d, session, n).claimed
  {
    hide SettledHigh, AllSurfaced, Cycles, DistinctRows;
    CyclesDrain(t, w, d, session, n);
    var rest := SettledHigh(Cycles(t, w, d, session, n), session);
    assert rest == [] && EventsOf(rest) == [] && Keys(rest) == {};
    assert AllSurfaced(t, w, d, session, n) + [] == AllSurfaced(t, w, d, session, n);
  }

  /** An event that had settled when its surface failed is, once its lease is
      released, surfaced and claimed by as many undisturbed cycles. */
  lemma FailedIsRetried(t: Transport, w: Wording, d: Daemon, id: nat, r: Row, n: nat)
    requires Inv(d) && DistinctRows(d.rows) && id in d.reservations && r in d.rows
    requires r.Key() in d.reservations[id].candidates && r.Key() !in d.acked
    requires r.urgency.High? && d.now - r.createdAt >= SETTLE_MS
    requires n >= |SettledHigh(Next(d, Release(id)), r.session)|
    ensures var q := Next(d, Release(id));
            r.event in AllSurfaced(t, w, q, r.session, n) && r.Key() in Cycles(t, w, q, r.session, n).claimed
  {
    hide Inv, Available, AllSurfaced, Cycles, DistinctRows;
    var q := Next(d, Release(id));
    ReleasedIsAvailable(d, id, r);
    CyclesSurfaceAll(t, w, q, r.session, n);
    var settled := SettledHigh(q, r.session);
    assert r in settled && r.Key() in Keys(settled);
    var i :| 0 <= i < |settled| && settled[i] == r;
    assert EventsOf(settled)[i] == r.event;
  }

  // ----- the loop that polls -----

  /** The channel's loop: one cycle after the other, whatever each reports. It
      returns the events of the cycles that reported delivered. */
  method Poll(link: Link, t: Transport, w: Wording, session: nat, cycles: nat) returns (delivered: seq<Event>)
    requires link.Ready()
    modifies link
    ensures link.Ready() && Grows(old(link.world), link.world)
    ensures old(link.Calm()) ==>
              var d := old(link.world).daemon;
              && link.Calm() && delivered == AllSurfaced(t, w, d, session, cycles)
              && link.world.daemon == Cycles(t, w, d, session, cycles)
    ensures var d := old(link.world).daemon;
            old(link.Calm()) && DistinctRows(d.rows) && cycles >= |PreviewSettledHigh(d, session)| ==>
              && delivered == PreviewSettledHigh(d, session)
              && PreviewSettledHigh(link.world.daemon, session) == []
              && Keys(SettledHigh(d, session)) <= link.world.daemon.claimed
  {
    hide WorldInv, Grows, FirstRequest, Undisturbed, Next, Decide, SettledHigh, OwnFate, SoundPlan, ShownWhole,
      DistinctRows;
    ghost var w0 := link.world;
    NoChange(w0, link.me);
    HoldingsGrow(w0, w0, link.me);
    delivered := [];
    for i := 0 to cycles
      invariant link.Ready() && Grows(w0, link.world)
      invariant old(link.Calm()) ==> link.Calm() && delivered == AllSurfaced(t, w, w0.daemon, session, i)
                                     && link.world.daemon == Cycles(t, w, w0.daemon, session, i)
    {
      ghost var before := link.world;
      var sized, delivery := DeliverOnce(link, t, w, session, TurnInterruptible);
      GrowsOn(w0, before, link.world);
      if delivery.Some? && delivery.value.0.Delivered? {
        delivered := delivered + sized.claim.events;
      }
    }
    if old(link.Calm()) && DistinctRows(w0.daemon.rows) && cycles >= |PreviewSettledHigh(w0.daemon, session)| {
      CyclesSurfaceAll(t, w, w0.daemon, session, cycles);
    }
  }
}
