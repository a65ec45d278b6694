/** What the daemon's operations do, row by row, told from the columns and the
    leases' expiry times alone. */
module DeliveryRules {
  import opened Options
  import opened Utf16
  import opened DeliveryBlocks
  import opened DeliveryRender
  import opened DeliveryDaemon

  /** Unread and unclaimed. */
  ghost predicate Waiting(d: Daemon, session: nat, urgency: Urgency, r: Row) {
    r in d.rows && r.session == session && r.urgency == urgency
    && RowKey(r.session, r.event.id) !in d.acked && RowKey(r.session, r.event.id) !in d.claimed
  }

  /** Some reservation still in time holds the row. */
  ghost predicate InFlight(d: Daemon, r: Row) {
    exists id :: id in d.reservations && d.reservations[id].expiresAt > d.now
                 && RowKey(r.session, r.event.id) in d.reservations[id].candidates
  }

  ghost predicate Free(d: Daemon, session: nat, urgency: Urgency, r: Row) {
    Waiting(d, session, urgency, r) && !InFlight(d, r)
  }

  ghost predicate FreeAndSettled(d: Daemon, session: nat, r: Row) {
    Free(d, session, High, r) && d.now - r.createdAt >= 15000
  }

  /** A reminder is due: something normal waits, and none of it is in flight. */
  ghost predicate Due(d: Daemon, session: nat, urgency: Urgency) {
    (exists r :: Free(d, session, urgency, r)) && forall r :: Waiting(d, session, urgency, r) ==> !InFlight(d, r)
  }

  // ----- selection keeps order -----

  lemma SelectOne(r: Row, keep: Row -> bool)
    ensures Select([], keep) == [] && Select([r], keep) == if keep(r) then [r] else []
  {
    assert [r][1..] == [];
  }

  /** Selecting from a list is selecting from its parts, in order. */
  lemma {:induction false} SelectParts(a: seq<Row>, b: seq<Row>, keep: Row -> bool)
    ensures Select(a + b, keep) == Select(a, keep) + Select(b, keep)
  {
    if a == [] {
      assert a + b == b;
    } else {
      assert (a + b)[0] == a[0] && (a + b)[1..] == a[1..] + b;
      SelectParts(a[1..], b, keep);
    }
  }

  lemma {:induction false} SelectTwice(rows: seq<Row>, a: Row -> bool, b: Row -> bool, both: Row -> bool)
    requires forall r :: both(r) == (a(r) && b(r))
    ensures Select(Select(rows, a), b) == Select(rows, both)
  {
    if rows != [] {
      SelectTwice(rows[1..], a, b, both);
      var rest := Select(rows[1..], a);
      if a(rows[0]) {
        SelectCons(rows[0], rest, b);
      } else {
        assert [] + rest == rest;
      }
    }
  }

  lemma SelectCons(r: Row, rest: seq<Row>, keep: Row -> bool)
    ensures Select([r] + rest, keep) == (if keep(r) then [r] else []) + Select(rest, keep)
  {
    assert ([r] + rest)[1..] == rest;
  }

  lemma LeasedIsInFlight(d: Daemon, r: Row)
    ensures Leased(d, r.Key()) <==> InFlight(d, r)
  {
  }

  /** A row is available exactly when it is unread, unclaimed and in no lease that
      is still in time. */
  lemma AvailableMeans(d: Daemon, session: nat, urgency: Urgency, r: Row)
    ensures r in Available(d, session, urgency) <==> Free(d, session, urgency, r)
    ensures r in LeasedPending(d, session, urgency) <==> Waiting(d, session, urgency, r) && InFlight(d, r)
  {
    hide Leased, InFlight;
    LeasedIsInFlight(d, r);
  }

  lemma SettledMeansFree(d: Daemon, session: nat, r: Row)
    ensures r in SettledHigh(d, session) <==> FreeAndSettled(d, session, r)
  {
    hide Available, Free;
    AvailableMeans(d, session, High, r);
  }

  lemma DueMeans(d: Daemon, session: nat, urgency: Urgency)
    ensures Available(d, session, urgency) != [] && LeasedPending(d, session, urgency) == [] <==> Due(d, session, urgency)
  {
    hide Available, LeasedPending, Waiting, InFlight;
    forall r ensures (r in Available(d, session, urgency) <==> Free(d, session, urgency, r)) &&
                     (r in LeasedPending(d, session, urgency) <==> Waiting(d, session, urgency, r) && InFlight(d, r))
    {
      AvailableMeans(d, session, urgency, r);
    }
    NoneIsEmpty(Available(d, session, urgency));
    NoneIsEmpty(LeasedPending(d, session, urgency));
  }

  // ----- the decision at each lifecycle point -----

  lemma SettledInOrder(d: Daemon, session: nat, settled: Row -> bool)
    requires forall r :: r in d.rows ==> settled(r) == FreeAndSettled(d, session, r)
    ensures SettledHigh(d, session) == Select(d.rows, settled)
  {
    hide Pending, Leased, Free;
    var both := (r: Row) => Pending(d, session, High, r) && !Leased(d, r.Key()) && d.now - r.createdAt >= SETTLE_MS;
    SelectTwice(d.rows, (r: Row) => Pending(d, session, High, r) && !Leased(d, r.Key()),
                (r: Row) => d.now - r.createdAt >= SETTLE_MS, both);
    forall r | r in d.rows ensures both(r) == settled(r) { SettledMeansFree(d, session, r); }
    SelectAgrees(d.rows, both, settled);
  }

  /** Before a turn: with settled events, their first `maxEvents`, at least one, in
      order, and with them the due reminder and its rows; without, the due reminder
      alone unless fresh high-urgency work waits; else nothing. */
  lemma InterruptMeans(d: Daemon, session: nat, maxEvents: Option<int>, settled: Row -> bool)
    requires forall r :: r in d.rows ==> settled(r) == FreeAndSettled(d, session, r)
    ensures var ready, due := Select(d.rows, settled), Due(d, session, Normal);
            var decision := Decide(d, session, TurnInterruptible, maxEvents);
            var k := if maxEvents.None? || maxEvents.value > |ready| then |ready| else Max(1, maxEvents.value);
            if ready != [] then
              && k <= |ready| && decision.Some? && decision.value.claim.events == EventsOf(ready[..k])
              && decision.value.claim.reminder == (if due then Some(REMINDER) else None)
              && forall r :: r in decision.value.candidates <==> r in ready[..k] || (due && Free(d, session, Normal, r))
            else if due && forall r :: !Free(d, session, High, r) then
              && decision.Some? && decision.value.claim.events == [] && decision.value.claim.message == REMINDER
              && decision.value.claim.reminder.None?
              && forall r :: r in decision.value.candidates <==> Free(d, session, Normal, r)
            else decision.None?
  {
    hide Available, SettledHigh, LeasedPending, Due, Free, FreeAndSettled;
    SettledInOrder(d, session, settled);
    DueMeans(d, session, Normal);
    forall r ensures r in Available(d, session, Normal) <==> Free(d, session, Normal, r) {
      AvailableMeans(d, session, Normal, r);
    }
    forall r ensures r in Available(d, session, High) <==> Free(d, session, High, r) {
      AvailableMeans(d, session, High, r);
    }
    NoneIsEmpty(Available(d, session, High));
  }

  /** The previews show what an unlimited claim would: every settled event, in order,
      and the reminder that would go with them. */
  lemma PreviewMeans(d: Daemon, session: nat, settled: Row -> bool)
    requires forall r :: r in d.rows ==> settled(r) == FreeAndSettled(d, session, r)
    ensures PreviewSettledHigh(d, session) == EventsOf(Select(d.rows, settled))
    ensures PreviewReminder(d, session) ==
            if Select(d.rows, settled) != [] && Due(d, session, Normal) then Some(REMINDER) else None
  {
    hide Available, SettledHigh, LeasedPending, Due, FreeAndSettled;
    SettledInOrder(d, session, settled);
    DueMeans(d, session, Normal);
  }

  /** When a turn ends: all low-urgency rows behind one reminder, if it is due. */
  lemma IdleMeans(d: Daemon, session: nat, maxEvents: Option<int>)
    ensures var decision := Decide(d, session, TurnIdle, maxEvents);
            && (decision.Some? <==> Due(d, session, Low))
            && (decision.Some? ==>
                  && decision.value.claim.events == [] && decision.value.claim.message == REMINDER
                  && forall r :: r in decision.value.candidates <==> Free(d, session, Low, r))
  {
    hide Available, LeasedPending, Due, Free;
    DueMeans(d, session, Low);
    forall r ensures r in Available(d, session, Low) <==> Free(d, session, Low, r) {
      AvailableMeans(d, session, Low, r);
    }
  }

  /** After a compaction: every unread row, leased or claimed, of which the last
      ten are shown. */
  lemma RecapMeans(d: Daemon, session: nat, maxEvents: Option<int>, unread: Row -> bool)
    requires forall r :: r in d.rows ==>
               unread(r) == (r.session == session && RowKey(r.session, r.event.id) !in d.acked)
    ensures var rows, decision := Select(d.rows, unread), Decide(d, session, PostCompact, maxEvents);
            && (decision.None? <==> rows == [])
            && (decision.Some? ==>
                  && decision.value.candidates == rows
                  && decision.value.claim.events == EventsOf(if |rows| <= 10 then rows else rows[|rows| - 10..]))
  {
    SelectAgrees(d.rows, (r: Row) => Unread(d, session, r), unread);
  }

  // ----- what the operations do to the columns -----

  /** A commit claims the rows of a reservation still in time, and nothing in every
      other case; either way the reservation is gone. */
  lemma CommitMeans(d: Daemon, id: nat)
    ensures var q := Next(d, Commit(id));
            && q.claimed == (if id in d.reservations && d.reservations[id].expiresAt > d.now
                             then d.claimed + d.reservations[id].candidates else d.claimed)
            && id !in q.reservations && q.rows == d.rows && q.acked == d.acked && q.now == d.now
            && forall other :: other != id ==>
                 (other in q.reservations <==> other in d.reservations)
                 && (other in d.reservations ==> q.reservations[other] == d.reservations[other])
  {
  }

  /** A direct claim marks exactly the rows decided, for good, and acknowledges none. */
  lemma ClaimMeans(d: Daemon, session: nat, lifecycle: Lifecycle, maxEvents: Option<int>)
    ensures var q := Next(d, DirectClaim(session, lifecycle, maxEvents));
            var decision := Decide(d, session, lifecycle, maxEvents);
            && q.rows == d.rows && q.acked == d.acked && q.now == d.now
            && (decision.None? ==> q.claimed == d.claimed)
            && (decision.Some? ==>
                  forall key :: key in q.claimed <==>
                    key in d.claimed
                    || exists r :: r in decision.value.candidates && key == RowKey(r.session, r.event.id))
  {
    hide Decide;
    PruneHidesNothing(d, session, lifecycle, maxEvents);
  }

  /** A reservation claims nothing. Its rows are withheld from every other decision
      for thirty seconds by the clock, and free again from then on. */
  lemma ReserveMeans(d: Daemon, id: nat, session: nat, lifecycle: Lifecycle, maxEvents: Option<int>, r: Row, at: int)
    requires Inv(d) && id !in d.reservations && !lifecycle.PostCompact?
    requires Decide(d, session, lifecycle, maxEvents).Some?
    requires r in Decide(d, session, lifecycle, maxEvents).value.candidates
    ensures Next(d, Reserve(id, session, lifecycle, maxEvents)).claimed == d.claimed
    ensures var later := Next(Next(d, Reserve(id, session, lifecycle, maxEvents)), Clock(at));
            r in Available(later, session, r.urgency) <==> at >= d.now + 30000
  {
    hide Decide, Available, InFlight;
    PruneHidesNothing(d, session, lifecycle, maxEvents);
    CandidateIsAvailable(d, session, lifecycle, maxEvents, r);
    var q := Next(d, Reserve(id, session, lifecycle, maxEvents));
    var later := Next(q, Clock(at));
    AvailableMeans(later, session, r.urgency, r);
    HeldUntilThen(d, id, session, lifecycle, maxEvents, r, at);
  }

  lemma HeldUntilThen(d: Daemon, id: nat, session: nat, lifecycle: Lifecycle, maxEvents: Option<int>, r: Row, at: int)
    requires Inv(d) && id !in d.reservations && !lifecycle.PostCompact?
    requires Decide(Prune(d), session, lifecycle, maxEvents).Some?
    requires r in Decide(Prune(d), session, lifecycle, maxEvents).value.candidates
    ensures var later := Next(Next(d, Reserve(id, session, lifecycle, maxEvents)), Clock(at));
            InFlight(later, r) <==> at < d.now + 30000
  {
    hide Decide;
    DecisionIsFree(d, session, lifecycle, maxEvents);
    var keys := Keys(Decide(Prune(d), session, lifecycle, maxEvents).value.candidates);
    var later := Next(Next(d, Reserve(id, session, lifecycle, maxEvents)), Clock(at));
    assert r.Key() in keys && later.reservations[id].candidates == keys;
    assert later.reservations[id].expiresAt == d.now + 30000;
  }

  /** No decision ever takes an acknowledged row. */
  lemma AckedIsNeverTaken(d: Daemon, keys: set<RowKey>, session: nat, lifecycle: Lifecycle, maxEvents: Option<int>, r: Row)
    requires var q := Next(d, Ack(keys));
             Decide(q, session, lifecycle, maxEvents).Some?
             && r in Decide(q, session, lifecycle, maxEvents).value.candidates
    ensures RowKey(r.session, r.event.id) !in keys && r.session == session && r in d.rows
  {
    hide Leased, ReminderDue;
    var q := Next(d, Ack(keys));
    if !lifecycle.PostCompact? { CandidateIsAvailable(q, session, lifecycle, maxEvents, r); }
  }

  /** Recording puts one row at its place; acknowledging marks those rows and no other;
      the clock moves the time; previewing and releasing claim nothing, a preview keeps
      every lease in time and a release every other. */
  lemma OthersMean(d: Daemon, row: Row, at: nat, keys: set<RowKey>, now: int, id: nat)
    requires at <= |d.rows| && row.Key() !in Keys(d.rows)
    ensures var q := Next(d, Record(row, at));
            && q == d.(rows := q.rows) && |q.rows| == |d.rows| + 1 && q.rows[at] == row
            && forall i :: 0 <= i < |d.rows| ==> d.rows[i] == if i < at then q.rows[i] else q.rows[i + 1]
    ensures var q := Next(d, Ack(keys));
            q == d.(acked := q.acked) && forall key :: key in q.acked <==> key in d.acked || key in keys
    ensures Next(d, Clock(now)) == d.(now := now)
    ensures var q := Next(d, Preview);
            && q == d.(reservations := q.reservations)
            && forall i :: (i in q.reservations <==> i in d.reservations && d.reservations[i].expiresAt > d.now)
                           && (i in q.reservations ==> q.reservations[i] == d.reservations[i])
    ensures var q := Next(d, Release(id));
            && q == d.(reservations := q.reservations)
            && forall i :: (i in q.reservations <==> i in d.reservations && i != id)
                           && (i in q.reservations ==> q.reservations[i] == d.reservations[i])
  {
  }

  /** A restart forgets every lease and nothing else. */
  lemma RestartMeans(d: Daemon, session: nat, urgency: Urgency, r: Row)
    ensures var q := Next(d, Restart);
            && q.rows == d.rows && q.claimed == d.claimed && q.acked == d.acked
            && (r in Available(q, session, urgency) <==> Waiting(d, session, urgency, r))
  {
    hide Available;
    AvailableMeans(Next(d, Restart), session, urgency, r);
  }
}
