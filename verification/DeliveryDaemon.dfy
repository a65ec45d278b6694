/** The daemon's side of delivery: event rows, the claim decision, and the
    in-memory registry of reservations that lease rows until commit, release
    or expiry. Every operation may meet any state and any clock. */
module DeliveryDaemon {
  import opened Options
  import opened Utf16
  import opened DeliveryBlocks
  import opened DeliveryRender

  datatype Urgency = Low | Normal | High

  /** One event as projected to one session. */
  datatype Row = Row(session: nat, urgency: Urgency, createdAt: int, event: Event) {
    function Key(): RowKey { RowKey(session, event.id) }
  }

  datatype RowKey = RowKey(session: nat, id: Text)

  datatype Plan = Plan(candidates: set<RowKey>, claim: Claim, expiresAt: int)

  /** `rows` are kept in delivery order; `claimed` and `acked` are the durable
      columns, `reservations` the daemon-local registry. */
  datatype Daemon = Daemon(rows: seq<Row>, claimed: set<RowKey>, acked: set<RowKey>,
                           reservations: map<nat, Plan>, now: int)

  datatype Decision = Decision(candidates: seq<Row>, claim: Claim)

  const RESERVATION_TTL_MS := 30000
  const SETTLE_MS := 15000
  const MAX_RECAP_EVENTS := 10

  const REMINDER: Text := Ascii("Monitored changes are pending.")

  // ----- selection -----

  function Select(rows: seq<Row>, keep: Row -> bool): (kept: seq<Row>)
    ensures forall r :: r in kept <==> r in rows && keep(r)
  {
    if rows == [] then []
    else
      assert rows == [rows[0]] + rows[1..];
      (if keep(rows[0]) then [rows[0]] else []) + Select(rows[1..], keep)
  }

  lemma {:induction false} SelectAgrees(rows: seq<Row>, a: Row -> bool, b: Row -> bool)
    requires forall r :: r in rows ==> a(r) == b(r)
    ensures Select(rows, a) == Select(rows, b)
  {
    if rows != [] {
      assert rows == [rows[0]] + rows[1..];
      SelectAgrees(rows[1..], a, b);
    }
  }

  function Keys(rows: seq<Row>): set<RowKey> { set r | r in rows :: r.Key() }

  function EventsOf(rows: seq<Row>): (es: seq<Event>)
    ensures |es| == |rows| && forall i :: 0 <= i < |rows| ==> es[i] == rows[i].event
  {
    seq(|rows|, i requires 0 <= i < |rows| => rows[i].event)
  }

  predicate Live(plan: Plan, now: int) { plan.expiresAt > now }

  /** Expired reservations are dropped whenever leases are read. */
  function Prune(d: Daemon): (q: Daemon)
    ensures q.rows == d.rows && q.claimed == d.claimed && q.acked == d.acked && q.now == d.now
    ensures forall id :: id in q.reservations <==> id in d.reservations && Live(d.reservations[id], d.now)
    ensures forall id :: id in q.reservations ==> q.reservations[id] == d.reservations[id]
  {
    d.(reservations := map id | id in d.reservations && Live(d.reservations[id], d.now) :: d.reservations[id])
  }

  predicate Leased(d: Daemon, key: RowKey) {
    exists id :: id in d.reservations && Live(d.reservations[id], d.now) && key in d.reservations[id].candidates
  }

  predicate Unread(d: Daemon, session: nat, r: Row) { r.session == session && r.Key() !in d.acked }

  /** Unclaimed rows of one band, leased or not. */
  predicate Pending(d: Daemon, session: nat, urgency: Urgency, r: Row) {
    Unread(d, session, r) && r.urgency == urgency && r.Key() !in d.claimed
  }

  function Available(d: Daemon, session: nat, urgency: Urgency): seq<Row> {
    Select(d.rows, (r: Row) => Pending(d, session, urgency, r) && !Leased(d, r.Key()))
  }

  function LeasedPending(d: Daemon, session: nat, urgency: Urgency): seq<Row> {
    Select(d.rows, (r: Row) => Pending(d, session, urgency, r) && Leased(d, r.Key()))
  }

  function SettledHigh(d: Daemon, session: nat): seq<Row> {
    Select(Available(d, session, High), (r: Row) => d.now - r.createdAt >= SETTLE_MS)
  }

  predicate ReminderDue(d: Daemon, session: nat) {
    Available(d, session, Normal) != [] && LeasedPending(d, session, Normal) == []
  }

  function UnreadRows(d: Daemon, session: nat): seq<Row> { Select(d.rows, (r: Row) => Unread(d, session, r)) }

  // ----- the decision -----

  function Limit(available: nat, maxEvents: Option<int>): (k: nat)
    ensures k <= available && (available > 0 ==> k > 0)
    ensures maxEvents.Some? ==> k <= Max(1, maxEvents.value)
  {
    if maxEvents.None? then available else Min(available, Max(1, maxEvents.value))
  }

  function Decide(d: Daemon, session: nat, lifecycle: Lifecycle, maxEvents: Option<int>): Option<Decision> {
    match lifecycle
    case TurnInterruptible =>
      var settled := SettledHigh(d, session);
      var normal := Available(d, session, Normal);
      var due := ReminderDue(d, session);
      if settled != [] then
        var surfaced := settled[..Limit(|settled|, maxEvents)];
        Some(Decision(if due then surfaced + normal else surfaced,
                      Claim(TurnInterruptible, EventsOf(surfaced), [], if due then Some(REMINDER) else None)))
      else if due && Available(d, session, High) == [] then
        Some(Decision(normal, Claim(TurnInterruptible, [], REMINDER, None)))
      else None
    case TurnIdle =>
      var low := Available(d, session, Low);
      if low != [] && LeasedPending(d, session, Low) == []
      then Some(Decision(low, Claim(TurnIdle, [], REMINDER, None)))
      else None
    case PostCompact =>
      var unread := UnreadRows(d, session);
      if unread == [] then None
      else
        var recap := unread[Max(0, |unread| - MAX_RECAP_EVENTS)..];
        Some(Decision(unread, Claim(PostCompact, EventsOf(recap), [], None)))
  }

  /** The read-only previews a transport sizes against. */
  function PreviewSettledHigh(d: Daemon, session: nat): seq<Event> { EventsOf(SettledHigh(d, session)) }

  function PreviewReminder(d: Daemon, session: nat): Option<Text> {
    if SettledHigh(d, session) != [] && ReminderDue(d, session) then Some(REMINDER) else None
  }

  // ----- operations -----

  datatype Op =
    | DirectClaim(session: nat, lifecycle: Lifecycle, maxEvents: Option<int>)
    | Reserve(id: nat, session: nat, lifecycle: Lifecycle, maxEvents: Option<int>)
    | Commit(id: nat)
    | Release(id: nat)
    | Preview
    | Record(row: Row, at: nat)
    | Ack(keys: set<RowKey>)
    | Clock(now: int)
    | Restart

  /** Reservation ids and event ids are fresh; everything else can come at any time. */
  predicate Admits(d: Daemon, op: Op) {
    match op
    case Reserve(id, _, _, _) => id !in d.reservations
    case Record(row, at) => at <= |d.rows| && row.Key() !in Keys(d.rows)
    case _ => true
  }

  function Without(reservations: map<nat, Plan>, id: nat): (rest: map<nat, Plan>)
    ensures forall k :: k in rest <==> k in reservations && k != id
    ensures forall k :: k in rest ==> rest[k] == reservations[k]
  {
    map k | k in reservations && k != id :: reservations[k]
  }

  /** Marks the candidates claimed: "was surfaced", not acknowledged. */
  function Apply(d: Daemon, candidates: set<RowKey>): Daemon { d.(claimed := d.claimed + candidates) }

  /** What a commit finds: the plan, unless it is unknown or expired. */
  function Take(d: Daemon, id: nat): Option<Plan> {
    if id in d.reservations && Live(d.reservations[id], d.now) then Some(d.reservations[id]) else None
  }

  function Next(d: Daemon, op: Op): Daemon
    requires Admits(d, op)
  {
    match op
    case DirectClaim(session, lifecycle, maxEvents) =>
      var p := Prune(d);
      (match Decide(p, session, lifecycle, maxEvents)
       case None => p
       case Some(decision) => Apply(p, Keys(decision.candidates)))
    case Reserve(id, session, lifecycle, maxEvents) =>
      var p := Prune(d);
      (match Decide(p, session, lifecycle, maxEvents)
       case None => p
       case Some(decision) =>
         var plan := Plan(Keys(decision.candidates), decision.claim, d.now + RESERVATION_TTL_MS);
         p.(reservations := p.reservations[id := plan]))
    case Commit(id) =>
      var q := d.(reservations := Without(d.reservations, id));
      (match Take(d, id)
       case None => q
       case Some(plan) => Apply(q, plan.candidates))
    case Release(id) => d.(reservations := Without(d.reservations, id))
    case Preview => Prune(d)
    case Record(row, at) => d.(rows := d.rows[..at] + [row] + d.rows[at..])
    case Ack(keys) => d.(acked := d.acked + keys)
    case Clock(now) => d.(now := now)
    case Restart => d.(reservations := map[])
  }

  function Start(now: int): Daemon { Daemon([], {}, {}, map[], now) }

  // ----- the lease discipline -----

  /** Stored reservations, live or not, hold unclaimed rows and never share one. */
  ghost predicate Inv(d: Daemon) {
    && d.claimed <= Keys(d.rows)
    && (forall id :: id in d.reservations ==> Unclaimed(d, d.reservations[id].candidates))
    && (forall i, j :: i in d.reservations && j in d.reservations && i != j ==>
          d.reservations[i].candidates !! d.reservations[j].candidates)
  }

  ghost predicate Unclaimed(d: Daemon, keys: set<RowKey>) { keys <= Keys(d.rows) && keys !! d.claimed }

  predicate Recaps(op: Op) {
    (op.DirectClaim? || op.Reserve?) && op.lifecycle.PostCompact?
  }

  lemma PruneInv(d: Daemon)
    requires Inv(d)
    ensures Inv(Prune(d))
  {
  }

  /** After a prune the stored reservations are exactly the live ones. */
  lemma DecisionIsFree(d: Daemon, session: nat, lifecycle: Lifecycle, maxEvents: Option<int>)
    requires !lifecycle.PostCompact? && Decide(Prune(d), session, lifecycle, maxEvents).Some?
    ensures var keys := Keys(Decide(Prune(d), session, lifecycle, maxEvents).value.candidates);
            Unclaimed(Prune(d), keys)
            && forall id :: id in Prune(d).reservations ==> keys !! Prune(d).reservations[id].candidates
  {
    var p := Prune(d);
    var decision := Decide(p, session, lifecycle, maxEvents).value;
    forall r | r in decision.candidates
      ensures r in p.rows && r.Key() !in p.claimed && !Leased(p, r.Key())
    {
      CandidateIsAvailable(p, session, lifecycle, maxEvents, r);
    }
    forall key | key in Keys(decision.candidates)
      ensures key in Keys(p.rows) && key !in p.claimed && !Leased(p, key)
    {
      var r :| r in decision.candidates && r.Key() == key;
    }
  }

  lemma CandidateIsAvailable(d: Daemon, session: nat, lifecycle: Lifecycle, maxEvents: Option<int>, r: Row)
    requires !lifecycle.PostCompact? && Decide(d, session, lifecycle, maxEvents).Some?
    requires r in Decide(d, session, lifecycle, maxEvents).value.candidates
    ensures r in d.rows && r.session == session && r.Key() !in d.acked && r.Key() !in d.claimed && !Leased(d, r.Key())
  {
    hide Leased, ReminderDue;
  }

  lemma StepInv(d: Daemon, op: Op)
    requires Inv(d) && Admits(d, op) && !Recaps(op)
    ensures Inv(Next(d, op))
  {
    hide Decide;
    match op
    case DirectClaim(session, lifecycle, maxEvents) =>
      PruneInv(d);
      if Decide(Prune(d), session, lifecycle, maxEvents).Some? {
        DecisionIsFree(d, session, lifecycle, maxEvents);
      }
    case Reserve(id, session, lifecycle, maxEvents) =>
      PruneInv(d);
      if Decide(Prune(d), session, lifecycle, maxEvents).Some? {
        DecisionIsFree(d, session, lifecycle, maxEvents);
      }
    case Record(row, at) =>
      RecordKeepsKeys(d.rows, row, at);
    case _ =>
  }

  lemma RecordKeepsKeys(rows: seq<Row>, row: Row, at: nat)
    requires at <= |rows|
    ensures Keys(rows[..at] + [row] + rows[at..]) == Keys(rows) + {row.Key()}
  {
    var more := rows[..at] + [row] + rows[at..];
    assert rows == rows[..at] + rows[at..];
    assert forall r :: r in more <==> r in rows || r == row;
  }

  // ----- recaps -----

  lemma AddPlanInv(p: Daemon, id: nat, plan: Plan)
    requires Inv(p) && id !in p.reservations
    ensures Inv(p.(reservations := p.reservations[id := plan])) <==>
            Unclaimed(p, plan.candidates)
            && forall other :: other in p.reservations ==> plan.candidates !! p.reservations[other].candidates
  {
    var q := p.(reservations := p.reservations[id := plan]);
    assert q.reservations[id] == plan && Unclaimed(q, plan.candidates) == Unclaimed(p, plan.candidates);
    if Inv(q) {
      forall other | other in p.reservations ensures plan.candidates !! p.reservations[other].candidates {
        assert q.reservations[other] == p.reservations[other];
        assert q.reservations[id].candidates !! q.reservations[other].candidates;
      }
    }
  }

  lemma RecapReserves(d: Daemon, id: nat, session: nat, maxEvents: Option<int>) returns (plan: Plan)
    requires id !in d.reservations && UnreadRows(d, session) != []
    ensures plan.candidates == Keys(UnreadRows(d, session)) && Live(plan, d.now)
    ensures Next(d, Reserve(id, session, PostCompact, maxEvents)) ==
            Prune(d).(reservations := Prune(d).reservations[id := plan])
  {
    hide Unread;
    var p := Prune(d);
    UnreadKept(d, session);
    SelectAgrees(d.rows, (r: Row) => Unread(d, session, r), (r: Row) => Unread(p, session, r));
    var claim := Decide(p, session, PostCompact, maxEvents).value.claim;
    plan := Plan(Keys(UnreadRows(d, session)), claim, d.now + RESERVATION_TTL_MS);
  }

  lemma UnreadKept(d: Daemon, session: nat)
    ensures forall r :: Unread(Prune(d), session, r) == Unread(d, session, r)
  {
  }

  /** A recap sources from every unread row, leased or claimed. It keeps the
      discipline exactly when every unread row of its session is available. */
  lemma RecapKeepsInvIff(d: Daemon, id: nat, session: nat, maxEvents: Option<int>)
    requires Inv(d) && id !in d.reservations && UnreadRows(d, session) != []
    ensures Inv(Next(d, Reserve(id, session, PostCompact, maxEvents))) <==>
            forall r :: r in d.rows && Unread(d, session, r) ==> r.Key() !in d.claimed && !Leased(d, r.Key())
  {
    hide Next, Inv, Unread;
    var p := Prune(d);
    PruneInv(d);
    var plan := RecapReserves(d, id, session, maxEvents);
    AddPlanInv(p, id, plan);
    var keys := plan.candidates;
    if forall r :: r in d.rows && Unread(d, session, r) ==> r.Key() !in d.claimed && !Leased(d, r.Key()) {
      forall key | key in keys
        ensures key in Keys(d.rows) && key !in d.claimed && !Leased(d, key)
      {
        var r :| r in UnreadRows(d, session) && r.Key() == key;
      }
    } else {
      var r :| r in d.rows && Unread(d, session, r) && (r.Key() in d.claimed || Leased(d, r.Key()));
      assert r in UnreadRows(d, session) && r.Key() in keys;
      if Leased(d, r.Key()) && r.Key() !in d.claimed {
        var i :| i in d.reservations && Live(d.reservations[i], d.now) && r.Key() in d.reservations[i].candidates;
        assert i in p.reservations && r.Key() in p.reservations[i].candidates;
      }
    }
  }

  /** A recap claimed outright keeps the discipline when it meets no stored lease. */
  lemma ClaimInv(p: Daemon, keys: set<RowKey>)
    requires Inv(p) && keys <= Keys(p.rows)
    ensures Inv(Apply(p, keys)) <==> forall id :: id in p.reservations ==> keys !! p.reservations[id].candidates
  {
    var q := Apply(p, keys);
    if Inv(q) {
      forall id | id in p.reservations ensures keys !! p.reservations[id].candidates {
        assert Unclaimed(q, q.reservations[id].candidates);
      }
    }
  }

  /** Claimed directly, a recap may take claimed rows again but no leased ones. */
  lemma DirectRecapKeepsInvIff(d: Daemon, session: nat, maxEvents: Option<int>)
    requires Inv(d)
    ensures Inv(Next(d, DirectClaim(session, PostCompact, maxEvents))) <==>
            forall r :: r in d.rows && Unread(d, session, r) ==> !Leased(d, r.Key())
  {
    hide Inv, Unread, Unclaimed;
    var p := Prune(d);
    PruneInv(d);
    UnreadKept(d, session);
    SelectAgrees(d.rows, (r: Row) => Unread(d, session, r), (r: Row) => Unread(p, session, r));
    var unread := UnreadRows(d, session);
    if unread != [] {
      ClaimInv(p, Keys(unread));
      LeasedIffHeld(d, unread);
    } else {
      NoneIsEmpty(unread);
    }
  }

  lemma LeasedIffHeld(d: Daemon, rows: seq<Row>)
    ensures (forall id :: id in Prune(d).reservations ==> Keys(rows) !! Prune(d).reservations[id].candidates) <==>
            forall r :: r in rows ==> !Leased(d, r.Key())
  {
    var p := Prune(d);
    forall r | r in rows && Leased(d, r.Key())
      ensures exists id :: id in p.reservations && !(Keys(rows) !! p.reservations[id].candidates)
    {
      var id :| id in d.reservations && Live(d.reservations[id], d.now) && r.Key() in d.reservations[id].candidates;
      assert r.Key() in Keys(rows) && id in p.reservations && r.Key() in p.reservations[id].candidates;
    }
    forall id, key | id in p.reservations && key in Keys(rows) && key in p.reservations[id].candidates
      ensures exists r :: r in rows && Leased(d, r.Key())
    {
      var r :| r in rows && r.Key() == key;
      assert Leased(d, r.Key());
    }
  }

  /** An operation that leaves leased rows alone: any but a recap, and a recap
      none of whose rows is leased or, if it is only reserved, claimed before. */
  predicate Orderly(d: Daemon, op: Op) {
    Recaps(op) ==>
      forall r :: r in d.rows && Unread(d, op.session, r) ==> !Leased(d, r.Key()) && (op.Reserve? ==> r.Key() !in d.claimed)
  }

  /** The lease discipline survives an operation exactly when it is orderly. */
  lemma OpKeepsInvIff(d: Daemon, op: Op)
    requires Inv(d) && Admits(d, op)
    ensures Inv(Next(d, op)) <==> Orderly(d, op)
  {
    hide Inv, Next, Unread, Leased;
    if !Recaps(op) {
      StepInv(d, op);
    } else if op.DirectClaim? {
      DirectRecapKeepsInvIff(d, op.session, op.maxEvents);
    } else if UnreadRows(d, op.session) != [] {
      RecapKeepsInvIff(d, op.id, op.session, op.maxEvents);
    } else {
      NothingToRecap(d, op.id, op.session, op.maxEvents);
    }
  }

  lemma NothingToRecap(d: Daemon, id: nat, session: nat, maxEvents: Option<int>)
    requires Inv(d) && id !in d.reservations && UnreadRows(d, session) == []
    ensures Inv(Next(d, Reserve(id, session, PostCompact, maxEvents)))
    ensures forall r :: r in d.rows ==> !Unread(d, session, r)
  {
    hide Inv, Unread;
    PruneInv(d);
    UnreadKept(d, session);
    SelectAgrees(d.rows, (r: Row) => Unread(d, session, r), (r: Row) => Unread(Prune(d), session, r));
    forall r | r in d.rows ensures !Unread(d, session, r) { assert r !in UnreadRows(d, session); }
  }

  /** A concrete recap over a leased row: two live reservations then hold it. */
  lemma RecapLeasesTwice()
    ensures var key := RowKey(0, []);
            var row := Row(0, Normal, 0, Event([], [], [], [], [], [], None, None));
            var d := Daemon([row], {}, {}, map[1 := Plan({key}, Claim(TurnInterruptible, [], REMINDER, None), 30000)], 0);
            var twice := Next(d, Reserve(2, 0, PostCompact, None));
            Inv(d) && Holds(twice, 1, key) && Holds(twice, 2, key)
  {
    var row := Row(0, Normal, 0, Event([], [], [], [], [], [], None, None));
    var d := Daemon([row], {}, {}, map[1 := Plan({row.Key()}, Claim(TurnInterruptible, [], REMINDER, None), 30000)], 0);
    assert row in d.rows && Unread(d, 0, row) && row in UnreadRows(d, 0);
    assert row.Key() in Keys(d.rows) && row.Key() in Keys(UnreadRows(d, 0));
    var plan := RecapReserves(d, 2, 0, None);
  }

  // ----- every run -----

  ghost predicate Runnable(d: Daemon, ops: seq<Op>)
    decreases |ops|
  {
    ops == [] || (Admits(d, ops[0]) && Runnable(Next(d, ops[0]), ops[1..]))
  }

  ghost function Run(d: Daemon, ops: seq<Op>): Daemon
    requires Runnable(d, ops)
    decreases |ops|
  {
    if ops == [] then d else Run(Next(d, ops[0]), ops[1..])
  }

  ghost predicate OrderlyRun(d: Daemon, ops: seq<Op>)
    requires Runnable(d, ops)
    decreases |ops|
  {
    ops == [] || (Orderly(d, ops[0]) && OrderlyRun(Next(d, ops[0]), ops[1..]))
  }

  ghost predicate InvThroughout(d: Daemon, ops: seq<Op>)
    requires Runnable(d, ops)
    decreases |ops|
  {
    Inv(d) && (ops == [] || InvThroughout(Next(d, ops[0]), ops[1..]))
  }

  /** The discipline holds all along a run exactly when the run is orderly. */
  lemma {:induction false} RunInvIff(d: Daemon, ops: seq<Op>)
    requires Inv(d) && Runnable(d, ops)
    ensures InvThroughout(d, ops) <==> OrderlyRun(d, ops)
    ensures InvThroughout(d, ops) ==> Inv(Run(d, ops))
    decreases |ops|
  {
    hide Next, Inv, Admits, Orderly;
    if ops != [] {
      OpKeepsInvIff(d, ops[0]);
      if Inv(Next(d, ops[0])) { RunInvIff(Next(d, ops[0]), ops[1..]); }
    }
  }

  ghost predicate Holds(d: Daemon, id: nat, key: RowKey) {
    id in d.reservations && Live(d.reservations[id], d.now) && key in d.reservations[id].candidates
  }

  ghost predicate LeasedOnce(d: Daemon, key: RowKey) {
    exists id :: Holds(d, id, key) && forall other :: Holds(d, other, key) ==> other == id
  }

  /** An unacknowledged row is exactly one of claimed, leased to exactly one
      live reservation, or available to the next claim decision. */
  lemma Trichotomy(d: Daemon, r: Row)
    requires Inv(d) && r in d.rows && r.Key() !in d.acked
    ensures var claimed, leased, available :=
              r.Key() in d.claimed, LeasedOnce(d, r.Key()), r in Available(d, r.session, r.urgency);
            && (claimed || leased || available)
            && !(claimed && leased) && !(claimed && available) && !(leased && available)
  {
    if Leased(d, r.Key()) {
      var id :| id in d.reservations && Live(d.reservations[id], d.now) && r.Key() in d.reservations[id].candidates;
      assert Holds(d, id, r.Key());
    }
  }

  /** Whatever happened before, in any order and on any clock, recaps included
      that touched no leased row. */
  lemma TrichotomyInEveryRun(now: int, ops: seq<Op>, r: Row)
    requires Runnable(Start(now), ops) && OrderlyRun(Start(now), ops)
    requires var d := Run(Start(now), ops); r in d.rows && r.Key() !in d.acked
    ensures var d := Run(Start(now), ops);
            var claimed, leased, available :=
              r.Key() in d.claimed, LeasedOnce(d, r.Key()), r in Available(d, r.session, r.urgency);
            && (claimed || leased || available)
            && !(claimed && leased) && !(claimed && available) && !(leased && available)
  {
    hide Orderly, Next, Admits;
    RunInvIff(Start(now), ops);
    Trichotomy(Run(Start(now), ops), r);
  }

  // ----- reserve, then commit or release -----

  /** Reserving and committing in time is claiming directly. */
  lemma ReserveCommitIsClaim(d: Daemon, id: nat, session: nat, lifecycle: Lifecycle, maxEvents: Option<int>)
    requires id !in d.reservations
    ensures Next(Next(d, Reserve(id, session, lifecycle, maxEvents)), Commit(id)) ==
            Next(d, DirectClaim(session, lifecycle, maxEvents))
  {
    hide Decide;
    var p := Prune(d);
    var q := Next(d, Reserve(id, session, lifecycle, maxEvents));
    assert Without(q.reservations, id) == p.reservations;
  }

  /** Reserving and releasing leaves every claim decision as it was. */
  lemma ReserveReleaseIsNothing(d: Daemon, id: nat, session: nat, lifecycle: Lifecycle, maxEvents: Option<int>)
    requires id !in d.reservations
    ensures Next(Next(d, Reserve(id, session, lifecycle, maxEvents)), Release(id)) == Prune(d)
  {
    hide Decide;
    var p := Prune(d);
    var q := Next(d, Reserve(id, session, lifecycle, maxEvents));
    assert Without(q.reservations, id) == p.reservations;
  }

  lemma PruneHidesNothing(d: Daemon, session: nat, lifecycle: Lifecycle, maxEvents: Option<int>)
    ensures Decide(Prune(d), session, lifecycle, maxEvents) == Decide(d, session, lifecycle, maxEvents)
    ensures PreviewSettledHigh(Prune(d), session) == PreviewSettledHigh(d, session)
    ensures PreviewReminder(Prune(d), session) == PreviewReminder(d, session)
  {
    hide Pending, Leased;
    PruneKeepsViews(d, session, High);
    PruneKeepsViews(d, session, Normal);
    PruneKeepsViews(d, session, Low);
    SelectAgrees(d.rows, r => Unread(d, session, r), r => Unread(Prune(d), session, r));
    SelectAgrees(Available(d, session, High), (r: Row) => d.now - r.createdAt >= SETTLE_MS,
                 (r: Row) => Prune(d).now - r.createdAt >= SETTLE_MS);
  }

  lemma PruneKeepsViews(d: Daemon, session: nat, urgency: Urgency)
    ensures Available(Prune(d), session, urgency) == Available(d, session, urgency)
    ensures LeasedPending(Prune(d), session, urgency) == LeasedPending(d, session, urgency)
  {
    var p := Prune(d);
    forall r: Row ensures Leased(p, r.Key()) == Leased(d, r.Key()) { SameLeases(d, r.Key()); }
    SelectAgrees(d.rows, r => Pending(d, session, urgency, r) && !Leased(d, r.Key()),
                 r => Pending(p, session, urgency, r) && !Leased(p, r.Key()));
    SelectAgrees(d.rows, r => Pending(d, session, urgency, r) && Leased(d, r.Key()),
                 r => Pending(p, session, urgency, r) && Leased(p, r.Key()));
  }

  lemma SameLeases(d: Daemon, key: RowKey)
    ensures Leased(Prune(d), key) == Leased(d, key)
  {
    if Leased(d, key) {
      var id :| id in d.reservations && Live(d.reservations[id], d.now) && key in d.reservations[id].candidates;
      assert id in Prune(d).reservations;
    }
  }

  // ----- what a transport may rely on -----

  /** A turn-interruptible claim with bodies shows a prefix of the preview, no
      longer than asked for, with the previewed reminder. */
  lemma ClaimMatchesPreview(d: Daemon, session: nat, maxEvents: Option<int>)
    requires Decide(d, session, TurnInterruptible, maxEvents).Some?
    ensures var claim := Decide(d, session, TurnInterruptible, maxEvents).value.claim;
            var preview := PreviewSettledHigh(d, session);
            && (claim.events == [] <==> preview == [])
            && claim.events == preview[..Limit(|preview|, maxEvents)]
            && (claim.events != [] ==> claim.reminder == PreviewReminder(d, session))
            && (claim.events == [] ==> claim.message == REMINDER && claim.reminder.None?)
            && (maxEvents.Some? ==> |claim.events| <= Max(1, maxEvents.value))
  {
    hide Available, ReminderDue;
    var settled := SettledHigh(d, session);
    assert EventsOf(settled[..Limit(|settled|, maxEvents)]) == EventsOf(settled)[..Limit(|settled|, maxEvents)];
  }

  /** A row the claim itself shows, or one its reminder line speaks for. */
  ghost predicate Spoken(claim: Claim, r: Row) {
    r.event in claim.events
    || (claim.lifecycle.TurnInterruptible? && r.urgency.Normal? && (claim.reminder.Some? || claim.events == []))
    || (claim.lifecycle.TurnIdle? && r.urgency.Low?)
  }

  /** Outside recaps the claimed set is the surfaced set: every candidate is
      shown or spoken for, everything shown is a candidate, and a high-urgency
      row is claimed only once it has settled. */
  lemma ClaimedIsSurfaced(d: Daemon, session: nat, lifecycle: Lifecycle, maxEvents: Option<int>)
    requires !lifecycle.PostCompact? && Decide(d, session, lifecycle, maxEvents).Some?
    ensures var decision := Decide(d, session, lifecycle, maxEvents).value;
            && decision.candidates != []
            && (forall r :: r in decision.candidates ==>
                  Spoken(decision.claim, r) && (r.urgency.High? ==> d.now - r.createdAt >= SETTLE_MS))
            && (forall e :: e in decision.claim.events ==> exists r :: r in decision.candidates && r.event == e)
  {
    hide LeasedPending, Leased, SettledHigh, Limit;
    if lifecycle.TurnInterruptible? && SettledHigh(d, session) != [] {
      SurfacedRows(SettledHigh(d, session), Limit(|SettledHigh(d, session)|, maxEvents));
      SettledMeans(d, session);
    }
  }

  lemma SurfacedRows(settled: seq<Row>, limit: nat)
    requires limit <= |settled|
    ensures forall r :: r in settled[..limit] ==> r in settled && r.event in EventsOf(settled[..limit])
    ensures forall e :: e in EventsOf(settled[..limit]) ==> exists r :: r in settled[..limit] && r.event == e
  {
    var surfaced := settled[..limit];
    forall r | r in surfaced ensures r.event in EventsOf(surfaced) {
      var i :| 0 <= i < |surfaced| && surfaced[i] == r;
      assert EventsOf(surfaced)[i] == r.event;
    }
  }

  lemma SettledMeans(d: Daemon, session: nat)
    ensures forall r :: r in SettledHigh(d, session) ==> r.urgency.High? && d.now - r.createdAt >= SETTLE_MS
  {
    hide Leased;
  }

  /** A turn-interruptible decision is withheld only when nothing has settled and
      there is no reminder to give: none pending, one already in flight, or
      fresh high-urgency work that it must not preempt. */
  lemma WithheldIff(d: Daemon, session: nat, maxEvents: Option<int>)
    ensures Decide(d, session, TurnInterruptible, maxEvents).None? <==>
            && (forall r :: r in d.rows && Pending(d, session, High, r) && !Leased(d, r.Key()) ==>
                  d.now - r.createdAt < SETTLE_MS)
            && ((forall r :: r in d.rows && Pending(d, session, Normal, r) ==> Leased(d, r.Key()))
                || (exists r :: r in d.rows && Pending(d, session, Normal, r) && Leased(d, r.Key()))
                || (exists r :: r in d.rows && Pending(d, session, High, r) && !Leased(d, r.Key())))
  {
    hide Pending, Leased;
    NoneIsEmpty(SettledHigh(d, session));
    NoneIsEmpty(Available(d, session, High));
    NoneIsEmpty(Available(d, session, Normal));
    NoneIsEmpty(LeasedPending(d, session, Normal));
  }

  lemma NoneIsEmpty(rows: seq<Row>)
    ensures rows == [] <==> forall r :: r !in rows
  {
    if rows != [] { assert rows[0] in rows; }
  }

  /** A recap claims every unread row but shows the newest ten: exactly then is
      anything claimed that was not shown. */
  lemma RecapShowsAllIff(d: Daemon, session: nat, maxEvents: Option<int>)
    requires UnreadRows(d, session) != []
    ensures var decision := Decide(d, session, PostCompact, maxEvents).value;
            && decision.candidates == UnreadRows(d, session)
            && decision.claim.events ==
               EventsOf(UnreadRows(d, session)[Max(0, |UnreadRows(d, session)| - MAX_RECAP_EVENTS)..])
            && (|decision.claim.events| == |decision.candidates| <==> |decision.candidates| <= MAX_RECAP_EVENTS)
  {
    hide Unread;
  }
}
