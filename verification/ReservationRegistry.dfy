/** The in-memory registry of uncommitted reservations, as the daemon keeps it,
    against the operations of the daemon model. */
module ReservationRegistry {
  import opened Options
  import opened DeliveryRender
  import opened DeliveryDaemon

  class Registry {
    var reservations: map<nat, Plan>
    var nextId: nat

    ghost predicate Valid()
      reads this
    {
      forall id :: id in reservations ==> id < nextId
    }

    constructor ()
      ensures Valid() && reservations == map[]
    {
      reservations, nextId := map[], 0;
    }

    method Add(candidates: set<RowKey>, claim: Claim, now: int) returns (id: nat)
      requires Valid()
      modifies this
      ensures Valid() && id !in old(reservations)
      ensures reservations == old(reservations)[id := Plan(candidates, claim, now + RESERVATION_TTL_MS)]
    {
      id := nextId;
      nextId := nextId + 1;
      reservations := reservations[id := Plan(candidates, claim, now + RESERVATION_TTL_MS)];
    }

    /** Removes the reservation whether or not it is still live. */
    method Take(id: nat, now: int) returns (plan: Option<Plan>)
      requires Valid()
      modifies this
      ensures Valid() && reservations == Without(old(reservations), id)
      ensures plan == if id in old(reservations) && Live(old(reservations)[id], now)
                      then Some(old(reservations)[id]) else None
    {
      plan := if id in reservations then Some(reservations[id]) else None;
      reservations := Without(reservations, id);
      if plan.Some? && !Live(plan.value, now) {
        plan := None;
      }
    }

    method Remove(id: nat) returns (plan: Option<Plan>)
      requires Valid()
      modifies this
      ensures Valid() && reservations == Without(old(reservations), id)
      ensures plan == if id in old(reservations) then Some(old(reservations)[id]) else None
    {
      plan := if id in reservations then Some(reservations[id]) else None;
      reservations := Without(reservations, id);
    }

    /** The leased keys of one session; expired reservations are dropped on the way. */
    method ReservedKeys(session: nat, now: int) returns (leased: set<RowKey>)
      requires Valid()
      modifies this
      ensures Valid()
      ensures forall id :: id in reservations <==> id in old(reservations) && Live(old(reservations)[id], now)
      ensures forall id :: id in reservations ==> reservations[id] == old(reservations)[id]
      ensures forall key :: key in leased <==>
                key.session == session && exists id :: id in reservations && key in reservations[id].candidates
    {
      leased := {};
      var todo := reservations.Keys;
      ghost var all := reservations;
      while todo != {}
        invariant todo <= all.Keys && Valid()
        invariant forall id :: id in reservations <==> id in all && (id in todo || Live(all[id], now))
        invariant forall id :: id in reservations ==> reservations[id] == all[id]
        invariant forall key :: key in leased <==>
                    key.session == session
                    && exists id :: id in reservations && id !in todo && key in reservations[id].candidates
        decreases |todo|
      {
        var id :| id in todo;
        todo := todo - {id};
        if Live(reservations[id], now) {
          leased := leased + set key | key in reservations[id].candidates && key.session == session;
        } else {
          reservations := Without(reservations, id);
        }
      }
    }
  }

  /** What the registry reports as leased is what the daemon model hides. */
  lemma ReportedIsLeased(d: Daemon, leased: set<RowKey>, session: nat, pruned: map<nat, Plan>)
    requires forall id :: id in pruned <==> id in d.reservations && Live(d.reservations[id], d.now)
    requires forall id :: id in pruned ==> pruned[id] == d.reservations[id]
    requires forall key :: key in leased <==>
               key.session == session && exists id :: id in pruned && key in pruned[id].candidates
    ensures pruned == Prune(d).reservations
    ensures forall key: RowKey :: key.session == session ==> (key in leased <==> Leased(d, key))
  {
    forall key: RowKey | key.session == session ensures key in leased <==> Leased(d, key) {
      if Leased(d, key) {
        var id :| id in d.reservations && Live(d.reservations[id], d.now) && key in d.reservations[id].candidates;
        assert id in pruned;
      }
    }
  }
}
