/** Transport heartbeats: owner-declared leases in a machine-wide registry. */
module Heartbeats {
  import opened Utf16
  import opened Options

  datatype Kind = Hook | Channel

  /** `updatedAt` is absent when the recorded timestamp does not parse. */
  datatype Heartbeat = Heartbeat(kind: Kind, workspace: Text, socket: Text, home: Text, dataRoot: Text,
                                 hostSession: Option<Text>, version: Text, updatedAt: Option<int>, ttlMs: int)

  const FUTURE_TOLERANCE_MS := 5000

  /** `path.resolve`, which this model does not look into. */
  type Resolver = Text -> Text

  predicate IsStale(h: Heartbeat, now: int) {
    match h.updatedAt
    case None => true
    case Some(updatedAt) =>
      var age := now - updatedAt;
      age < -FUTURE_TOLERANCE_MS || age > h.ttlMs
  }

  predicate MatchesBinding(resolve: Resolver, h: Heartbeat, workspace: Text, socket: Text) {
    resolve(h.workspace) == resolve(workspace) && resolve(h.socket) == resolve(socket)
  }

  /** A record is fresh exactly from a little before it was written, for clocks
      that disagree, to the end of its lease; afterwards it is stale for good. */
  lemma FreshInWindow(h: Heartbeat, now: int)
    ensures !IsStale(h, now) <==>
            h.updatedAt.Some? && h.updatedAt.value - FUTURE_TOLERANCE_MS <= now <= h.updatedAt.value + h.ttlMs
    ensures forall later :: h.updatedAt.Some? && h.updatedAt.value + h.ttlMs < now <= later ==> IsStale(h, later)
  {
  }
}
