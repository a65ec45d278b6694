/** The delivery-transport verdict of `doctor`: problems collected per heartbeat
    and per pipeline, and the one answer that matters, whether anything would
    reach the agent now. */
module TransportHealth {
  import opened Utf16
  import opened Options
  import opened Heartbeats

  datatype Code =
    | DaemonUnreachable | WorkspaceMismatch | SocketMismatch | EnvironmentMismatch
    | RemindersSuppressed | HeartbeatStale | VersionSkew | ChannelRegistrationUnverified
    | DeliveryDiagnosisUnavailable | ChannelSessionUnmatched | ChannelLeadUncovered | HookLeadUncovered

  datatype Reason = CoalescedUntilAck | AlreadyClaimed | SettleWindow | ReservedInFlight

  /** `claimedEventIds` is absent when missing or not a list of ids. */
  datatype Hold = Hold(reason: Reason, claimedEventIds: Option<seq<Text>>)

  datatype Diagnosis = Diagnosis(sessionId: Text, holds: seq<Hold>)

  datatype Input = Input(resolve: Resolver, workspace: Text, socket: Text, daemonRunning: bool,
                         leads: seq<Text>, heartbeats: seq<Heartbeat>, diagnoses: seq<Diagnosis>,
                         diagnosisUnavailable: seq<Text>, cliVersion: Text, home: Text, dataRoot: Text, now: int)

  datatype Status = Status(kind: Kind, configured: bool, running: bool, healthy: bool, problems: seq<Code>)

  datatype Reach = ViaHook | ViaChannel | ViaBoth | ViaNone

  datatype Health = Health(transports: seq<Status>, pipeline: seq<Code>, reach: Reach, deliverable: bool)

  predicate IsShared(c: Code) { c.DaemonUnreachable? || c.RemindersSuppressed? || c.DeliveryDiagnosisUnavailable? }

  predicate IsAdvisory(c: Code) { c.ChannelRegistrationUnverified? || c.VersionSkew? }

  predicate DisqualifiesFromListening(c: Code) { !IsShared(c) && !IsAdvisory(c) }

  // ----- what each problem means -----

  predicate SameWorkspace(input: Input, h: Heartbeat) { input.resolve(h.workspace) == input.resolve(input.workspace) }

  predicate ActiveLead(input: Input, h: Heartbeat) { h.hostSession.Some? && h.hostSession.value in input.leads }

  predicate SameEnvironment(input: Input, h: Heartbeat) { h.home == input.home && h.dataRoot == input.dataRoot }

  /** When one record exhibits one problem. */
  predicate Exhibits(input: Input, kind: Kind, h: Heartbeat, c: Code) {
    match c
    case WorkspaceMismatch => !SameWorkspace(input, h)
    case SocketMismatch => SameWorkspace(input, h) && input.resolve(h.socket) != input.resolve(input.socket)
    case EnvironmentMismatch => !SameEnvironment(input, h)
    case ChannelSessionUnmatched => kind.Channel? && !ActiveLead(input, h)
    case HeartbeatStale => IsStale(h, input.now)
    case VersionSkew => h.version != input.cliVersion
    case ChannelRegistrationUnverified => kind.Channel? && !IsStale(h, input.now)
    case _ => false
  }

  function Shows(input: Input, kind: Kind, h: Heartbeat, c: Code): nat { if Exhibits(input, kind, h, c) then 1 else 0 }

  function BindingCount(input: Input, h: Heartbeat): nat {
    Shows(input, h.kind, h, WorkspaceMismatch) + Shows(input, h.kind, h, SocketMismatch)
    + Shows(input, h.kind, h, EnvironmentMismatch)
  }

  /** How many problems a record exhibits. */
  function ProblemCount(input: Input, kind: Kind, h: Heartbeat): nat {
    BindingCount(input, h) + Shows(input, kind, h, ChannelSessionUnmatched) + Shows(input, kind, h, HeartbeatStale)
    + Shows(input, kind, h, VersionSkew) + Shows(input, kind, h, ChannelRegistrationUnverified)
  }

  method BindingProblems(input: Input, h: Heartbeat) returns (problems: seq<Code>)
    ensures |problems| == BindingCount(input, h)
    ensures forall c :: c in problems <==>
              c in {WorkspaceMismatch, SocketMismatch, EnvironmentMismatch} && Exhibits(input, h.kind, h, c)
  {
    problems := [];
    if !MatchesBinding(input.resolve, h, input.workspace, input.socket) {
      if !SameWorkspace(input, h) {
        problems := problems + [WorkspaceMismatch];
      } else {
        problems := problems + [SocketMismatch];
      }
    }
    if !SameEnvironment(input, h) {
      problems := problems + [EnvironmentMismatch];
    }
  }

  /** Every problem a single record exhibits, and no other. */
  method HeartbeatProblems(input: Input, kind: Kind, h: Heartbeat) returns (problems: seq<Code>)
    ensures |problems| == ProblemCount(input, kind, h)
    ensures forall c :: c in problems <==> Exhibits(input, kind, h, c)
    ensures WorkspaceMismatch in problems <==> input.resolve(h.workspace) != input.resolve(input.workspace)
    ensures SocketMismatch in problems <==>
            input.resolve(h.workspace) == input.resolve(input.workspace)
            && input.resolve(h.socket) != input.resolve(input.socket)
    ensures EnvironmentMismatch in problems <==> h.home != input.home || h.dataRoot != input.dataRoot
    ensures ChannelSessionUnmatched in problems <==>
            kind == Channel && (h.hostSession.None? || h.hostSession.value !in input.leads)
    ensures HeartbeatStale in problems <==>
            h.updatedAt.None? || input.now < h.updatedAt.value - 5000 || input.now > h.updatedAt.value + h.ttlMs
    ensures VersionSkew in problems <==> h.version != input.cliVersion
    ensures ChannelRegistrationUnverified in problems <==> kind == Channel && HeartbeatStale !in problems
  {
    FreshInWindow(h, input.now);
    problems := BindingProblems(input, h);
    var stale := IsStale(h, input.now);
    if kind.Channel? && !ActiveLead(input, h) {
      problems := problems + [ChannelSessionUnmatched];
    }
    if stale {
      problems := problems + [HeartbeatStale];
    }
    if h.version != input.cliVersion {
      problems := problems + [VersionSkew];
    }
    if kind.Channel? && !stale {
      problems := problems + [ChannelRegistrationUnverified];
    }
  }

  // ----- reminder suppression -----

  predicate Suppressing(hold: Hold) { hold.reason.CoalescedUntilAck? || hold.reason.AlreadyClaimed? }

  predicate Trustworthy(hold: Hold) {
    hold.claimedEventIds.Some? && hold.claimedEventIds.value != []
    && forall i :: 0 <= i < |hold.claimedEventIds.value| ==> hold.claimedEventIds.value[i] != []
  }

  predicate HasHold(input: Input, trusted: bool) {
    exists d :: 0 <= d < |input.diagnoses| && HoldIn(input.diagnoses[d].holds, trusted)
  }

  predicate HoldIn(holds: seq<Hold>, trusted: bool) {
    exists i :: 0 <= i < |holds| && Suppressing(holds[i]) && Trustworthy(holds[i]) == trusted
  }

  /** A suppression whose claimed ids cannot be trusted is not muted and not
      deliverable either: it is a diagnosis that could not be made. */
  method SuppressionProblems(input: Input) returns (problems: seq<Code>)
    ensures forall c :: c in problems <==>
              (c.RemindersSuppressed? && HasHold(input, true)) || (c.DeliveryDiagnosisUnavailable? && HasHold(input, false))
  {
    hide Suppressing, Trustworthy, HoldIn;
    var trusted, untrusted := false, false;
    for d := 0 to |input.diagnoses|
      invariant trusted <==> exists k :: 0 <= k < d && HoldIn(input.diagnoses[k].holds, true)
      invariant untrusted <==> exists k :: 0 <= k < d && HoldIn(input.diagnoses[k].holds, false)
    {
      trusted := trusted || HoldIn(input.diagnoses[d].holds, true);
      untrusted := untrusted || HoldIn(input.diagnoses[d].holds, false);
    }
    problems := [];
    if trusted {
      problems := problems + [RemindersSuppressed];
    }
    if untrusted {
      problems := problems + [DeliveryDiagnosisUnavailable];
    }
  }

  // ----- selecting and ranking records -----

  function Where(hs: seq<Heartbeat>, keep: Heartbeat -> bool): (kept: seq<Heartbeat>)
    ensures forall h :: h in kept <==> h in hs && keep(h)
  {
    if hs == [] then []
    else
      assert hs == [hs[0]] + hs[1..];
      (if keep(hs[0]) then [hs[0]] else []) + Where(hs[1..], keep)
  }

  /** Absent, below everything, for a timestamp unparseable or too far ahead. */
  function Freshness(h: Heartbeat, now: int): Option<int> {
    if h.updatedAt.None? || now - h.updatedAt.value < -FUTURE_TOLERANCE_MS then None else h.updatedAt
  }

  predicate Fresher(a: Option<int>, b: Option<int>) { a.Some? && (b.None? || a.value > b.value) }

  /** Freshest first; equally fresh records in any order. */
  predicate FreshestFirst(hs: seq<Heartbeat>, now: int) {
    forall i, j :: 0 <= i < j < |hs| ==> !Fresher(Freshness(hs[j], now), Freshness(hs[i], now))
  }

  function InsertFreshest(x: Heartbeat, hs: seq<Heartbeat>, now: int): (r: seq<Heartbeat>)
    ensures multiset(r) == multiset{x} + multiset(hs)
  {
    if hs == [] || !Fresher(Freshness(hs[0], now), Freshness(x, now)) then [x] + hs
    else
      assert hs == [hs[0]] + hs[1..];
      [hs[0]] + InsertFreshest(x, hs[1..], now)
  }

  lemma {:induction false} InsertKeepsOrder(x: Heartbeat, hs: seq<Heartbeat>, now: int)
    requires FreshestFirst(hs, now)
    ensures FreshestFirst(InsertFreshest(x, hs, now), now)
  {
    hide Freshness;
    if hs != [] && Fresher(Freshness(hs[0], now), Freshness(x, now)) {
      InsertKeepsOrder(x, hs[1..], now);
      var rest := InsertFreshest(x, hs[1..], now);
      forall j | 0 <= j < |rest| ensures !Fresher(Freshness(rest[j], now), Freshness(hs[0], now)) {
        assert rest[j] in multiset(rest);
      }
      assert InsertFreshest(x, hs, now) == [hs[0]] + rest;
    }
  }

  /** Stable, freshest first. */
  function Freshest(hs: seq<Heartbeat>, now: int): (r: seq<Heartbeat>)
    ensures multiset(r) == multiset(hs) && FreshestFirst(r, now)
  {
    if hs == [] then []
    else
      assert hs == [hs[0]] + hs[1..];
      InsertKeepsOrder(hs[0], Freshest(hs[1..], now), now);
      InsertFreshest(hs[0], Freshest(hs[1..], now), now)
  }

  /** A record that speaks for an active lead here. A channel record counts
      whatever workspace it is bound to, a hook record only in this one. */
  predicate Serves(input: Input, kind: Kind, h: Heartbeat) {
    h.kind == kind && ActiveLead(input, h) && (kind.Hook? ==> SameWorkspace(input, h))
  }

  function OfKind(input: Input, kind: Kind): (hs: seq<Heartbeat>)
    ensures forall h :: h in hs <==> h in input.heartbeats && h.kind == kind
  {
    Where(input.heartbeats, (h: Heartbeat) => h.kind == kind)
  }

  function Here(input: Input, kind: Kind): (hs: seq<Heartbeat>)
    ensures forall h :: h in hs <==> h in input.heartbeats && h.kind == kind && SameWorkspace(input, h)
  {
    Where(OfKind(input, kind), (h: Heartbeat) => SameWorkspace(input, h))
  }

  function Serving(input: Input, kind: Kind): (hs: seq<Heartbeat>)
    ensures forall h :: h in hs <==> h in input.heartbeats && Serves(input, kind, h)
  {
    Where(if kind.Hook? then Here(input, kind) else OfKind(input, kind), (h: Heartbeat) => ActiveLead(input, h))
  }

  /** Records of active leads if there are any; otherwise those of this
      workspace, shown but serving nobody. */
  function SelectHeartbeats(input: Input, kind: Kind): (selected: seq<Heartbeat>)
    ensures Serving(input, kind) != [] ==> forall h :: h in selected <==> h in Serving(input, kind)
    ensures Serving(input, kind) == [] ==> forall h :: h in selected <==> h in Here(input, kind)
    ensures FreshestFirst(selected, input.now)
  {
    var pool := if Serving(input, kind) != [] then Serving(input, kind) else Here(input, kind);
    var selected := Freshest(pool, input.now);
    SameElements(selected, pool);
    selected
  }

  lemma SameElements(a: seq<Heartbeat>, b: seq<Heartbeat>)
    requires multiset(a) == multiset(b)
    ensures forall h :: h in a <==> h in b
    ensures |a| == |b|
  {
    forall h ensures h in a <==> h in b { assert h in multiset(a) <==> h in multiset(b); }
    assert |multiset(a)| == |multiset(b)|;
  }

  datatype Ranked = Ranked(heartbeat: Heartbeat, problems: seq<Code>)

  predicate RanksAbove(a: Ranked, b: Ranked, now: int) {
    var fa, fb := Freshness(a.heartbeat, now), Freshness(b.heartbeat, now);
    Fresher(fa, fb) || (!Fresher(fb, fa) && |a.problems| > |b.problems|)
  }

  /** Fresher, or as fresh with more problems. */
  predicate Outranks(input: Input, kind: Kind, a: Heartbeat, b: Heartbeat) {
    var fa, fb := Freshness(a, input.now), Freshness(b, input.now);
    Fresher(fa, fb) || (!Fresher(fb, fa) && ProblemCount(input, kind, a) > ProblemCount(input, kind, b))
  }

  /** The first record that no other outranks. */
  function Representative(input: Input, kind: Kind, matches: seq<Heartbeat>): (h: Heartbeat)
    requires matches != []
    ensures h in matches
  {
    var n := |matches| - 1;
    if n == 0 then matches[0]
    else
      var before := Representative(input, kind, matches[..n]);
      if Outranks(input, kind, matches[n], before) then matches[n] else before
  }

  function InsertRanked(x: Ranked, rs: seq<Ranked>, now: int): (r: seq<Ranked>)
    ensures |r| == |rs| + 1
    ensures r[0] == if rs == [] || RanksAbove(x, rs[0], now) then x else rs[0]
    ensures forall e :: e in r <==> e == x || e in rs
  {
    if rs == [] || RanksAbove(x, rs[0], now) then [x] + rs
    else
      assert rs == [rs[0]] + rs[1..];
      [rs[0]] + InsertRanked(x, rs[1..], now)
  }

  predicate Uncovered(input: Input, matches: seq<Heartbeat>) {
    exists i :: 0 <= i < |input.leads| && !CoversLead(matches, input.leads[i])
  }

  predicate CoversLead(matches: seq<Heartbeat>, lead: Text) {
    exists k :: 0 <= k < |matches| && matches[k].hostSession == Some(lead)
  }

  function UncoveredCode(kind: Kind): Code { if kind.Channel? then ChannelLeadUncovered else HookLeadUncovered }

  ghost predicate OwnProblem(input: Input, kind: Kind, matches: seq<Heartbeat>, c: Code) {
    (exists h :: h in matches && Exhibits(input, kind, h, c)) || (c == UncoveredCode(kind) && Uncovered(input, matches))
  }

  /** One transport's row: every selected record's problems, the uncovered leads,
      then the shared ones; the freshest record represents it. */
  ghost predicate Summarizes(input: Input, matches: seq<Heartbeat>, shared: seq<Code>, status: Status) {
    && (status.configured <==> matches != [])
    && (status.running <==> matches != [] && !IsStale(Representative(input, status.kind, matches), input.now))
    && (forall c :: c in status.problems <==> matches != [] && (OwnProblem(input, status.kind, matches, c) || c in shared))
    && (status.healthy <==>
          status.running && forall c :: c in status.problems ==> c == ChannelRegistrationUnverified || c == VersionSkew)
  }

  method BuildTransport(input: Input, kind: Kind, shared: seq<Code>) returns (status: Status)
    ensures status.kind == kind && Summarizes(input, SelectHeartbeats(input, kind), shared, status)
    ensures status.configured && HookLeadUncovered !in shared ==>
              (HookLeadUncovered in status.problems <==> kind == Hook && SomeLeadMissing(input, kind))
    ensures status.configured && ChannelLeadUncovered !in shared ==>
              (ChannelLeadUncovered in status.problems <==> kind == Channel && SomeLeadMissing(input, kind))
  {
    hide Exhibits, IsStale, Uncovered, SelectHeartbeats, SomeLeadMissing;
    LeadMissingMeans(input, kind);
    NoRecordUncovered(input, kind);
    var matches := SelectHeartbeats(input, kind);
    if matches == [] {
      return Status(kind, false, false, false, []);
    }
    status := Summarize(input, kind, matches, shared);
  }

  method Summarize(input: Input, kind: Kind, matches: seq<Heartbeat>, shared: seq<Code>) returns (status: Status)
    requires matches != []
    ensures status.kind == kind && Summarizes(input, matches, shared, status)
  {
    hide Exhibits, IsStale, Uncovered, IsAdvisory;
    var ranked, problems := Rank(input, kind, matches);
    var stale := IsStale(ranked[0].heartbeat, input.now);
    if Uncovered(input, matches) {
      problems := problems + [UncoveredCode(kind)];
    }
    problems := problems + shared;
    var blocking := exists i :: 0 <= i < |problems| && !IsAdvisory(problems[i]);
    BlockingMeans(problems);
    return Status(kind, true, !stale, !stale && !blocking, problems);
  }

  lemma BlockingMeans(problems: seq<Code>)
    ensures (forall i :: 0 <= i < |problems| ==> IsAdvisory(problems[i])) <==>
            forall c :: c in problems ==> c == ChannelRegistrationUnverified || c == VersionSkew
  {
    if forall i :: 0 <= i < |problems| ==> IsAdvisory(problems[i]) {
      forall c | c in problems ensures c == ChannelRegistrationUnverified || c == VersionSkew {
        var i :| 0 <= i < |problems| && problems[i] == c;
        assert IsAdvisory(problems[i]);
      }
    } else {
      var i :| 0 <= i < |problems| && !IsAdvisory(problems[i]);
      assert problems[i] in problems;
    }
  }

  /** An active lead no selected record names. */
  ghost predicate SomeLeadMissing(input: Input, kind: Kind) {
    exists lead :: lead in input.leads && forall h :: h in SelectHeartbeats(input, kind) ==> h.hostSession != Some(lead)
  }

  lemma LeadMissingMeans(input: Input, kind: Kind)
    ensures SomeLeadMissing(input, kind) <==> Uncovered(input, SelectHeartbeats(input, kind))
  {
    hide SelectHeartbeats, CoversLead, FreshestFirst, Serving, Here;
    var matches := SelectHeartbeats(input, kind);
    forall lead ensures CoversLead(matches, lead) <==> exists h :: h in matches && h.hostSession == Some(lead) {
      CoversMeans(matches, lead);
    }
    assert forall i :: 0 <= i < |input.leads| ==> input.leads[i] in input.leads;
  }

  lemma NoRecordUncovered(input: Input, kind: Kind)
    ensures forall h :: !Exhibits(input, kind, h, HookLeadUncovered) && !Exhibits(input, kind, h, ChannelLeadUncovered)
  {
  }

  /** Rank the records and unite their problems. */
  method Rank(input: Input, kind: Kind, matches: seq<Heartbeat>) returns (ranked: seq<Ranked>, problems: seq<Code>)
    ensures |ranked| == |matches|
    ensures matches != [] ==> ranked[0].heartbeat == Representative(input, kind, matches)
    ensures forall c :: c in problems <==> exists h :: h in matches && Exhibits(input, kind, h, c)
  {
    hide Exhibits, ProblemCount, Freshness, RanksAbove, Outranks, Representative;
    ranked, problems := [], [];
    FirstLeads(input, kind, matches);
    for i := 0 to |matches|
      invariant |ranked| == i
      invariant i > 0 ==> ranked[0].heartbeat == Representative(input, kind, matches[..i])
                          && |ranked[0].problems| == ProblemCount(input, kind, ranked[0].heartbeat)
      invariant forall c :: c in problems <==> exists k :: 0 <= k < i && Exhibits(input, kind, matches[k], c)
    {
      var own := HeartbeatProblems(input, kind, matches[i]);
      if i > 0 { LeadStep(input, kind, matches, i, own, ranked[0]); }
      ranked := InsertRanked(Ranked(matches[i], own), ranked, input.now);
      problems := problems + own;
    }
    assert matches[..|matches|] == matches;
  }

  lemma FirstLeads(input: Input, kind: Kind, matches: seq<Heartbeat>)
    ensures |matches| > 0 ==> Representative(input, kind, matches[..1]) == matches[0]
  {
  }

  lemma LeadStep(input: Input, kind: Kind, matches: seq<Heartbeat>, i: nat, own: seq<Code>, first: Ranked)
    requires 0 < i < |matches| && |own| == ProblemCount(input, kind, matches[i])
    requires first.heartbeat == Representative(input, kind, matches[..i])
    requires |first.problems| == ProblemCount(input, kind, first.heartbeat)
    ensures Representative(input, kind, matches[..i + 1]) ==
            if RanksAbove(Ranked(matches[i], own), first, input.now) then matches[i] else first.heartbeat
  {
    hide ProblemCount, Freshness;
    assert matches[..i + 1][..i] == matches[..i];
  }

  // ----- the verdict -----

  /** A transport listens when it runs and nothing of its own disqualifies it. */
  predicate Listens(status: Status) {
    status.running && forall i :: 0 <= i < |status.problems| ==> !DisqualifiesFromListening(status.problems[i])
  }

  /** What every configured transport's row carries besides its own problems. */
  ghost predicate IsPipeline(input: Input, c: Code) {
    || (c.DaemonUnreachable? && !input.daemonRunning)
    || (c.RemindersSuppressed? && HasHold(input, true))
    || (c.DeliveryDiagnosisUnavailable? && (HasHold(input, false) || input.diagnosisUnavailable != []))
  }

  /** Which transports would reach the active leads. */
  ghost function ReachOf(input: Input): Reach {
    if input.leads == [] then ViaNone
    else if Reached(input, Kind.Hook) then if Reached(input, Kind.Channel) then ViaBoth else ViaHook
    else if Reached(input, Kind.Channel) then ViaChannel else ViaNone
  }

  method ComputeTransportHealth(input: Input) returns (health: Health)
    ensures health.deliverable <==> Deliverable(input)
    ensures health.reach == ReachOf(input)
    ensures forall c :: c in health.pipeline <==> IsPipeline(input, c)
    ensures |health.transports| == 2 && health.transports[0].kind.Hook? && health.transports[1].kind.Channel?
    ensures forall i :: 0 <= i < 2 ==>
              Summarizes(input, SelectHeartbeats(input, health.transports[i].kind), health.pipeline, health.transports[i])
  {
    hide Summarizes, HasHold, Reached, Listens, Suppressing, SelectHeartbeats, Unsuppressed, SomeLeadMissing,
      FreshestFirst, Serving, Here;
    var shared: seq<Code> := [];
    if !input.daemonRunning {
      shared := shared + [DaemonUnreachable];
    }
    var suppression := SuppressionProblems(input);
    shared := shared + suppression;
    if input.diagnosisUnavailable != [] {
      shared := shared + [DeliveryDiagnosisUnavailable];
    }
    var hook := BuildTransport(input, Kind.Hook, shared);
    var channel := BuildTransport(input, Kind.Channel, shared);
    if input.leads != [] {
      ListensIffReached(input, Kind.Hook, shared, hook);
      ListensIffReached(input, Kind.Channel, shared, channel);
    }
    NoHoldMeans(input);
    var hasActiveLead := input.leads != [];
    var reach :=
      if !hasActiveLead then ViaNone
      else if Listens(hook) && Listens(channel) then ViaBoth
      else if Listens(hook) then ViaHook
      else if Listens(channel) then ViaChannel
      else ViaNone;
    var deliverable := hasActiveLead && !reach.ViaNone? && input.daemonRunning
                       && RemindersSuppressed !in shared && DeliveryDiagnosisUnavailable !in shared;
    health := Health([hook, channel], shared, reach, deliverable);
  }

  // ----- exactly when something would reach the agent -----

  /** The records speaking for active leads cover every one of them, and all are
      fresh and bound to this workspace, socket, home and data root. */
  ghost predicate Reached(input: Input, kind: Kind) {
    Covered(input, kind) && forall h :: h in input.heartbeats && Serves(input, kind, h) ==> Sound(input, h)
  }

  predicate Sound(input: Input, h: Heartbeat) {
    && !IsStale(h, input.now) && SameEnvironment(input, h)
    && MatchesBinding(input.resolve, h, input.workspace, input.socket)
  }

  ghost predicate Deliverable(input: Input) {
    && input.leads != [] && input.daemonRunning
    && Unsuppressed(input) && input.diagnosisUnavailable == []
    && (Reached(input, Kind.Hook) || Reached(input, Kind.Channel))
  }

  /** No diagnosis holds a reminder back, whether or not its ids can be trusted. */
  ghost predicate Unsuppressed(input: Input) {
    forall d, i :: 0 <= d < |input.diagnoses| && 0 <= i < |input.diagnoses[d].holds| ==>
      !Suppressing(input.diagnoses[d].holds[i])
  }

  lemma NoHoldMeans(input: Input)
    ensures Unsuppressed(input) <==> !HasHold(input, true) && !HasHold(input, false)
  {
    hide Suppressing, Trustworthy;
    if !Unsuppressed(input) {
      var d, i :| 0 <= d < |input.diagnoses| && 0 <= i < |input.diagnoses[d].holds|
                  && Suppressing(input.diagnoses[d].holds[i]);
      assert HoldIn(input.diagnoses[d].holds, Trustworthy(input.diagnoses[d].holds[i]));
    }
  }

  lemma SoundMeans(input: Input, kind: Kind, h: Heartbeat)
    requires Serves(input, kind, h)
    ensures Sound(input, h) <==> forall c :: DisqualifiesFromListening(c) ==> !Exhibits(input, kind, h, c)
  {
    hide IsStale;
    if !Sound(input, h) {
      assert Exhibits(input, kind, h, WorkspaceMismatch) || Exhibits(input, kind, h, SocketMismatch)
             || Exhibits(input, kind, h, EnvironmentMismatch) || Exhibits(input, kind, h, HeartbeatStale);
    }
  }

  lemma CoversMeans(matches: seq<Heartbeat>, lead: Text)
    ensures CoversLead(matches, lead) <==> exists h :: h in matches && h.hostSession == Some(lead)
  {
    if h :| h in matches && h.hostSession == Some(lead) {
      var k :| 0 <= k < |matches| && matches[k] == h;
    }
  }

  ghost predicate Covered(input: Input, kind: Kind) {
    forall lead :: lead in input.leads ==>
      exists h :: h in input.heartbeats && Serves(input, kind, h) && h.hostSession == Some(lead)
  }

  lemma UncoveredMeans(input: Input, kind: Kind)
    ensures Serving(input, kind) != [] ==> (!Uncovered(input, SelectHeartbeats(input, kind)) <==> Covered(input, kind))
    ensures Serving(input, kind) == [] && input.leads != [] ==>
              Uncovered(input, SelectHeartbeats(input, kind)) && !Covered(input, kind)
  {
    hide Serves, Serving, SelectHeartbeats, SameWorkspace, CoversLead;
    var matches := SelectHeartbeats(input, kind);
    forall lead ensures CoversLead(matches, lead) <==> exists h :: h in matches && h.hostSession == Some(lead) {
      CoversMeans(matches, lead);
    }
    if Serving(input, kind) == [] {
      if input.leads != [] {
        NobodyServes(input, kind, input.leads[0]);
        assert input.leads[0] in input.leads;
      }
    } else {
      CoveredBySelection(input, kind, matches);
    }
  }

  lemma CoveredBySelection(input: Input, kind: Kind, matches: seq<Heartbeat>)
    requires forall h :: h in matches <==> h in input.heartbeats && Serves(input, kind, h)
    ensures Covered(input, kind) <==> !Uncovered(input, matches)
  {
    hide Serves, CoversLead;
    forall lead | lead in input.leads
      ensures CoversLead(matches, lead) <==>
              exists h :: h in input.heartbeats && Serves(input, kind, h) && h.hostSession == Some(lead)
    {
      CoversMeans(matches, lead);
    }
    assert forall i :: 0 <= i < |input.leads| ==> input.leads[i] in input.leads;
  }

  lemma NobodyServes(input: Input, kind: Kind, lead: Text)
    requires Serving(input, kind) == [] && lead in input.leads
    ensures forall h :: h in SelectHeartbeats(input, kind) ==> h.hostSession != Some(lead)
  {
    forall h | h in SelectHeartbeats(input, kind) ensures h.hostSession != Some(lead) {
      assert h in Here(input, kind) && h !in Serving(input, kind);
    }
  }

  lemma ListensIffReached(input: Input, kind: Kind, shared: seq<Code>, status: Status)
    requires input.leads != [] && (forall c :: c in shared ==> IsShared(c))
    requires status.kind == kind && Summarizes(input, SelectHeartbeats(input, kind), shared, status)
    ensures Listens(status) <==> Reached(input, kind)
  {
    hide Exhibits, IsStale, Serves, Sound, Uncovered, Covered, SelectHeartbeats, Serving, Listens,
      DisqualifiesFromListening;
    var matches := SelectHeartbeats(input, kind);
    UncoveredMeans(input, kind);
    ListensMeans(input, matches, shared, status);
    if Serving(input, kind) != [] {
      forall h | h in matches
        ensures Sound(input, h) <==> forall c :: DisqualifiesFromListening(c) ==> !Exhibits(input, kind, h, c)
        ensures Sound(input, h) ==> !IsStale(h, input.now)
      {
        assert h in Serving(input, kind);
        SoundMeans(input, kind, h);
        SoundIsFresh(input, h);
      }
      assert Serving(input, kind)[0] in Serving(input, kind);
      assert matches != [];
      assert forall h :: h in matches <==> h in input.heartbeats && Serves(input, kind, h);
    }
  }

  lemma SoundIsFresh(input: Input, h: Heartbeat)
    ensures Sound(input, h) ==> !IsStale(h, input.now)
  {
  }

  lemma ListensMeans(input: Input, matches: seq<Heartbeat>, shared: seq<Code>, status: Status)
    requires (forall c :: c in shared ==> IsShared(c)) && Summarizes(input, matches, shared, status)
    ensures Listens(status) <==>
            status.running && !Uncovered(input, matches)
            && forall h, c :: h in matches && DisqualifiesFromListening(c) ==> !Exhibits(input, status.kind, h, c)
  {
    hide Exhibits, IsStale, Uncovered;
    if status.running {
      assert DisqualifiesFromListening(UncoveredCode(status.kind));
      assert Listens(status) <==> forall c :: c in status.problems ==> !DisqualifiesFromListening(c);
    }
  }

  /** Neither the verdict nor the reach depends on the order of the registry. */
  lemma VerdictForgetsRegistryOrder(input: Input, shuffled: seq<Heartbeat>)
    requires multiset(input.heartbeats) == multiset(shuffled)
    ensures Deliverable(input) <==> Deliverable(input.(heartbeats := shuffled))
    ensures ReachOf(input) == ReachOf(input.(heartbeats := shuffled))
  {
    hide IsStale;
    var other := input.(heartbeats := shuffled);
    forall h ensures h in input.heartbeats <==> h in shuffled {
      assert h in multiset(input.heartbeats) <==> h in multiset(shuffled);
    }
    assert forall kind, h :: Serves(input, kind, h) == Serves(other, kind, h);
    assert forall h :: Sound(input, h) == Sound(other, h);
    assert forall kind :: Reached(input, kind) == Reached(other, kind);
  }

  // ----- when `running` depends on the order of the registry -----

  /** What a row says of `running`. */
  predicate Running(input: Input, kind: Kind) {
    var matches := SelectHeartbeats(input, kind);
    matches != [] && !IsStale(Representative(input, kind, matches), input.now)
  }

  /** A selected record that no other outranks; several may tie. */
  predicate Leads(input: Input, kind: Kind, h: Heartbeat) {
    var matches := SelectHeartbeats(input, kind);
    h in matches && forall g :: g in matches ==> !Outranks(input, kind, g, h)
  }

  lemma {:induction false} RepresentativeLeads(input: Input, kind: Kind, matches: seq<Heartbeat>)
    requires matches != []
    ensures forall g :: g in matches ==> !Outranks(input, kind, g, Representative(input, kind, matches))
  {
    hide ProblemCount, Freshness;
    var n := |matches| - 1;
    assert matches == matches[..n] + [matches[n]];
    if n > 0 { RepresentativeLeads(input, kind, matches[..n]); }
  }

  lemma {:induction false} UnrivalledLeads(input: Input, kind: Kind, matches: seq<Heartbeat>)
    requires matches != [] && forall g :: g in matches ==> !Outranks(input, kind, g, matches[0])
    ensures Representative(input, kind, matches) == matches[0]
  {
    hide Outranks;
    var n := |matches| - 1;
    if n > 0 {
      assert forall g :: g in matches[..n] ==> g in matches;
      UnrivalledLeads(input, kind, matches[..n]);
    }
  }

  lemma FreshestKeepsHead(hs: seq<Heartbeat>, now: int)
    requires hs != [] && forall h :: h in hs ==> !Fresher(Freshness(h, now), Freshness(hs[0], now))
    ensures Freshest(hs, now)[0] == hs[0]
  {
    hide Freshness, Fresher;
    SameElements(Freshest(hs[1..], now), hs[1..]);
    assert Freshest(hs[1..], now) != [] ==> Freshest(hs[1..], now)[0] in hs[1..];
  }

  /** A leading record that comes first in the registry represents the row. */
  lemma FirstLeaderShows(input: Input, kind: Kind)
    requires input.heartbeats != [] && Leads(input, kind, input.heartbeats[0])
    ensures Running(input, kind) == !IsStale(input.heartbeats[0], input.now)
  {
    hide ProblemCount, IsStale, Freshness, SameWorkspace, ActiveLead;
    var a, serving := input.heartbeats[0], Serving(input, kind);
    var pool := if serving != [] then serving else Here(input, kind);
    SameElements(Freshest(pool, input.now), pool);
    assert OfKind(input, kind)[0] == a;
    assert SameWorkspace(input, a) ==> Here(input, kind)[0] == a;
    assert pool[0] == a;
    FreshestKeepsHead(pool, input.now);
    UnrivalledLeads(input, kind, SelectHeartbeats(input, kind));
  }

  /** Every order of the same registry selects and ranks the same records. */
  lemma ShuffleKeepsLeaders(input: Input, kind: Kind, shuffled: seq<Heartbeat>)
    requires multiset(input.heartbeats) == multiset(shuffled)
    ensures forall h :: Leads(input, kind, h) == Leads(input.(heartbeats := shuffled), kind, h)
    ensures SelectHeartbeats(input, kind) == [] <==> SelectHeartbeats(input.(heartbeats := shuffled), kind) == []
  {
    hide SelectHeartbeats, Outranks;
    var other := input.(heartbeats := shuffled);
    ShuffleKeepsSelection(input, kind, shuffled);
    EmptyAlike(SelectHeartbeats(input, kind), SelectHeartbeats(other, kind));
    forall g, h ensures Outranks(input, kind, g, h) == Outranks(other, kind, g, h) {
      ShuffleKeepsRank(input, kind, shuffled, g, h);
    }
  }

  lemma ShuffleKeepsRank(input: Input, kind: Kind, shuffled: seq<Heartbeat>, g: Heartbeat, h: Heartbeat)
    ensures Outranks(input, kind, g, h) == Outranks(input.(heartbeats := shuffled), kind, g, h)
  {
    hide ProblemCount, Freshness;
    ShuffleKeepsCount(input, kind, shuffled, g);
    ShuffleKeepsCount(input, kind, shuffled, h);
  }

  lemma ShuffleKeepsCount(input: Input, kind: Kind, shuffled: seq<Heartbeat>, h: Heartbeat)
    ensures ProblemCount(input.(heartbeats := shuffled), kind, h) == ProblemCount(input, kind, h)
  {
    hide Exhibits, Shows;
    ShuffleKeepsProblems(input, h.kind, shuffled, h, WorkspaceMismatch);
    ShuffleKeepsProblems(input, h.kind, shuffled, h, SocketMismatch);
    ShuffleKeepsProblems(input, h.kind, shuffled, h, EnvironmentMismatch);
    ShuffleKeepsProblems(input, kind, shuffled, h, ChannelSessionUnmatched);
    ShuffleKeepsProblems(input, kind, shuffled, h, HeartbeatStale);
    ShuffleKeepsProblems(input, kind, shuffled, h, VersionSkew);
    ShuffleKeepsProblems(input, kind, shuffled, h, ChannelRegistrationUnverified);
  }

  lemma ShuffleKeepsProblems(input: Input, kind: Kind, shuffled: seq<Heartbeat>, h: Heartbeat, c: Code)
    ensures Shows(input.(heartbeats := shuffled), kind, h, c) == Shows(input, kind, h, c)
  {
    hide IsStale;
  }

  lemma ShuffleKeepsSelection(input: Input, kind: Kind, shuffled: seq<Heartbeat>)
    requires multiset(input.heartbeats) == multiset(shuffled)
    ensures forall h :: h in SelectHeartbeats(input, kind) <==> h in SelectHeartbeats(input.(heartbeats := shuffled), kind)
  {
    hide SelectHeartbeats, Serving, Here;
    var other := input.(heartbeats := shuffled);
    SameElements(input.heartbeats, shuffled);
    assert forall h :: h in Serving(input, kind) <==> h in Serving(other, kind);
    assert forall h :: h in Here(input, kind) <==> h in Here(other, kind);
    EmptyAlike(Serving(input, kind), Serving(other, kind));
  }

  lemma EmptyAlike(a: seq<Heartbeat>, b: seq<Heartbeat>)
    requires forall h :: h in a <==> h in b
    ensures a == [] <==> b == []
  {
    if a != [] { assert a[0] in b; }
    if b != [] { assert b[0] in a; }
  }

  /** `running` forgets the order of the registry exactly when the leading
      records agree on being stale. */
  lemma RunningForgetsOrderIff(input: Input, kind: Kind)
    ensures (forall shuffled :: multiset(shuffled) == multiset(input.heartbeats) ==>
               Running(input.(heartbeats := shuffled), kind) == Running(input, kind)) <==>
            (forall a, b :: Leads(input, kind, a) && Leads(input, kind, b) ==>
               IsStale(a, input.now) == IsStale(b, input.now))
  {
    hide IsStale, Running, Leads;
    if forall a, b :: Leads(input, kind, a) && Leads(input, kind, b) ==> IsStale(a, input.now) == IsStale(b, input.now) {
      forall shuffled | multiset(shuffled) == multiset(input.heartbeats)
        ensures Running(input.(heartbeats := shuffled), kind) == Running(input, kind)
      {
        AgreeingLeaders(input, kind, shuffled);
      }
    } else {
      var a, b :| Leads(input, kind, a) && Leads(input, kind, b) && IsStale(a, input.now) != IsStale(b, input.now);
      var toA := BringFirst(input, kind, a);
      var toB := BringFirst(input, kind, b);
    }
  }

  lemma AgreeingLeaders(input: Input, kind: Kind, shuffled: seq<Heartbeat>)
    requires multiset(shuffled) == multiset(input.heartbeats)
    requires forall a, b :: Leads(input, kind, a) && Leads(input, kind, b) ==>
               IsStale(a, input.now) == IsStale(b, input.now)
    ensures Running(input.(heartbeats := shuffled), kind) == Running(input, kind)
  {
    hide IsStale, SelectHeartbeats, Representative, Outranks;
    var other := input.(heartbeats := shuffled);
    ShuffleKeepsLeaders(input, kind, shuffled);
    var a, b := SelectHeartbeats(input, kind), SelectHeartbeats(other, kind);
    if a != [] {
      RepresentativeLeads(input, kind, a);
      RepresentativeLeads(other, kind, b);
      assert Leads(input, kind, Representative(input, kind, a)) && Leads(other, kind, Representative(other, kind, b));
    }
  }

  /** The registry with a leading record moved to the front. */
  lemma BringFirst(input: Input, kind: Kind, a: Heartbeat) returns (shuffled: seq<Heartbeat>)
    requires Leads(input, kind, a)
    ensures multiset(shuffled) == multiset(input.heartbeats)
    ensures Running(input.(heartbeats := shuffled), kind) == !IsStale(a, input.now)
  {
    hide IsStale, Running, Leads, SelectHeartbeats;
    var hs := input.heartbeats;
    LeaderIsRegistered(input, kind, a);
    var i :| 0 <= i < |hs| && hs[i] == a;
    shuffled := [a] + (hs[..i] + hs[i + 1..]);
    assert hs == hs[..i] + ([a] + hs[i + 1..]);
    ShuffleKeepsLeaders(input, kind, shuffled);
    FirstLeaderShows(input.(heartbeats := shuffled), kind);
  }

  lemma LeaderIsRegistered(input: Input, kind: Kind, a: Heartbeat)
    requires Leads(input, kind, a)
    ensures a in input.heartbeats
  {
  }

  /** A channel lease of `ttlMs` for one of two leads, written at time 0. */
  function Lease(lead: Text, ttlMs: int): Heartbeat {
    Heartbeat(Kind.Channel, [], [], [], [], Some(lead), [], Some(0), ttlMs)
  }

  function At(now: int, heartbeats: seq<Heartbeat>): Input {
    Input(p => p, [], [], true, [[0x61], [0x62]], heartbeats, [], [], [], [], [], now)
  }

  const LONG := Lease([0x61], 100)
  const SHORT := Lease([0x62], 5)

  /** Two equally fresh leases with as many problems each, one run out: the row
      says what the registry lists first. */
  lemma RunningMindsOrder()
    ensures Running(At(10, [LONG, SHORT]), Kind.Channel) && !Running(At(10, [SHORT, LONG]), Kind.Channel)
  {
    hide Leads, Running;
    BothLead([LONG, SHORT]);
    BothLead([SHORT, LONG]);
    FirstLeaderShows(At(10, [LONG, SHORT]), Kind.Channel);
    FirstLeaderShows(At(10, [SHORT, LONG]), Kind.Channel);
  }

  lemma BothLead(leases: seq<Heartbeat>)
    requires leases == [LONG, SHORT] || leases == [SHORT, LONG]
    ensures Leads(At(10, leases), Kind.Channel, leases[0])
  {
    hide SelectHeartbeats, Exhibits, Serving, Serves;
    var input := At(10, leases);
    ServesHere(leases);
    forall g | g in SelectHeartbeats(input, Kind.Channel) ensures !Outranks(input, Kind.Channel, g, leases[0]) {
      LeaseShows(leases, g);
      LeaseShows(leases, leases[0]);
    }
  }

  lemma ServesHere(leases: seq<Heartbeat>)
    requires leases == [LONG, SHORT] || leases == [SHORT, LONG]
    ensures Serving(At(10, leases), Kind.Channel) != [] && leases[0] in Serving(At(10, leases), Kind.Channel)
    ensures forall g :: g in Serving(At(10, leases), Kind.Channel) ==> g == LONG || g == SHORT
  {
    hide Serving;
    assert At(10, leases).leads[0] == [0x61] && At(10, leases).leads[1] == [0x62];
    assert ActiveLead(At(10, leases), leases[0]);
    assert leases[0] in Serving(At(10, leases), Kind.Channel);
  }

  lemma LeaseShows(leases: seq<Heartbeat>, g: Heartbeat)
    requires g == LONG || g == SHORT
    ensures ProblemCount(At(10, leases), Kind.Channel, g) == 1 && Freshness(g, 10) == Some(0)
  {
    assert At(10, leases).leads[0] == [0x61] && At(10, leases).leads[1] == [0x62];
    assert ActiveLead(At(10, leases), g);
  }

  // ----- the verdict from the input's own fields -----

  /** Of this transport, of an active lead, and, for the hook, of this workspace. */
  ghost predicate Speaks(input: Input, kind: Kind, h: Heartbeat) {
    && h in input.heartbeats && h.kind == kind && h.hostSession.Some? && h.hostSession.value in input.leads
    && (kind.Hook? ==> input.resolve(h.workspace) == input.resolve(input.workspace))
  }

  /** Bound to this workspace, socket, home and data root, written at most five seconds
      ahead of now, and not past its lease. */
  ghost predicate InOrder(input: Input, h: Heartbeat) {
    && input.resolve(h.workspace) == input.resolve(input.workspace)
    && input.resolve(h.socket) == input.resolve(input.socket)
    && h.home == input.home && h.dataRoot == input.dataRoot
    && h.updatedAt.Some? && h.updatedAt.value - 5000 <= input.now <= h.updatedAt.value + h.ttlMs
  }

  /** This transport speaks for every active lead, and always in order. */
  ghost predicate Carries(input: Input, kind: Kind) {
    && (forall lead :: lead in input.leads ==> exists h :: Speaks(input, kind, h) && h.hostSession == Some(lead))
    && (forall h :: Speaks(input, kind, h) ==> InOrder(input, h))
  }

  ghost predicate HoldsReminders(hold: Hold) { hold.reason == CoalescedUntilAck || hold.reason == AlreadyClaimed }

  ghost predicate SomeHold(input: Input) {
    exists d, i :: 0 <= d < |input.diagnoses| && 0 <= i < |input.diagnoses[d].holds|
                   && HoldsReminders(input.diagnoses[d].holds[i])
  }

  /** Which records a row is about: those that speak for active leads, if any do, and
      otherwise all of this transport bound to this workspace. */
  lemma SelectionMeans(input: Input, kind: Kind, h: Heartbeat)
    ensures h in SelectHeartbeats(input, kind) <==>
            if exists g :: Speaks(input, kind, g) then Speaks(input, kind, h)
            else h in input.heartbeats && h.kind == kind && input.resolve(h.workspace) == input.resolve(input.workspace)
  {
    hide SelectHeartbeats, Serving, Here;
    forall g ensures g in Serving(input, kind) <==> Speaks(input, kind, g) {}
    if Serving(input, kind) != [] { assert Serving(input, kind)[0] in Serving(input, kind); }
  }

  lemma ReachedMeans(input: Input, kind: Kind)
    ensures Reached(input, kind) <==> Carries(input, kind)
  {
    hide IsStale;
    forall h ensures Speaks(input, kind, h) <==> h in input.heartbeats && Serves(input, kind, h) {}
    forall h ensures InOrder(input, h) <==> Sound(input, h) { FreshInWindow(h, input.now); }
  }

  /** Something would reach the agent exactly when there is an active lead, the daemon
      runs, every lead could be diagnosed and none is muted, and some transport carries
      to them all. */
  lemma DeliverableMeans(input: Input)
    ensures Deliverable(input) <==>
            && input.leads != [] && input.daemonRunning && input.diagnosisUnavailable == [] && !SomeHold(input)
            && (Carries(input, Kind.Hook) || Carries(input, Kind.Channel))
    ensures ReachOf(input) == if input.leads == [] then ViaNone
                              else if Carries(input, Kind.Hook) && Carries(input, Kind.Channel) then ViaBoth
                              else if Carries(input, Kind.Hook) then ViaHook
                              else if Carries(input, Kind.Channel) then ViaChannel else ViaNone
  {
    hide Reached, Carries;
    ReachedMeans(input, Kind.Hook);
    ReachedMeans(input, Kind.Channel);
  }

  /** Ids a hold can be believed about. */
  ghost predicate Believable(ids: Option<seq<Text>>) {
    ids.Some? && ids.value != [] && forall i :: 0 <= i < |ids.value| ==> ids.value[i] != []
  }

  /** The shared problems: the daemon is down; some hold with believable ids; or some
      hold without, or a diagnosis that failed. */
  lemma PipelineMeans(input: Input, c: Code)
    ensures IsPipeline(input, c) <==>
            || (c == DaemonUnreachable && !input.daemonRunning)
            || (c == RemindersSuppressed
                && exists d, i :: 0 <= d < |input.diagnoses| && 0 <= i < |input.diagnoses[d].holds|
                                  && HoldsReminders(input.diagnoses[d].holds[i])
                                  && Believable(input.diagnoses[d].holds[i].claimedEventIds))
            || (c == DeliveryDiagnosisUnavailable
                && (input.diagnosisUnavailable != []
                    || exists d, i :: 0 <= d < |input.diagnoses| && 0 <= i < |input.diagnoses[d].holds|
                                      && HoldsReminders(input.diagnoses[d].holds[i])
                                      && !Believable(input.diagnoses[d].holds[i].claimedEventIds)))
  {
    HoldMeans(input, true);
    HoldMeans(input, false);
  }

  lemma HoldMeans(input: Input, trusted: bool)
    ensures HasHold(input, trusted) <==>
            exists d, i :: 0 <= d < |input.diagnoses| && 0 <= i < |input.diagnoses[d].holds|
                           && HoldsReminders(input.diagnoses[d].holds[i])
                           && Believable(input.diagnoses[d].holds[i].claimedEventIds) == trusted
  {
    forall hold: Hold
      ensures Suppressing(hold) == HoldsReminders(hold) && Trustworthy(hold) == Believable(hold.claimedEventIds)
    {
    }
    if d, i :| 0 <= d < |input.diagnoses| && 0 <= i < |input.diagnoses[d].holds|
               && HoldsReminders(input.diagnoses[d].holds[i])
               && Believable(input.diagnoses[d].holds[i].claimedEventIds) == trusted
    {
      assert HoldIn(input.diagnoses[d].holds, trusted);
    }
  }

  /** Written before `than` was, or at no time that counts: none that parses, or more
      than five seconds ahead of now. */
  ghost predicate Older(h: Heartbeat, than: int, now: int) {
    h.updatedAt.None? || h.updatedAt.value > now + 5000 || h.updatedAt.value < than
  }

  /** When one selected record was written after all the others, the row runs exactly
      while that record's lease lasts. */
  lemma NewestRecordRuns(input: Input, kind: Kind, newest: Heartbeat)
    requires newest in SelectHeartbeats(input, kind)
    requires newest.updatedAt.Some? && newest.updatedAt.value <= input.now + 5000
    requires forall h :: h in SelectHeartbeats(input, kind) && h != newest ==> Older(h, newest.updatedAt.value, input.now)
    ensures Running(input, kind) <==> input.now <= newest.updatedAt.value + newest.ttlMs
  {
    hide ProblemCount, SelectHeartbeats, Representative;
    var matches := SelectHeartbeats(input, kind);
    RepresentativeLeads(input, kind, matches);
    assert Representative(input, kind, matches) == newest;
    FreshInWindow(newest, input.now);
  }

  /** Of two records as fresh as each other, the one showing all the other's problems
      and one more leads. */
  lemma MoreProblemsLead(input: Input, kind: Kind, a: Heartbeat, b: Heartbeat, more: Code)
    requires a.updatedAt == b.updatedAt
    requires forall c :: Exhibits(input, kind, b, c) ==> Exhibits(input, kind, a, c)
    requires Exhibits(input, kind, a, more) && !Exhibits(input, kind, b, more)
    ensures Representative(input, kind, [a, b]) == a && Representative(input, kind, [b, a]) == a
  {
    hide Freshness, Fresher;
    FewerProblems(input, kind, a, b, more);
    NeverFresher(a, b, input.now);
    assert [a, b][..1] == [a] && [b, a][..1] == [b];
  }

  lemma NeverFresher(a: Heartbeat, b: Heartbeat, now: int)
    requires a.updatedAt == b.updatedAt
    ensures !Fresher(Freshness(a, now), Freshness(b, now)) && !Fresher(Freshness(b, now), Freshness(a, now))
  {
  }

  lemma FewerProblems(input: Input, kind: Kind, a: Heartbeat, b: Heartbeat, more: Code)
    requires forall c :: Exhibits(input, kind, b, c) ==> Exhibits(input, kind, a, c)
    requires Exhibits(input, kind, a, more) && !Exhibits(input, kind, b, more)
    ensures ProblemCount(input, kind, b) < ProblemCount(input, kind, a)
  {
    hide IsStale, SameWorkspace, SameEnvironment, ActiveLead;
    forall c ensures Shows(input, kind, b, c) <= Shows(input, kind, a, c) {}
    forall h ensures BindingCount(input, h) == Shows(input, kind, h, WorkspaceMismatch)
                     + Shows(input, kind, h, SocketMismatch) + Shows(input, kind, h, EnvironmentMismatch) {}
    assert Shows(input, kind, b, more) < Shows(input, kind, a, more);
  }
}
