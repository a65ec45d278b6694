/** The observe stage of `verify`: a verdict drawn from bounded windows over an
    append-only observation history. */
module VerifyObserve {
  import opened Options

  /** `Quiet` stands for every result the stage does not look at. */
  datatype Result = Triggered | Suppressed | NoChange | NoFilesMatched | Quiet

  datatype Row = Row(id: int, result: Result)

  datatype Verdict = SawTrigger | SawNoChange | SawNoFilesMatched

  /** The evidence one verification attempt has gathered. */
  datatype Evidence = Evidence(
    positiveAfterId: int,
    negativeAfterId: int,
    latestSeenId: int,
    noChangeIds: set<int>,
    hasGap: bool,
    sawSuppressed: bool)

  function Start(positiveAfterId: int, negativeAfterId: int): Evidence {
    Evidence(positiveAfterId, negativeAfterId, positiveAfterId, {}, negativeAfterId < positiveAfterId, false)
  }

  function LatestId(rows: seq<Row>, floor: int): (latest: int)
    ensures latest >= floor && (latest == floor || exists r :: r in rows && r.id == latest)
    ensures forall r :: r in rows ==> r.id <= latest
  {
    if rows == [] then floor
    else
      var before := LatestId(rows[..|rows| - 1], floor);
      var last := rows[|rows| - 1];
      assert rows == rows[..|rows| - 1] + [last];
      if last.id > before then last.id else before
  }

  predicate Has(rows: seq<Row>, after: int, result: Result) {
    exists r :: r in rows && r.id > after && r.result == result
  }

  function NoChangeIdsAfter(rows: seq<Row>, after: int): set<int> {
    set r | r in rows && r.id > after && r.result == NoChange :: r.id
  }

  predicate Frontier(rows: seq<Row>, id: int) {
    exists r :: r in rows && r.id == id
  }

  /** One poll, branch by branch. */
  function Resolve(e: Evidence, rows: seq<Row>, manual: bool): (Evidence, Option<Verdict>) {
    if Has(rows, e.positiveAfterId, Triggered) then (e, Some(SawTrigger))
    else
      var latestId := LatestId(rows, e.latestSeenId);
      var missed := latestId > e.latestSeenId && !Frontier(rows, e.latestSeenId);
      var e := e.(hasGap := e.hasGap || missed,
                  latestSeenId := latestId,
                  sawSuppressed := e.sawSuppressed || Has(rows, e.positiveAfterId, Suppressed));
      var negativeAfter := if e.negativeAfterId < e.positiveAfterId then e.positiveAfterId else e.negativeAfterId;
      if manual || e.hasGap then (e, None)
      else if Has(rows, negativeAfter, NoFilesMatched) then (e, Some(SawNoFilesMatched))
      else if e.sawSuppressed then (e, None)
      else
        var e := e.(noChangeIds := e.noChangeIds + NoChangeIdsAfter(rows, negativeAfter));
        (e, if |e.noChangeIds| >= 2 then Some(SawNoChange) else None)
  }

  method ReduceLatest(rows: seq<Row>, floor: int) returns (latest: int)
    ensures latest == LatestId(rows, floor)
  {
    latest := floor;
    for i := 0 to |rows|
      invariant latest == LatestId(rows[..i], floor)
    {
      assert rows[..i + 1][..i] == rows[..i];
      if rows[i].id > latest {
        latest := rows[i].id;
      }
    }
    assert rows[..|rows|] == rows;
  }

  method AddNoChangeIds(ids: set<int>, rows: seq<Row>, after: int) returns (grown: set<int>)
    ensures grown == ids + NoChangeIdsAfter(rows, after)
  {
    grown := ids;
    for i := 0 to |rows|
      invariant grown == ids + NoChangeIdsAfter(rows[..i], after)
    {
      assert rows[..i + 1] == rows[..i] + [rows[i]];
      if rows[i].id > after && rows[i].result == NoChange {
        grown := grown + {rows[i].id};
      }
    }
    assert rows[..|rows|] == rows;
  }

  class ObserveWindow {
    const positiveAfterId: int
    const negativeAfterId: int
    var latestSeenId: int
    var noChangeIds: set<int>
    var hasGap: bool
    var sawSuppressed: bool

    function Gathered(): Evidence
      reads this
    {
      Evidence(positiveAfterId, negativeAfterId, latestSeenId, noChangeIds, hasGap, sawSuppressed)
    }

    constructor (positiveAfterId: int, negativeAfterId: int)
      ensures Gathered() == Start(positiveAfterId, negativeAfterId)
    {
      this.positiveAfterId, this.negativeAfterId := positiveAfterId, negativeAfterId;
      latestSeenId, noChangeIds := positiveAfterId, {};
      hasGap, sawSuppressed := negativeAfterId < positiveAfterId, false;
    }

    method ResolveObserveVerdict(rows: seq<Row>, manual: bool) returns (verdict: Option<Verdict>)
      modifies this
      ensures (Gathered(), verdict) == Resolve(old(Gathered()), rows, manual)
      ensures verdict == Some(SawTrigger) <==> exists r :: r in rows && r.id > positiveAfterId && r.result.Triggered?
      ensures manual || hasGap ==> verdict.None? || verdict == Some(SawTrigger)
    {
      VerdictMeans(Gathered(), rows, manual);
      hide Has, LatestId, NoChangeIdsAfter;
      if Has(rows, positiveAfterId, Triggered) {
        return Some(SawTrigger);
      }
      var latestId := ReduceLatest(rows, latestSeenId);
      if latestId > latestSeenId && !Frontier(rows, latestSeenId) {
        hasGap := true;
      }
      latestSeenId := latestId;
      sawSuppressed := sawSuppressed || Has(rows, positiveAfterId, Suppressed);
      if manual || hasGap {
        return None;
      }
      var negativeAfter := if negativeAfterId < positiveAfterId then positiveAfterId else negativeAfterId;
      if Has(rows, negativeAfter, NoFilesMatched) {
        return Some(SawNoFilesMatched);
      }
      if sawSuppressed {
        return None;
      }
      noChangeIds := AddNoChangeIds(noChangeIds, rows, negativeAfter);
      return if |noChangeIds| >= 2 then Some(SawNoChange) else None;
    }
  }

  // ----- the whole history -----

  ghost predicate Increasing(log: seq<Row>) {
    forall i, j :: 0 <= i < j < |log| ==> log[i].id < log[j].id
  }

  /** `rows` is some bounded newest suffix of `log`, in any order. */
  ghost predicate NewestSuffix(rows: seq<Row>, log: seq<Row>) {
    exists k :: 0 <= k <= |log| && SameRows(rows, log[k..])
  }

  ghost predicate SameRows(a: seq<Row>, b: seq<Row>) {
    forall r :: r in a <==> r in b
  }

  /** Some row of the whole log in `(after, upTo]` has this result. */
  ghost predicate Recorded(log: seq<Row>, after: int, upTo: int, result: Result) {
    exists r :: r in log && after < r.id <= upTo && r.result == result
  }

  ghost function NoChangeIdsBetween(log: seq<Row>, after: int, upTo: int): set<int> {
    set r | r in log && after < r.id <= upTo && r.result == NoChange :: r.id
  }

  /** The verdict a reader of the whole history up to `upTo` would give. */
  ghost function WholeLogVerdict(log: seq<Row>, positiveAfter: int, negativeAfter: int, upTo: int): Option<Verdict> {
    if Recorded(log, positiveAfter, upTo, Triggered) then Some(SawTrigger)
    else if Recorded(log, negativeAfter, upTo, NoFilesMatched) then Some(SawNoFilesMatched)
    else if Recorded(log, positiveAfter, upTo, Suppressed) then None
    else if |NoChangeIdsBetween(log, negativeAfter, upTo)| >= 2 then Some(SawNoChange)
    else None
  }

  /** What undecided evidence without a gap knows of every row up to its
      frontier, including rows no later window still shows. */
  ghost predicate Covers(e: Evidence, log: seq<Row>) {
    && Increasing(log)
    && (e.latestSeenId == e.positiveAfterId || Frontier(log, e.latestSeenId))
    && e.positiveAfterId <= e.latestSeenId
    && (!e.hasGap ==>
          && e.positiveAfterId <= e.negativeAfterId
          && !Recorded(log, e.positiveAfterId, e.latestSeenId, Triggered)
          && !Recorded(log, e.negativeAfterId, e.latestSeenId, NoFilesMatched)
          && (Recorded(log, e.positiveAfterId, e.latestSeenId, Suppressed) <==> e.sawSuppressed)
          && (!e.sawSuppressed ==>
                e.noChangeIds == NoChangeIdsBetween(log, e.negativeAfterId, e.latestSeenId)))
  }

  lemma StartCovers(positiveAfterId: int, negativeAfterId: int, log: seq<Row>)
    requires Increasing(log)
    ensures Covers(Start(positiveAfterId, negativeAfterId), log)
  {
    assert NoChangeIdsBetween(log, negativeAfterId, positiveAfterId) == {} || negativeAfterId < positiveAfterId;
  }

  lemma WindowInLog(rows: seq<Row>, log: seq<Row>)
    requires NewestSuffix(rows, log)
    ensures forall r :: r in rows ==> r in log
  {
    var k :| 0 <= k <= |log| && SameRows(rows, log[k..]);
    forall r | r in rows ensures r in log { assert r in log[k..]; }
  }

  lemma IdsOrderRows(log: seq<Row>, i: nat, j: nat)
    requires Increasing(log) && i < |log| && j < |log| && log[i].id <= log[j].id
    ensures i <= j
  {
  }

  lemma SuffixIndex(log: seq<Row>, k: nat, r: Row) returns (i: nat)
    requires k <= |log| && r in log[k..]
    ensures k <= i < |log| && log[i] == r
  {
    var d :| 0 <= d < |log| - k && log[k..][d] == r;
    i := k + d;
  }

  lemma InSuffix(log: seq<Row>, k: nat, i: nat)
    requires k <= i < |log|
    ensures log[i] in log[k..]
  {
    assert log[k..][i - k] == log[i];
  }

  /** A window that shows its frontier shows every newer row of the log. */
  lemma WindowReachesFrontier(log: seq<Row>, rows: seq<Row>, frontier: int, r: Row)
    requires Increasing(log) && NewestSuffix(rows, log) && Frontier(rows, frontier)
    requires r in log && r.id > frontier
    ensures r in rows
  {
    var k :| 0 <= k <= |log| && SameRows(rows, log[k..]);
    var f :| f in rows && f.id == frontier;
    var i := SuffixIndex(log, k, f);
    var j :| 0 <= j < |log| && log[j] == r;
    IdsOrderRows(log, i, j);
    InSuffix(log, k, j);
  }

  /** Appending to a log adds nothing at or below a row it already had. */
  lemma OlderRowsStay(older: seq<Row>, log: seq<Row>, frontier: int, r: Row)
    requires Increasing(log) && older <= log && Frontier(older, frontier)
    requires r in log && r.id <= frontier
    ensures r in older
  {
    var s :| s in older && s.id == frontier;
    var i :| 0 <= i < |older| && older[i] == s;
    var j :| 0 <= j < |log| && log[j] == r;
    assert log[i] == older[i];
    IdsOrderRows(log, j, i);
    assert older[j] == log[j];
  }

  /** The step from one log to the next that loses no row in between. */
  ghost predicate Continuous(e: Evidence, older: seq<Row>, log: seq<Row>, rows: seq<Row>) {
    && Increasing(log) && older <= log && NewestSuffix(rows, log)
    && (e.latestSeenId == e.positiveAfterId || Frontier(older, e.latestSeenId))
    && (LatestId(rows, e.latestSeenId) > e.latestSeenId ==> Frontier(rows, e.latestSeenId))
  }

  /** With no gap, a row up to the new frontier was covered by the old one or is
      in the window now. */
  lemma RowIsSeen(e: Evidence, older: seq<Row>, log: seq<Row>, rows: seq<Row>, r: Row)
    requires Continuous(e, older, log, rows)
    requires r in log && e.positiveAfterId < r.id <= LatestId(rows, e.latestSeenId)
    ensures r in rows || (r in older && r.id <= e.latestSeenId)
  {
    if r.id <= e.latestSeenId {
      OlderRowsStay(older, log, e.latestSeenId, r);
    } else {
      WindowReachesFrontier(log, rows, e.latestSeenId, r);
    }
  }

  lemma RecordedSplits(e: Evidence, older: seq<Row>, log: seq<Row>, rows: seq<Row>, after: int, result: Result)
    requires Continuous(e, older, log, rows) && after >= e.positiveAfterId
    ensures Recorded(log, after, LatestId(rows, e.latestSeenId), result) <==>
            Recorded(older, after, e.latestSeenId, result) || Has(rows, after, result)
  {
    hide Continuous;
    var upTo := LatestId(rows, e.latestSeenId);
    if Recorded(log, after, upTo, result) {
      var r :| r in log && after < r.id <= upTo && r.result == result;
      RowIsSeen(e, older, log, rows, r);
    }
    if Recorded(older, after, e.latestSeenId, result) {
      var r :| r in older && after < r.id <= e.latestSeenId && r.result == result;
      ContinuousInclusions(e, older, log, rows);
      assert r in log && r.id <= upTo;
    }
    if Has(rows, after, result) {
      var r :| r in rows && r.id > after && r.result == result;
      ContinuousInclusions(e, older, log, rows);
      assert r in log && r.id <= upTo;
    }
  }

  lemma ContinuousInclusions(e: Evidence, older: seq<Row>, log: seq<Row>, rows: seq<Row>)
    requires Continuous(e, older, log, rows)
    ensures forall r :: r in rows ==> r in log
    ensures forall r :: r in older ==> r in log
  {
    WindowInLog(rows, log);
  }

  lemma NoChangeIdsSplit(e: Evidence, older: seq<Row>, log: seq<Row>, rows: seq<Row>, after: int)
    requires Continuous(e, older, log, rows) && after >= e.positiveAfterId
    ensures NoChangeIdsBetween(log, after, LatestId(rows, e.latestSeenId)) ==
            NoChangeIdsBetween(older, after, e.latestSeenId) + NoChangeIdsAfter(rows, after)
  {
    hide Continuous;
    var upTo := LatestId(rows, e.latestSeenId);
    var whole := NoChangeIdsBetween(log, after, upTo);
    var parts := NoChangeIdsBetween(older, after, e.latestSeenId) + NoChangeIdsAfter(rows, after);
    ContinuousInclusions(e, older, log, rows);
    forall id | id in whole ensures id in parts {
      var r :| r in log && after < r.id <= upTo && r.result == NoChange && r.id == id;
      RowIsSeen(e, older, log, rows, r);
    }
    forall id | id in parts ensures id in whole {
      if id in NoChangeIdsAfter(rows, after) {
        var r :| r in rows && r.id > after && r.result == NoChange && r.id == id;
        assert r in log && r.id <= upTo;
      } else {
        var r :| r in older && after < r.id <= e.latestSeenId && r.result == NoChange && r.id == id;
        assert r in log && r.id <= upTo;
      }
    }
  }

  lemma TriggerIsReal(log: seq<Row>, rows: seq<Row>, after: int, floor: int)
    requires NewestSuffix(rows, log) && Has(rows, after, Triggered)
    ensures Has(log, after, Triggered) && Recorded(log, after, LatestId(rows, floor), Triggered)
  {
    WindowInLog(rows, log);
    var r :| r in rows && r.id > after && r.result == Triggered;
    assert r in log && r.id <= LatestId(rows, floor);
  }

  lemma FrontierIsLogged(e: Evidence, older: seq<Row>, log: seq<Row>, rows: seq<Row>)
    requires Covers(e, older) && older <= log && NewestSuffix(rows, log)
    ensures var upTo := LatestId(rows, e.latestSeenId);
            upTo >= e.positiveAfterId && (upTo == e.positiveAfterId || Frontier(log, upTo))
  {
    WindowInLog(rows, log);
    var upTo := LatestId(rows, e.latestSeenId);
    if upTo > e.latestSeenId {
      var r :| r in rows && r.id == upTo;
      assert r in log;
    } else if upTo > e.positiveAfterId {
      var r :| r in older && r.id == upTo;
      assert r in log;
    }
  }

  /** One poll of an undecided attempt: its verdict is the one the whole log
      deserves, or, across a gap, at most a true trigger; and what it keeps
      still covers the log. */
  lemma PollIsTrueOfWholeLog(e: Evidence, older: seq<Row>, log: seq<Row>, rows: seq<Row>)
    requires Covers(e, older) && older <= log && Increasing(log) && NewestSuffix(rows, log)
    ensures var (e', v) := Resolve(e, rows, false);
            && (if e'.hasGap
                then v == if Has(rows, e.positiveAfterId, Triggered) then Some(SawTrigger) else None
                else v == WholeLogVerdict(log, e.positiveAfterId, e.negativeAfterId, LatestId(rows, e.latestSeenId)))
            && (v == Some(SawTrigger) ==> Has(log, e.positiveAfterId, Triggered))
            && (v == None ==> Covers(e', log))
  {
    hide Has, Recorded, LatestId, NoChangeIdsBetween, NoChangeIdsAfter, NewestSuffix, Increasing;
    FrontierIsLogged(e, older, log, rows);
    if Has(rows, e.positiveAfterId, Triggered) {
      TriggerIsReal(log, rows, e.positiveAfterId, e.latestSeenId);
    } else if Continuous(e, older, log, rows) && !e.hasGap {
      RecordedSplits(e, older, log, rows, e.positiveAfterId, Triggered);
      RecordedSplits(e, older, log, rows, e.positiveAfterId, Suppressed);
      RecordedSplits(e, older, log, rows, e.negativeAfterId, NoFilesMatched);
      NoChangeIdsSplit(e, older, log, rows, e.negativeAfterId);
    }
  }

  /** Which verdicts a poll can give at all: a trigger exactly when the window shows
      one, across a gap and by hand included; by hand or across a gap nothing else. */
  lemma VerdictMeans(e: Evidence, rows: seq<Row>, manual: bool)
    ensures var (e', v) := Resolve(e, rows, manual);
            && (v == Some(SawTrigger) <==>
                exists r :: r in rows && r.id > e.positiveAfterId && r.result.Triggered?)
            && (manual || e'.hasGap ==> v == None || v == Some(SawTrigger))
            && (v == None ==> e'.positiveAfterId == e.positiveAfterId && e'.negativeAfterId == e.negativeAfterId)
  {
  }

  datatype Poll = Poll(log: seq<Row>, rows: seq<Row>)

  /** Polls of one growing history, each showing a newest suffix of it. */
  ghost predicate Polls(polls: seq<Poll>) {
    && (forall i :: 0 <= i < |polls| ==> Increasing(polls[i].log) && NewestSuffix(polls[i].rows, polls[i].log))
    && (forall i :: 0 < i < |polls| ==> polls[i - 1].log <= polls[i].log)
  }

  /** The evidence after a run of polls that decided nothing, if it did not. */
  ghost function Undecided(start: Evidence, polls: seq<Poll>, manual: bool): Option<Evidence> {
    if polls == [] then Some(start)
    else
      var before := Undecided(start, polls[..|polls| - 1], manual);
      if before.None? then None else
      var (e, v) := Resolve(before.value, polls[|polls| - 1].rows, manual);
      if v == None then Some(e) else None
  }

  lemma {:induction false} RunCovers(p: int, n: int, polls: seq<Poll>)
    requires Polls(polls) && polls != [] && Undecided(Start(p, n), polls, false).Some?
    ensures Covers(Undecided(Start(p, n), polls, false).value, polls[|polls| - 1].log)
    ensures var e := Undecided(Start(p, n), polls, false).value; e.positiveAfterId == p && e.negativeAfterId == n
  {
    hide Covers, NewestSuffix, Increasing, WholeLogVerdict;
    var last := polls[|polls| - 1];
    var before := polls[..|polls| - 1];
    var e := Undecided(Start(p, n), before, false).value;
    if before == [] {
      StartCovers(p, n, last.log);
      PollIsTrueOfWholeLog(e, last.log, last.log, last.rows);
    } else {
      RunCovers(p, n, before);
      PollIsTrueOfWholeLog(e, before[|before| - 1].log, last.log, last.rows);
    }
  }

  /** The promise of the stage, over any run of polls. A `no-change` verdict
      means nothing was triggered or suppressed anywhere in the history up to
      the newest row seen, and two distinct no-change rows follow the trigger's
      completion; `no-files-matched` excludes any trigger; a trigger is real.
      It holds for rows that had left the window before the verdict. */
  lemma VerdictsAreTrue(p: int, n: int, polls: seq<Poll>, last: Poll, manual: bool)
    requires Polls(polls + [last]) && Undecided(Start(p, n), polls, manual).Some?
    ensures var e := Undecided(Start(p, n), polls, manual).value;
            var v := Resolve(e, last.rows, manual).1;
            var upTo := LatestId(last.rows, e.latestSeenId);
            && (v == Some(SawTrigger) ==> Has(last.log, p, Triggered))
            && (v == Some(SawNoChange) ==>
                  && !Recorded(last.log, p, upTo, Triggered) && !Recorded(last.log, p, upTo, Suppressed)
                  && |NoChangeIdsBetween(last.log, n, upTo)| >= 2)
            && (v == Some(SawNoFilesMatched) ==>
                  !Recorded(last.log, p, upTo, Triggered) && Recorded(last.log, n, upTo, NoFilesMatched))
  {
    var all := polls + [last];
    assert all[..|polls|] == polls && all[|polls|] == last;
    var e := Undecided(Start(p, n), polls, manual).value;
    if manual {
      ManualKeepsBounds(p, n, polls);
      if Has(last.rows, p, Triggered) { TriggerIsReal(last.log, last.rows, p, p); }
    } else if polls == [] {
      assert all[0] == last;
      StartCovers(p, n, last.log);
      PollIsTrueOfWholeLog(e, last.log, last.log, last.rows);
    } else {
      assert all[|polls| - 1] == polls[|polls| - 1];
      RunCovers(p, n, polls);
      PollIsTrueOfWholeLog(e, polls[|polls| - 1].log, last.log, last.rows);
    }
  }

  lemma {:induction false} ManualKeepsBounds(p: int, n: int, polls: seq<Poll>)
    requires Undecided(Start(p, n), polls, true).Some?
    ensures Undecided(Start(p, n), polls, true).value.positiveAfterId == p
  {
    if polls != [] { ManualKeepsBounds(p, n, polls[..|polls| - 1]); }
  }

  // ----- what a run of polls must answer -----

  /** The newest id any window showed so far, or the baseline. */
  ghost function SeenUpTo(p: int, polls: seq<Poll>): int {
    if polls == [] then p else LatestId(polls[|polls| - 1].rows, SeenUpTo(p, polls[..|polls| - 1]))
  }

  /** The window shows something newer than `seen`, but not `seen` itself. */
  ghost predicate Missed(seen: int, rows: seq<Row>) {
    (exists r :: r in rows && r.id > seen) && forall r :: r in rows ==> r.id != seen
  }

  ghost predicate MissedBefore(p: int, polls: seq<Poll>) {
    exists i :: 0 <= i < |polls| && Missed(SeenUpTo(p, polls[..i]), polls[i].rows)
  }

  lemma {:induction false} RunEvidence(p: int, n: int, polls: seq<Poll>, manual: bool)
    requires Undecided(Start(p, n), polls, manual).Some?
    ensures var e := Undecided(Start(p, n), polls, manual).value;
            && e.positiveAfterId == p && e.negativeAfterId == n && e.latestSeenId == SeenUpTo(p, polls)
            && (e.hasGap <==> n < p || MissedBefore(p, polls))
  {
    hide LatestId;
    if polls != [] {
      var before, last := polls[..|polls| - 1], polls[|polls| - 1];
      RunEvidence(p, n, before, manual);
      var e := Undecided(Start(p, n), before, manual).value;
      GapIffFrontierMissed(e, last.rows, manual);
      LatestKept(e, last.rows, manual);
      MissedMore(p, polls);
    }
  }

  lemma LatestKept(e: Evidence, rows: seq<Row>, manual: bool)
    requires Resolve(e, rows, manual).1 == None
    ensures Resolve(e, rows, manual).0.latestSeenId == LatestId(rows, e.latestSeenId)
    ensures Resolve(e, rows, manual).0.positiveAfterId == e.positiveAfterId
    ensures Resolve(e, rows, manual).0.negativeAfterId == e.negativeAfterId
  {
    hide LatestId;
  }

  lemma MissedMore(p: int, polls: seq<Poll>)
    requires polls != []
    ensures var n := |polls| - 1;
            MissedBefore(p, polls) <==> MissedBefore(p, polls[..n]) || Missed(SeenUpTo(p, polls[..n]), polls[n].rows)
  {
    hide Missed, SeenUpTo;
    var before := polls[..|polls| - 1];
    assert forall i :: 0 <= i < |before| ==> before[..i] == polls[..i] && before[i] == polls[i];
  }

  /** The answer of a run that was still open. By hand, across a missed frontier or a
      baseline taken backwards: a trigger if the window shows one, else none yet.
      Otherwise exactly what a reader of the whole history would say. */
  lemma RunDecides(p: int, n: int, polls: seq<Poll>, last: Poll, manual: bool)
    requires Polls(polls + [last]) && Undecided(Start(p, n), polls, manual).Some?
    ensures var v := Resolve(Undecided(Start(p, n), polls, manual).value, last.rows, manual).1;
            if manual || n < p || MissedBefore(p, polls + [last])
            then v == if exists r :: r in last.rows && r.id > p && r.result.Triggered? then Some(SawTrigger) else None
            else v == WholeLogVerdict(last.log, p, n, SeenUpTo(p, polls + [last]))
  {
    hide LatestId, Has, WholeLogVerdict, Covers, Missed, MissedBefore, SeenUpTo, Undecided;
    var all := polls + [last];
    assert all[..|polls|] == polls && all[|polls|] == last;
    RunEvidence(p, n, polls, manual);
    var e := Undecided(Start(p, n), polls, manual).value;
    LastStep(p, polls, last);
    if exists r :: r in last.rows && r.id > p && r.result.Triggered? { VerdictMeans(e, last.rows, manual); }
    VerdictMeans(e, last.rows, manual);
    GapStep(e, last.rows, manual);
    if !manual {
      if polls == [] {
        assert all[0] == last;
        StartCovers(p, n, last.log);
        StartIsUndecided(p, n, manual);
        PollIsTrueOfWholeLog(e, last.log, last.log, last.rows);
      } else {
        assert all[|polls| - 1] == polls[|polls| - 1];
        PollsBefore(polls, last);
        RunCovers(p, n, polls);
        PollIsTrueOfWholeLog(e, polls[|polls| - 1].log, last.log, last.rows);
      }
    }
  }

  lemma StartIsUndecided(p: int, n: int, manual: bool)
    ensures Undecided(Start(p, n), [], manual) == Some(Start(p, n))
  {
  }

  lemma PollsBefore(polls: seq<Poll>, last: Poll)
    requires Polls(polls + [last])
    ensures Polls(polls)
  {
    var all := polls + [last];
    assert forall i :: 0 <= i < |polls| ==> polls[i] == all[i];
  }

  lemma LastStep(p: int, polls: seq<Poll>, last: Poll)
    ensures SeenUpTo(p, polls + [last]) == LatestId(last.rows, SeenUpTo(p, polls))
    ensures MissedBefore(p, polls + [last]) <==> MissedBefore(p, polls) || Missed(SeenUpTo(p, polls), last.rows)
  {
    hide LatestId, Missed;
    var all := polls + [last];
    assert all[..|polls|] == polls;
    MissedMore(p, all);
  }

  /** A gap after a poll that gave no trigger: the old one, or a missed frontier. */
  lemma GapStep(e: Evidence, rows: seq<Row>, manual: bool)
    ensures Resolve(e, rows, manual).1 != Some(SawTrigger) ==>
              (Resolve(e, rows, manual).0.hasGap <==> e.hasGap || Missed(e.latestSeenId, rows))
  {
    if exists r :: r in rows && r.id > e.latestSeenId {
      assert LatestId(rows, e.latestSeenId) > e.latestSeenId;
    }
  }

  /** A gap is exactly a window that moved past its frontier without showing
      it, or a trigger snapshot older than the baseline. */
  lemma GapIffFrontierMissed(e: Evidence, rows: seq<Row>, manual: bool)
    requires Resolve(e, rows, manual).1 == None
    ensures Resolve(e, rows, manual).0.hasGap <==>
            e.hasGap || ((exists r :: r in rows && r.id > e.latestSeenId) &&
                         (forall r :: r in rows ==> r.id != e.latestSeenId))
  {
    if exists r :: r in rows && r.id > e.latestSeenId {
      assert LatestId(rows, e.latestSeenId) > e.latestSeenId;
    }
  }
}
