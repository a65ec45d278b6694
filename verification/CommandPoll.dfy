/** The health and baseline machine of a command monitor in plain mode: what it
    observes over any history of command outcomes. */
module CommandPoll {
  import opened Utf16
  import opened Options
  import opened JsonPaths

  datatype Strategy = TextDiff | JsonDiff | ExitCode

  datatype Config = Config(strategy: Strategy, ignorePaths: seq<Text>)

  datatype Result = Result(stdout: Text, exitCode: int, truncated: bool)

  datatype Outcome = Failure | Success(result: Result)

  /** The persisted state: the last successful result, whether there was one, and
      whether the last run failed. */
  datatype State = State(stdout: Text, exitCode: int, truncated: bool, failing: bool, baselined: bool)

  datatype Observation = Failing | Recovered | Changed(result: Result)

  /** Whether a result differs from the baseline; absent when the comparison
      throws on an invalid ignore-path. */
  function HasChanged(parse: Parser, config: Config, prevStdout: Text, prevExitCode: int, curr: Result): Option<bool> {
    match config.strategy
    case ExitCode => Some(prevExitCode != curr.exitCode)
    case JsonDiff => JsonChanged(parse, config.ignorePaths, prevStdout, curr.stdout)
    case TextDiff => Some(prevStdout != curr.stdout)
  }

  type Observed = Option<(seq<Observation>, State)>

  /** The comparison against the baseline, if there is one. */
  function Compare(parse: Parser, config: Config, prev: Option<State>, result: Result): Option<bool> {
    if prev.Some? && prev.value.baselined
    then HasChanged(parse, config, prev.value.stdout, prev.value.exitCode, result)
    else Some(false)
  }

  function Step(parse: Parser, config: Config, prev: Option<State>, outcome: Outcome): Observed {
    match outcome
    case Failure =>
      Some((if prev.Some? && prev.value.failing then [] else [Failing],
            if prev.Some? then prev.value.(failing := true) else State([], 0, false, true, false)))
    case Success(result) =>
      var changed := Compare(parse, config, prev, result);
      if changed.None? then None
      else Some(((if prev.Some? && prev.value.failing then [Recovered] else [])
                 + (if changed.value then [Changed(result)] else []),
                 State(result.stdout, result.exitCode, result.truncated, false, true)))
  }

  // ----- over a whole history -----

  /** A run that throws leaves the stored state as it was. */
  function StateAfter(parse: Parser, config: Config, history: seq<Outcome>): Option<State> {
    if history == [] then None
    else
      var n := |history| - 1;
      var before := StateAfter(parse, config, history[..n]);
      var observed := Step(parse, config, before, history[n]);
      if observed.None? then before else Some(observed.value.1)
  }

  /** What the run numbered `i` gives, absent if it throws. */
  function ObservedAt(parse: Parser, config: Config, history: seq<Outcome>, i: nat): Observed
    requires i < |history|
  {
    Step(parse, config, StateAfter(parse, config, history[..i]), history[i])
  }

  /** The outcomes of the runs that did not throw. */
  function Kept(parse: Parser, config: Config, history: seq<Outcome>): (kept: seq<Outcome>)
    ensures |kept| <= |history|
  {
    if history == [] then []
    else
      var n := |history| - 1;
      Kept(parse, config, history[..n]) + (if ObservedAt(parse, config, history, n).None? then [] else [history[n]])
  }

  /** The latest success in a history. */
  function Latest(history: seq<Outcome>): (j: Option<nat>)
    ensures j.None? <==> forall k :: 0 <= k < |history| ==> history[k].Failure?
    ensures j.Some? ==> j.value < |history| && history[j.value].Success?
                        && forall k :: j.value < k < |history| ==> history[k].Failure?
  {
    if history == [] then None
    else if history[|history| - 1].Success? then Some(|history| - 1)
    else Latest(history[..|history| - 1])
  }

  predicate EndsFailing(history: seq<Outcome>) { history != [] && history[|history| - 1].Failure? }

  /** A state that is a digest of outcomes: the last one's health and the latest
      success, however many failures lie between. */
  ghost predicate Digest(kept: seq<Outcome>, state: Option<State>) {
    && (state.None? <==> kept == [])
    && (state.Some? ==>
          && (state.value.failing <==> EndsFailing(kept))
          && (state.value.baselined <==> Latest(kept).Some?)
          && (state.value.baselined ==>
                var result := kept[Latest(kept).value].result;
                state.value.stdout == result.stdout && state.value.exitCode == result.exitCode
                && state.value.truncated == result.truncated))
  }

  /** The stored state is a digest of the runs that did not throw. */
  lemma {:induction false} StateIsDigest(parse: Parser, config: Config, history: seq<Outcome>)
    ensures Digest(Kept(parse, config, history), StateAfter(parse, config, history))
  {
    hide HasChanged, Digest;
    if history == [] {
      EmptyDigest();
    } else {
      var n := |history| - 1;
      var before, kept := StateAfter(parse, config, history[..n]), Kept(parse, config, history[..n]);
      StateIsDigest(parse, config, history[..n]);
      if ObservedAt(parse, config, history, n).None? {
        assert kept + [] == kept;
      } else {
        DigestStep(parse, config, kept, before, history[n]);
      }
    }
  }

  lemma EmptyDigest()
    ensures Digest([], None)
  {
  }

  lemma DigestStep(parse: Parser, config: Config, kept: seq<Outcome>, state: Option<State>, outcome: Outcome)
    requires Digest(kept, state) && Step(parse, config, state, outcome).Some?
    ensures Digest(kept + [outcome], Some(Step(parse, config, state, outcome).value.1))
  {
    hide HasChanged;
    assert (kept + [outcome])[..|kept|] == kept;
  }

  /** Whether a result differs from the latest success among `kept`, if there is one:
      by exit code, by the printed text, or by the JSON both print. */
  function AgainstLatest(parse: Parser, config: Config, kept: seq<Outcome>, result: Result): Option<bool> {
    var latest := Latest(kept);
    if latest.None? then Some(false)
    else
      var baseline := kept[latest.value].result;
      match config.strategy
      case TextDiff => Some(result.stdout != baseline.stdout)
      case ExitCode => Some(result.exitCode != baseline.exitCode)
      case JsonDiff => JsonChanged(parse, config.ignorePaths, baseline.stdout, result.stdout)
  }

  /** What a run observes, from the outcomes that came before: the failing edge,
      the recovery edge, and a change against their latest success. It throws
      exactly when that comparison does. */
  ghost predicate Tells(parse: Parser, config: Config, kept: seq<Outcome>, outcome: Outcome, observed: Observed) {
    match outcome
    case Failure => observed.Some? && observed.value.0 == if EndsFailing(kept) then [] else [Failing]
    case Success(result) =>
      var changed := AgainstLatest(parse, config, kept, result);
      && (observed.None? <==> changed.None?)
      && (observed.Some? ==>
            observed.value.0 ==
              (if EndsFailing(kept) then [Recovered] else []) + (if changed.value then [Changed(result)] else []))
  }

  lemma StepTells(parse: Parser, config: Config, kept: seq<Outcome>, prev: Option<State>, outcome: Outcome)
    requires Digest(kept, prev)
    ensures Tells(parse, config, kept, outcome, Step(parse, config, prev, outcome))
  {
    hide JsonChanged;
  }

  /** One observe call, given the state the runs in `kept` left. Absent when it
      throws: nothing is emitted and nothing stored, not even a recovery. */
  method Observe(parse: Parser, config: Config, prev: Option<State>, outcome: Outcome, ghost kept: seq<Outcome>)
    returns (observed: Observed)
    requires Digest(kept, prev)
    ensures observed == Step(parse, config, prev, outcome) && Tells(parse, config, kept, outcome, observed)
    ensures observed.Some? ==> Digest(kept + [outcome], Some(observed.value.1))
  {
    hide HasChanged, Digest, Tells;
    StepTells(parse, config, kept, prev, outcome);
    if Step(parse, config, prev, outcome).Some? { DigestStep(parse, config, kept, prev, outcome); }
    var observations := [];
    if outcome.Failure? {
      var wasFailing := prev.Some? && prev.value.failing;
      var next := if prev.Some? then prev.value.(failing := true) else State([], 0, false, true, false);
      if !wasFailing {
        observations := observations + [Failing];
      }
      assert observations == if wasFailing then [] else [Failing];
      return Some((observations, next));
    }
    var result := outcome.result;
    if prev.Some? && prev.value.failing {
      observations := observations + [Recovered];
    }
    assert observations == if prev.Some? && prev.value.failing then [Recovered] else [];
    var next := State(result.stdout, result.exitCode, result.truncated, false, true);
    if prev.Some? && prev.value.baselined {
      var changed := HasChanged(parse, config, prev.value.stdout, prev.value.exitCode, result);
      if changed.None? {
        return None;
      }
      if changed.value {
        return Some((observations + [Changed(result)], next));
      }
    }
    assert observations + [] == observations;
    return Some((observations, next));
  }

  /** Over any history, each run observes what the earlier runs that did not throw
      lead it to. */
  lemma ObservationsFromHistory(parse: Parser, config: Config, history: seq<Outcome>, i: nat)
    requires i < |history|
    ensures Tells(parse, config, Kept(parse, config, history[..i]), history[i], ObservedAt(parse, config, history, i))
  {
    hide HasChanged, Kept, StateAfter, Tells;
    StateIsDigest(parse, config, history[..i]);
    StepTells(parse, config, Kept(parse, config, history[..i]), StateAfter(parse, config, history[..i]), history[i]);
  }

  predicate SafeConfig(config: Config) {
    config.strategy.JsonDiff? ==> forall i :: 0 <= i < |config.ignorePaths| ==> ValidPath(config.ignorePaths[i])
  }

  /** With valid ignore-paths no run throws, so every earlier run counts. */
  lemma {:induction false} ValidPathsKeepAll(parse: Parser, config: Config, history: seq<Outcome>)
    requires Parses(parse) && SafeConfig(config)
    ensures Kept(parse, config, history) == history
    ensures forall i :: 0 <= i < |history| ==> ObservedAt(parse, config, history, i).Some?
  {
    hide JsonChanged, Parses, ValidPath;
    forall i | 0 <= i < |history| ensures ObservedAt(parse, config, history, i).Some? {
      ValidPathsObserve(parse, config, StateAfter(parse, config, history[..i]), history[i]);
    }
    if history != [] {
      var n := |history| - 1;
      ValidPathsKeepAll(parse, config, history[..n]);
      assert history == history[..n] + [history[n]];
    }
  }

  lemma ValidPathsObserve(parse: Parser, config: Config, prev: Option<State>, outcome: Outcome)
    requires Parses(parse) && SafeConfig(config)
    ensures Step(parse, config, prev, outcome).Some?
  {
    hide JsonChanged, Parses, ValidPath;
    if config.strategy.JsonDiff? && outcome.Success? && prev.Some? {
      ValidPathsAnswer(parse, config.ignorePaths, prev.value.stdout, outcome.result.stdout);
    }
  }

  // ----- failing and recovered alternate -----

  function HealthOf(observed: seq<Observation>): seq<Observation> {
    if observed == [] then []
    else (if observed[0].Changed? then [] else [observed[0]]) + HealthOf(observed[1..])
  }

  /** Every health observation of a history, in order; a run that throws has none. */
  function HealthLog(parse: Parser, config: Config, history: seq<Outcome>): seq<Observation> {
    if history == [] then []
    else
      var n := |history| - 1;
      var observed := ObservedAt(parse, config, history, n);
      HealthLog(parse, config, history[..n]) + (if observed.None? then [] else HealthOf(observed.value.0))
  }

  predicate Alternates(log: seq<Observation>) {
    forall k :: 0 <= k < |log| ==> log[k] == if k % 2 == 0 then Failing else Recovered
  }

  /** Failing and recovered strictly alternate, starting with failing; the log
      ends in failing exactly while the last run that did not throw failed. */
  lemma {:induction false} HealthAlternates(parse: Parser, config: Config, history: seq<Outcome>)
    ensures var log := HealthLog(parse, config, history);
            forall k :: 0 <= k < |log| ==> log[k] == if k % 2 == 0 then Failing else Recovered
    ensures |HealthLog(parse, config, history)| % 2 == 1 <==> EndsFailing(Kept(parse, config, history))
  {
    StateIsDigest(parse, config, history);
    LogFollowsState(parse, config, history);
  }

  lemma {:induction false} LogFollowsState(parse: Parser, config: Config, history: seq<Outcome>)
    ensures Alternates(HealthLog(parse, config, history))
    ensures var state := StateAfter(parse, config, history);
            |HealthLog(parse, config, history)| % 2 == 1 <==> state.Some? && state.value.failing
  {
    hide HasChanged, Step, HealthOf, Alternates;
    if history == [] {
      NothingAlternates();
    } else {
      var n := |history| - 1;
      LogFollowsState(parse, config, history[..n]);
      var before, log := StateAfter(parse, config, history[..n]), HealthLog(parse, config, history[..n]);
      if Step(parse, config, before, history[n]).Some? {
        LogStep(parse, config, log, before, history[n]);
      } else {
        assert log + [] == log;
      }
    }
  }

  lemma NothingAlternates()
    ensures Alternates([])
  {
  }

  lemma LogStep(parse: Parser, config: Config, log: seq<Observation>, prev: Option<State>, outcome: Outcome)
    requires Alternates(log) && (|log| % 2 == 1 <==> prev.Some? && prev.value.failing)
    requires Step(parse, config, prev, outcome).Some?
    ensures var observed := Step(parse, config, prev, outcome).value;
            var more := log + HealthOf(observed.0);
            Alternates(more) && (|more| % 2 == 1 <==> observed.1.failing)
  {
    hide HasChanged, HealthOf;
    HealthOfStep(parse, config, prev, outcome);
  }

  lemma HealthOfStep(parse: Parser, config: Config, prev: Option<State>, outcome: Outcome)
    requires Step(parse, config, prev, outcome).Some?
    ensures HealthOf(Step(parse, config, prev, outcome).value.0) ==
            var failing := prev.Some? && prev.value.failing;
            if outcome.Failure? then (if failing then [] else [Failing])
            else if failing then [Recovered] else []
  {
    hide HasChanged;
    var observed := Step(parse, config, prev, outcome).value.0;
    if |observed| == 2 {
      assert HealthOf(observed[1..][1..]) == [] && HealthOf(observed[1..]) == [];
    } else if |observed| == 1 {
      assert HealthOf(observed[1..]) == [];
    }
  }
}
