/** One awaited stream write. Its callback and the stream's error event may both
    report the same failure, in either order; the promise settles once and no
    error event is left without a listener. */
module StreamWrite {
  import opened Options

  datatype Signal =
    | Callback(ok: bool)  // the write callback
    | ErrorEvent          // the stream emits 'error'
    | SyncThrow           // the write call itself throws

  /** `settled` is the promise: resolved or rejected. `armed` is the once-listener;
      `uncaught` records an error event that met no listener. */
  datatype Write = Write(settled: Option<bool>, armed: bool, uncaught: bool)

  function Start(): Write { Write(None, true, false) }

  function After(w: Write, s: Signal): Write {
    match s
    case Callback(ok) =>
      if !ok then (if w.settled.None? then w.(settled := Some(false)) else w)
      else if w.settled.Some? then w
      else Write(Some(true), false, w.uncaught)
    case ErrorEvent =>
      if !w.armed then w.(uncaught := true)
      else Write(if w.settled.None? then Some(false) else w.settled, false, w.uncaught)
    case SyncThrow =>
      if w.settled.None? then Write(Some(false), false, w.uncaught) else w
  }

  /** What a writable stream does for one write: each signal at most once, no
      error event for a write that succeeded or threw. */
  predicate StreamLike(signals: seq<Signal>) {
    forall i, j :: 0 <= i < j < |signals| ==>
      && !(signals[i].ErrorEvent? && signals[j].ErrorEvent?)
      && !(signals[i].Callback? && signals[j].Callback?)
      && !(signals[i] == Callback(true) && signals[j].ErrorEvent?)
      && !signals[i].SyncThrow? && !signals[j].SyncThrow?
  }

  function AfterAll(signals: seq<Signal>): Write {
    if signals == [] then Start()
    else After(AfterAll(signals[..|signals| - 1]), signals[|signals| - 1])
  }

  /** The promise is settled by the first signal, resolved only by a successful
      callback; no error event met no listener; and the listener is gone exactly
      once it fired, the write threw, or the first signal was success. */
  predicate FirstDecides(w: Write, signals: seq<Signal>) {
    && !w.uncaught
    && w.settled == (if signals == [] then None else Some(signals[0] == Callback(true)))
    && (!w.armed <==> exists i :: 0 <= i < |signals| && (signals[i].ErrorEvent? || signals[i].SyncThrow?
                                                         || (i == 0 && signals[i] == Callback(true))))
  }

  lemma OneMoreSignal(w: Write, signals: seq<Signal>, s: Signal)
    requires FirstDecides(w, signals) && StreamLike(signals + [s])
    ensures FirstDecides(After(w, s), signals + [s])
  {
    var more := signals + [s];
    assert forall i :: 0 <= i < |signals| ==> more[i] == signals[i];
    assert more[|signals|] == s;
  }

  /** After any signals of one write, the first has settled the promise for good, and
      no error event went uncaught. */
  lemma FirstSignalSettles(signals: seq<Signal>)
    requires StreamLike(signals)
    ensures !AfterAll(signals).uncaught
    ensures AfterAll(signals).settled == if signals == [] then None else Some(signals[0] == Callback(true))
    ensures AfterAll(signals).armed <==>
            (signals == [] || signals[0] != Callback(true)) && ErrorEvent !in signals && SyncThrow !in signals
  {
    SignalsDecide(signals);
  }

  /** A failed write may report by callback, by error event, or by both in either order. */
  lemma BothReport()
    ensures StreamLike([Callback(false), ErrorEvent]) && StreamLike([ErrorEvent, Callback(false)])
    ensures AfterAll([Callback(false), ErrorEvent]) == Write(Some(false), false, false)
    ensures AfterAll([ErrorEvent, Callback(false)]) == Write(Some(false), false, false)
  {
    var a, b := [Callback(false), ErrorEvent], [ErrorEvent, Callback(false)];
    assert a[..1] == [Callback(false)] && b[..1] == [ErrorEvent];
    assert [Callback(false)][..0] == [] && [ErrorEvent][..0] == [];
  }

  lemma {:induction false} SignalsDecide(signals: seq<Signal>)
    requires StreamLike(signals)
    ensures FirstDecides(AfterAll(signals), signals)
  {
    hide FirstDecides;
    if signals == [] {
      NothingSettled();
    } else {
      var n := |signals| - 1;
      SignalsDecide(signals[..n]);
      assert signals[..n] + [signals[n]] == signals;
      OneMoreSignal(AfterAll(signals[..n]), signals[..n], signals[n]);
    }
  }

  lemma NothingSettled()
    ensures FirstDecides(Start(), [])
  {
  }

  class Pending {
    var settled: Option<bool>
    var armed: bool
    ghost var uncaught: bool
    ghost var signals: seq<Signal>

    ghost function View(): Write
      reads this
    {
      Write(settled, armed, uncaught)
    }

    ghost predicate Valid()
      reads this
    {
      FirstDecides(View(), signals)
    }

    constructor ()
      ensures Valid() && signals == []
    {
      settled, armed, uncaught, signals := None, true, false, [];
    }

    method OnCallback(ok: bool)
      requires Valid() && StreamLike(signals + [Callback(ok)])
      modifies this
      ensures Valid() && signals == old(signals) + [Callback(ok)] && View() == After(old(View()), Callback(ok))
    {
      OneMoreSignal(View(), signals, Callback(ok));
      signals := signals + [Callback(ok)];
      if !ok {
        if settled.None? {
          settled := Some(false);
        }
        return;
      }
      if settled.Some? {
        return;
      }
      settled := Some(true);
      armed := false;
    }

    method OnErrorEvent()
      requires Valid() && StreamLike(signals + [ErrorEvent])
      modifies this
      ensures Valid() && signals == old(signals) + [ErrorEvent] && View() == After(old(View()), ErrorEvent)
    {
      OneMoreSignal(View(), signals, ErrorEvent);
      signals := signals + [ErrorEvent];
      uncaught := uncaught || !armed;
      armed := false;
      if settled.Some? {
        return;
      }
      settled := Some(false);
    }

    method OnSyncThrow()
      requires Valid() && StreamLike(signals + [SyncThrow])
      modifies this
      ensures Valid() && signals == old(signals) + [SyncThrow] && View() == After(old(View()), SyncThrow)
    {
      OneMoreSignal(View(), signals, SyncThrow);
      signals := signals + [SyncThrow];
      if settled.None? {
        settled := Some(false);
        armed := false;
      }
    }
  }
}
