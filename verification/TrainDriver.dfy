/** The Train object itself: its fields, the worker's loop body one statement at a time, and start,
    stop and shutdown as the controlling thread runs them, with the worker free to move in between. */
module TrainDriver {
  import opened TrainHistory
  import opened TrainProtocol

  class Train {
    var cancel: bool
    var go: bool
    var events: seq<bool>
    var stopTrain: EventId
    var done: EventId
    var bytesLaunched: nat
    var runs: nat
    var tStart: int
    var tStop: int
    // The worker thread: its program counter and its local stop event.
    var pc: WorkerPc
    var stop: EventId
    // The controlling thread's position, the trains asked for and published, and every move so far.
    ghost var ctl: ControllerPc
    ghost var starts: nat
    ghost var trains: nat
    ghost var run: seq<Move>

    ghost function View(): State
      reads this
    {
      State(ctl, pc, Shared(cancel, go, events, stopTrain, done, bytesLaunched, runs, tStart, tStop),
            stop, starts, trains)
    }

    /** The object is where its moves have taken the protocol. */
    ghost predicate Traced()
      reads this
    {
      Refs(View()) && View() == Exec(Init(), run, false)
    }

    ghost predicate Valid()
      reads this
    {
      Traced() && Inv(View())
    }

    constructor ()
      ensures Valid() && ctl == Idle && run == []
    {
      cancel, go, events, stopTrain, done := false, false, [false, false], 0, 1;
      bytesLaunched, runs, tStart, tStop := 0, 0, 0, 0;
      pc, stop := WaitGo, 0;
      ctl, starts, trains, run := Idle, 0, 0, [];
    }

    /** One statement between waking up and publishing the train's stop event. */
    method Begin(now: int)
      requires Refs(View()) && WorkerEnabled(View()) && Starting(pc)
      modifies this`pc, this`events, this`stopTrain, this`bytesLaunched, this`runs, this`tStart,
        this`stop, this`trains
      ensures forall b: nat :: View() == WorkerStep(old(View()), b, now)
    {
      match pc {
        case WaitGo => pc := CheckCancel;
        case CheckCancel => pc := if cancel then Returned else ResetBytes;
        case ResetBytes => bytesLaunched, pc := 0, ResetRuns;
        case ResetRuns => runs, pc := 0, StampStart;
        case StampStart => tStart, pc := now, Publish;
        case Publish =>
          stop, events := |events|, events + [false];
          stopTrain, trains, pc := stop, trains + 1, LoopTest;
      }
    }

    /** One statement of the copy loop; `b` is what a finishing copy launched. */
    method Loop(b: nat)
      requires Refs(View()) && Looping(pc)
      modifies this`pc, this`bytesLaunched, this`runs
      ensures forall now: int :: View() == WorkerStep(old(View()), b, now)
    {
      match pc {
        case LoopTest => pc := if events[stop] then StampStop else InRun;
        case InRun => pc := AddBytes(b);
        case AddBytes(n) => bytesLaunched, pc := bytesLaunched + n, AddRun;
        case AddRun => runs, pc := runs + 1, LoopTest;
      }
    }

    /** One statement from the last clock reading to the completion signal. */
    method End(now: int)
      requires Refs(View()) && (Ending(pc) || pc == ExitSignal)
      modifies this`pc, this`go, this`events, this`tStop
      ensures forall b: nat :: View() == WorkerStep(old(View()), b, now)
    {
      match pc {
        case StampStop => tStop, pc := now, CheckExit;
        case CheckExit => pc := if cancel then ExitSignal else ClearGo;
        case ClearGo => go, pc := false, SignalDone;
        case SignalDone => events, pc := events[done := true], WaitGo;
        case ExitSignal => events, pc := events[done := true], Returned;
      }
    }

    /** One statement of the worker; `b` is what a finishing copy launched and `now` the clock. */
    method WorkerStatement(b: nat, now: int)
      requires Traced() && WorkerEnabled(View())
      modifies this`pc, this`go, this`events, this`stopTrain, this`bytesLaunched, this`runs, this`tStart,
        this`tStop, this`stop, this`trains, this`run
      ensures View() == WorkerStep(old(View()), b, now) && Kept(old(View()), View())
      ensures Traced() && run == old(run) + [Worker(b, now)]
    {
      WorkerKept(View(), b, now);
      Front(run, Worker(b, now));
      if Starting(pc) {
        Begin(now);
      } else if Looping(pc) {
        Loop(b);
      } else {
        End(now);
      }
      run := run + [Worker(b, now)];
    }

    /** The worker makes any finite number of statements. */
    method Drift()
      requires Traced()
      modifies this`pc, this`go, this`events, this`stopTrain, this`bytesLaunched, this`runs, this`tStart,
        this`tStop, this`stop, this`trains, this`run
      ensures Traced() && Kept(old(View()), View()) && old(run) <= run
    {
      var n: nat := *;
      while n > 0
        invariant Traced() && Kept(old(View()), View()) && old(run) <= run
      {
        var b: nat, now: int := *, *;
        if pc != Returned && (pc == WaitGo ==> go) {
          WorkerStatement(b, now);
        }
        n := n - 1;
      }
    }

    /** `self.go.set()`, in start() or in shutdown(). */
    method SetGo()
      requires Traced() && (ctl == ControllerPc.SetGo || ctl == ShutGo)
      modifies this`go, this`ctl, this`run
      ensures Traced() && View() == ControllerStep(old(View()), Choice.Train)
      ensures run == old(run) + [Controller(Choice.Train)]
      ensures old(Patient(View(), Choice.Train)) ==> Valid()
    {
      ControllerKept(View(), Choice.Train);
      Front(run, Controller(Choice.Train));
      go, ctl := true, if ctl == ShutGo then ShutSync else Running;
      run := run + [Controller(Choice.Train)];
    }

    /** `self._stop_train.set()`, in stop() or in shutdown(): whichever event is current. */
    method SetStop()
      requires Traced() && (ctl == Running || ctl == ShutStop)
      modifies this`events, this`ctl, this`run
      ensures Traced() && View() == ControllerStep(old(View()), Choice.Train)
      ensures run == old(run) + [Controller(Choice.Train)]
      ensures old(Patient(View(), Choice.Train)) ==> Valid()
    {
      ControllerKept(View(), Choice.Train);
      Front(run, Controller(Choice.Train));
      events, ctl := events[stopTrain := true], if ctl == ShutStop then ShutGo else WaitDone;
      run := run + [Controller(Choice.Train)];
    }

    /** `self.cancel.set()`. */
    method SetCancel()
      requires Traced() && (ctl == Idle || ctl == Running)
      modifies this`cancel, this`ctl, this`run
      ensures Traced() && View() == ControllerStep(old(View()), Choice.Shutdown)
      ensures run == old(run) + [Controller(Choice.Shutdown)]
      ensures old(Patient(View(), Choice.Shutdown)) ==> Valid()
    {
      ControllerKept(View(), Choice.Shutdown);
      Front(run, Controller(Choice.Shutdown));
      cancel, ctl := true, ShutStop;
      run := run + [Controller(Choice.Shutdown)];
    }

    /** `self._done = threading.Event()`. */
    method RenewDone()
      requires Traced() && ctl == Idle
      modifies this`events, this`done, this`starts, this`ctl, this`run
      ensures Traced() && View() == ControllerStep(old(View()), Choice.Train)
      ensures run == old(run) + [Controller(Choice.Train)]
      ensures old(Patient(View(), Choice.Train)) ==> Valid()
    {
      ControllerKept(View(), Choice.Train);
      Front(run, Controller(Choice.Train));
      done, events, starts, ctl := |events|, events + [false], starts + 1, ControllerPc.SetGo;
      run := run + [Controller(Choice.Train)];
    }

    /** The first half of start(). */
    method Ask()
      requires Valid() && ctl == Idle
      modifies this
      ensures Valid() && ctl == ControllerPc.SetGo && old(run) <= run && starts == old(starts) + 1
    {
      RenewDone();
      Drift();
    }

    method Start()
      requires Valid() && ctl == Idle
      modifies this
      ensures Valid() && ctl == Running && old(run) <= run && starts == old(starts) + 1
    {
      Ask();
      SetGo();
      Drift();
    }

    /** The callers' pause between start and stop: long enough for the worker to publish. */
    method Settle()
      requires Valid() && ctl == Running
      modifies this`pc, this`go, this`events, this`stopTrain, this`bytesLaunched, this`runs, this`tStart,
        this`tStop, this`stop, this`trains, this`run
      ensures Valid() && Published(View()) && old(run) <= run
    {
      while !(pc.LoopTest? || pc.InRun? || pc.AddBytes? || pc.AddRun?)
        invariant Valid() && ctl == Running && old(run) <= run
        decreases if Published(View()) then 0 else ToRest(pc)
      {
        var b: nat, now: int := *, *;
        StartIsServed(View(), b, now);
        WorkerStatement(b, now);
      }
    }

    /** `self._done.wait(timeout)`, the limit allowing the worker at least eight statements. That is
        enough whenever an answer is coming; a lost stop runs into the limit. */
    method Wait(limit: nat) returns (answered: bool)
      requires Traced() && ctl == WaitDone && limit >= 8
      modifies this`pc, this`go, this`events, this`stopTrain, this`bytesLaunched, this`runs, this`tStart,
        this`tStop, this`stop, this`trains, this`run
      ensures Traced() && Kept(old(View()), View()) && old(run) <= run
      ensures old(Valid()) ==> answered && IsSet(View().sh, done)
      ensures old(Lost(View())) ==> !answered
    {
      ghost var quiet := Valid();
      var n := limit;
      if quiet && !events[done] {
        StopIsServed(View(), 0, 0);
      }
      while !events[done] && n > 0
        invariant n <= limit && Traced() && Kept(old(View()), View()) && old(run) <= run
        invariant quiet && !IsSet(View().sh, done) ==> ToRest(pc) + limit - n <= 8
        decreases n
      {
        var b: nat, now: int := *, *;
        if quiet {
          StopIsServed(View(), b, now);
        }
        if pc != Returned && (pc == WaitGo ==> go) {
          WorkerStatement(b, now);
        }
        n := n - 1;
      }
      answered := events[done];
    }

    /** stop() returns. The train that was under way in the run `before` has ended. */
    ghost method Rest(before: seq<Move>)
      requires Valid() && ctl == WaitDone && IsSet(View().sh, done)
      requires before <= run && Published(Exec(Init(), before, false))
      modifies this`ctl, this`run
      ensures Valid() && ctl == Idle && old(run) <= run
      ensures pc == WaitGo && !go && trains == starts
      ensures LastAt(before, false, StampStop) < LastAt(run, false, StampStart)
      ensures Figure(run, false, Span(run).0, Span(run).1, bytesLaunched, tStop - tStart)
    {
      ControllerPreserves(View(), Choice.Train);
      Front(run, Controller(Choice.Train));
      ctl, run := Idle, run + [Controller(Choice.Train)];
      assert View() == ControllerStep(old(View()), Choice.Train);
      AlwaysRecorded(run, false);
      NextTrain(before, run, View().sh);
    }

    /** Set the current stop event and wait for the signal. The wait is answered exactly when the train
        had been published, and then the worker is parked and the figures are those of the train that
        began after the last one ended; otherwise the stop is lost and the worker runs on. */
    method Stop() returns (answered: bool, bytes: nat, duration: int)
      requires Valid() && ctl == Running
      modifies this
      ensures answered <==> old(Published(View()))
      ensures answered ==>
        && Valid() && ctl == Idle && pc == WaitGo && !go && trains == starts == old(starts)
        && Figure(run, false, Span(run).0, Span(run).1, bytes, duration)
        && old(LastAt(run, false, StampStop)) < LastAt(run, false, StampStart)
      ensures !answered ==> Lost(View())
      ensures Traced() && old(run) <= run
    {
      StopOrLost(View());
      SetStop();
      Drift();
      answered := Wait(8);
      bytes, duration := bytesLaunched, tStop - tStart;
      if answered {
        Rest(old(run));
      }
    }

    /** The first half of shutdown(). */
    method Cancel()
      requires Traced() && (ctl == Idle || ctl == Running)
      modifies this
      ensures Traced() && ctl == ShutStop && old(run) <= run && starts == old(starts)
      ensures old(Patient(View(), Choice.Shutdown)) ==> Valid()
    {
      SetCancel();
      Drift();
    }

    /** The second half: the worker's stop event and go. */
    method WakeUp()
      requires Traced() && ctl == ShutStop
      modifies this
      ensures Traced() && ctl == ShutSync && old(run) <= run && starts == old(starts)
      ensures old(Valid()) ==> Valid()
    {
      SetStop();
      Drift();
      SetGo();
    }

    /** Raise cancel, the current stop event and go. It returns without waiting for the worker. From rest
        or from a moment at which the train can be shut down, the worker is left to return. */
    method Shutdown()
      requires Valid() && (ctl == Idle || ctl == Running)
      modifies this
      ensures Traced() && ctl == ShutSync && old(run) <= run && starts == old(starts)
      ensures old(ctl == Idle || CanBeShutDown(View())) ==> Valid()
    {
      Cancel();
      WakeUp();
    }

    /** The worker thread after a shutdown: it returns, and has signalled the last train if it was
        published. */
    method RunOut()
      requires Valid() && ctl == ShutSync
      modifies this`pc, this`go, this`events, this`stopTrain, this`bytesLaunched, this`runs, this`tStart,
        this`tStop, this`stop, this`trains, this`run
      ensures Valid() && pc == Returned && old(run) <= run
      ensures trains == starts > 0 ==> IsSet(View().sh, done)
    {
      while pc != Returned
        invariant Valid() && old(run) <= run
        decreases if pc == Returned then 0 else ToRest(pc)
      {
        var b: nat, now: int := *, *;
        ShutdownIsServed(View(), b, now);
        WorkerStatement(b, now);
      }
    }
  }

  /** The moves that began and ended the last train. */
  function Span(run: seq<Move>): (int, int) {
    (LastAt(run, false, StampStart), LastAt(run, false, StampStop))
  }

  /** The invariant holds and a patient controller may make this statement. */
  ghost predicate Patient(s: State, choice: Choice) {
    Inv(s) && ControllerEnabled(s, choice, true)
  }

  lemma ControllerKept(s: State, choice: Choice)
    requires Refs(s)
    ensures Refs(ControllerStep(s, choice)) && (Patient(s, choice) ==> Inv(ControllerStep(s, choice)))
  {
    ControllerKeepsRefs(s, choice);
    if Patient(s, choice) {
      ControllerPreserves(s, choice);
    }
  }

  /** What the worker's own statements never undo. */
  ghost predicate Kept(before: State, after: State) {
    Refs(after) && (Inv(before) ==> Inv(after)) && (Lost(before) ==> Lost(after))
  }

  lemma WorkerKept(s: State, b: nat, now: int)
    requires Refs(s) && WorkerEnabled(s)
    ensures Kept(s, WorkerStep(s, b, now))
  {
    WorkerKeepsRefs(s, b, now);
    if Inv(s) {
      WorkerPreserves(s, b, now);
    }
    if Lost(s) {
      LostStays(s, b, now);
    }
  }

  /** Figure k is that of a train of its own: begun after the trains before it had ended. */
  ghost predicate Figures(run: seq<Move>, achieved: seq<(nat, int)>, spans: seq<(int, int)>) {
    && |spans| == |achieved|
    && (forall k | 0 <= k < |spans| :: Figure(run, false, spans[k].0, spans[k].1, achieved[k].0, achieved[k].1))
    && (forall k, l | 0 <= k < l < |spans| :: spans[k].1 < spans[l].0)
    && (forall k | 0 <= k < |spans| :: spans[k].1 <= LastAt(run, false, StampStop))
  }

  lemma FiguresStand(run: seq<Move>, more: seq<Move>, achieved: seq<(nat, int)>, spans: seq<(int, int)>)
    requires Figures(run, achieved, spans) && run <= more
    ensures Figures(more, achieved, spans)
  {
    LastAtGrows(run, more, false, StampStop);
    forall k | 0 <= k < |spans|
      ensures Figure(more, false, spans[k].0, spans[k].1, achieved[k].0, achieved[k].1)
    {
      FigureStands(run, more, false, spans[k].0, spans[k].1, achieved[k].0, achieved[k].1);
    }
  }

  /** One more train, begun after the earlier run's last one had ended. */
  lemma NextFigure(run: seq<Move>, more: seq<Move>, achieved: seq<(nat, int)>, spans: seq<(int, int)>,
                   bytes: nat, duration: int)
    requires Figures(run, achieved, spans) && run <= more
    requires LastAt(run, false, StampStop) < LastAt(more, false, StampStart)
    requires Figure(more, false, Span(more).0, Span(more).1, bytes, duration)
    ensures Figures(more, achieved + [(bytes, duration)], spans + [Span(more)])
  {
    FiguresStand(run, more, achieved, spans);
    var all, got := spans + [Span(more)], achieved + [(bytes, duration)];
    forall k, l | 0 <= k < l < |all| ensures all[k].1 < all[l].0 {
      assert all[k] == spans[k];
      assert spans[k].1 <= LastAt(run, false, StampStop);
    }
    forall k | 0 <= k < |all| ensures Figure(more, false, all[k].0, all[k].1, got[k].0, got[k].1) {
      if k < |spans| {
        assert all[k] == spans[k] && got[k] == achieved[k];
      }
    }
  }

  /** One train: start, the pause, stop. */
  method Measure(train: Train) returns (answered: bool, bytes: nat, duration: int)
    requires train.Valid() && train.ctl == Idle
    modifies train
    ensures answered && train.Valid() && train.ctl == Idle && train.starts == old(train.starts) + 1
    ensures old(train.run) <= train.run
    ensures old(LastAt(train.run, false, StampStop)) < LastAt(train.run, false, StampStart)
    ensures Figure(train.run, false, Span(train.run).0, Span(train.run).1, bytes, duration)
  {
    train.Start();
    train.Settle();
    LastAtGrows(old(train.run), train.run, false, StampStop);
    answered, bytes, duration := train.Stop();
  }

  /** A census over any number of rates: one start and one figure per rate, every stop answered, and the
      worker gone at the end. Figure k is the bytes and the duration of the k-th train, from its own
      clock readings. `unanswered` counts the stops whose wait ran into its limit. */
  method Census(rates: seq<real>)
    returns (train: Train, achieved: seq<(nat, int)>, unanswered: nat, ghost spans: seq<(int, int)>)
    ensures |achieved| == |rates| == train.starts && unanswered == 0
    ensures train.Valid() && train.pc == Returned
    ensures Figures(train.run, achieved, spans)
  {
    train := new Train();
    achieved, unanswered, spans := [], 0, [];
    for i := 0 to |rates|
      invariant train.Valid() && train.ctl == Idle && train.starts == i && |achieved| == i
      invariant unanswered == 0 && Figures(train.run, achieved, spans)
    {
      ghost var before := train.run;
      var answered, bytes, duration := Measure(train);
      NextFigure(before, train.run, achieved, spans, bytes, duration);
      achieved := achieved + [(bytes, duration)];
      spans := spans + [Span(train.run)];
      unanswered := unanswered + if answered then 0 else 1;
    }
    ghost var before := train.run;
    train.Shutdown();
    train.RunOut();
    FiguresStand(before, train.run, achieved, spans);
  }
}
