/** A sustained copy train: a worker thread that waits for `go`, runs copies until its stop event is
    set, and reports completion; and a controller that starts, stops and finally shuts it down.
    Event objects are replaced while both threads run, so events are cells named by an index.

    One step is one statement of either thread. */
module TrainProtocol {
  type EventId = nat

  datatype WorkerPc =
    | WaitGo        // self.go.wait()
    | CheckCancel
    | ResetBytes
    | ResetRuns
    | StampStart
    | Publish       // a fresh stop event becomes self._stop_train
    | LoopTest
    | InRun         // inside copier.run
    | AddBytes(b: nat)
    | AddRun
    | StampStop
    | CheckExit
    | ClearGo
    | SignalDone
    | ExitSignal    // the cancelled train still signals
    | Returned

  datatype ControllerPc =
    | Idle
    | SetGo         // start(): _done has been replaced
    | Running       // start() has returned
    | WaitDone      // stop(): the stop event has been set
    | ShutStop      // shutdown(): cancel has been set
    | ShutGo        // shutdown(): the stop event has been set
    | ShutSync      // shutdown(): go has been set

  datatype Shared = Shared(cancel: bool, go: bool, events: seq<bool>, stopRef: EventId, doneRef: EventId,
                           bytes: nat, runs: nat, tStart: int, tStop: int)

  /** `mine` is the worker's local stop event; `starts` and `trains` count the trains asked for and
      published. */
  datatype State = State(c: ControllerPc, w: WorkerPc, sh: Shared, mine: EventId, starts: nat, trains: nat)

  function Init(): State {
    State(Idle, WaitGo, Shared(false, false, [false, false], 0, 1, 0, 0, 0, 0), 0, 0, 0)
  }

  predicate IsSet(sh: Shared, e: EventId) {
    e < |sh.events| && sh.events[e]
  }

  function Set(sh: Shared, e: EventId): Shared {
    if e < |sh.events| then sh.(events := sh.events[e := true]) else sh
  }

  // ---------------------------------------------------------------- the worker

  predicate WorkerEnabled(s: State) {
    !s.w.Returned? && (s.w.WaitGo? ==> s.sh.go)
  }

  /** One statement of the worker; `b` is what a finishing copy launched, `now` the clock. */
  function WorkerStep(s: State, b: nat, now: int): State
    requires WorkerEnabled(s)
  {
    match s.w
    case WaitGo => s.(w := CheckCancel)
    case CheckCancel => s.(w := if s.sh.cancel then Returned else ResetBytes)
    case ResetBytes => s.(w := ResetRuns, sh := s.sh.(bytes := 0))
    case ResetRuns => s.(w := StampStart, sh := s.sh.(runs := 0))
    case StampStart => s.(w := Publish, sh := s.sh.(tStart := now))
    case Publish =>
      var e := |s.sh.events|;
      s.(w := LoopTest, mine := e, sh := s.sh.(events := s.sh.events + [false], stopRef := e), trains := s.trains + 1)
    case LoopTest => s.(w := if IsSet(s.sh, s.mine) then StampStop else InRun)
    case InRun => s.(w := AddBytes(b))
    case AddBytes(n) => s.(w := AddRun, sh := s.sh.(bytes := s.sh.bytes + n))
    case AddRun => s.(w := LoopTest, sh := s.sh.(runs := s.sh.runs + 1))
    case StampStop => s.(w := CheckExit, sh := s.sh.(tStop := now))
    case CheckExit => s.(w := if s.sh.cancel then ExitSignal else ClearGo)
    case ClearGo => s.(w := SignalDone, sh := s.sh.(go := false))
    case SignalDone => s.(w := WaitGo, sh := Set(s.sh, s.sh.doneRef))
    case ExitSignal => s.(w := Returned, sh := Set(s.sh, s.sh.doneRef))
  }

  // ---------------------------------------------------------------- the controller

  datatype Choice = Train | Shutdown

  /** The worker is inside the current train and its stop event is the one stop() will find. */
  predicate Published(s: State) {
    s.w.LoopTest? || s.w.InRun? || s.w.AddBytes? || s.w.AddRun?
  }

  /** A cancelled worker would return without opening a train: it has not yet looked at cancel. */
  predicate BeforeCancelCheck(s: State) {
    s.w.WaitGo? || s.w.CheckCancel?
  }

  /** Not between its cancel check and the publication of its stop event. */
  predicate CanBeShutDown(s: State) {
    Published(s) || BeforeCancelCheck(s)
  }

  /** A patient controller stops a started train only once its stop event is published, and does not
      shut down while the worker is on its way to publishing it. */
  predicate ControllerEnabled(s: State, choice: Choice, patient: bool) {
    match s.c
    case Running => patient ==> if choice.Train? then Published(s) else CanBeShutDown(s)
    case WaitDone => IsSet(s.sh, s.sh.doneRef)
    case ShutSync => false
    case _ => true
  }

  function ControllerStep(s: State, choice: Choice): State {
    match s.c
    case Idle =>
      if choice.Train? then
        s.(c := SetGo, sh := s.sh.(events := s.sh.events + [false], doneRef := |s.sh.events|), starts := s.starts + 1)
      else s.(c := ShutStop, sh := s.sh.(cancel := true))
    case SetGo => s.(c := Running, sh := s.sh.(go := true))
    case Running =>
      if choice.Train? then s.(c := WaitDone, sh := Set(s.sh, s.sh.stopRef))
      else s.(c := ShutStop, sh := s.sh.(cancel := true))
    case WaitDone => s.(c := Idle)
    case ShutStop => s.(c := ShutGo, sh := Set(s.sh, s.sh.stopRef))
    case ShutGo => s.(c := ShutSync, sh := s.sh.(go := true))
    case ShutSync => s
  }

  datatype Move = Worker(b: nat, now: int) | Controller(choice: Choice)

  function Step(s: State, m: Move, patient: bool): State {
    match m
    case Worker(b, now) => if WorkerEnabled(s) then WorkerStep(s, b, now) else s
    case Controller(choice) => if ControllerEnabled(s, choice, patient) then ControllerStep(s, choice) else s
  }

  function Exec(s: State, moves: seq<Move>, patient: bool): State {
    if moves == [] then s
    else Step(Exec(s, moves[..|moves| - 1], patient), moves[|moves| - 1], patient)
  }

  // ---------------------------------------------------------------- invariant

  predicate Starting(w: WorkerPc) {
    w.WaitGo? || w.CheckCancel? || w.ResetBytes? || w.ResetRuns? || w.StampStart? || w.Publish?
  }

  predicate Ending(w: WorkerPc) {
    w.StampStop? || w.CheckExit? || w.ClearGo? || w.SignalDone?
  }

  predicate Looping(w: WorkerPc) {
    w.LoopTest? || w.InRun? || w.AddBytes? || w.AddRun?
  }

  /** Where the worker can be for each position of the controller, and the flags that go with it. */
  ghost predicate Phase(s: State) {
    var sh := s.sh;
    match s.c
    case Idle => s.w.WaitGo? && !sh.go && !sh.cancel && s.trains == s.starts
    case SetGo => s.w.WaitGo? && !sh.go && !sh.cancel && !IsSet(sh, sh.doneRef) && s.trains + 1 == s.starts
    case Running =>
      && sh.go && !sh.cancel && !IsSet(sh, sh.doneRef) && s.starts > 0
      && (if Looping(s.w) then !IsSet(sh, s.mine) && s.trains == s.starts
          else Starting(s.w) && s.trains + 1 == s.starts)
    case WaitDone =>
      && !sh.cancel && s.trains == s.starts > 0 && IsSet(sh, s.mine)
      && (if s.w.WaitGo? then !sh.go && IsSet(sh, sh.doneRef)
          else (Looping(s.w) || Ending(s.w)) && !IsSet(sh, sh.doneRef) && (sh.go <==> !s.w.SignalDone?))
    case ShutStop =>
      sh.cancel && (if Looping(s.w) then sh.go && !IsSet(sh, s.mine) else BeforeCancelCheck(s) || s.w.Returned?)
    case ShutGo =>
      && sh.cancel
      && (BeforeCancelCheck(s) || s.w.Returned? || s.w.ExitSignal?
          || ((Looping(s.w) || s.w.StampStop? || s.w.CheckExit?) && IsSet(sh, s.mine)))
    case ShutSync =>
      && sh.cancel && sh.go
      && (BeforeCancelCheck(s) || s.w.Returned? || s.w.ExitSignal?
          || ((Looping(s.w) || s.w.StampStop? || s.w.CheckExit?) && IsSet(sh, s.mine)))
  }

  /** Both event references are live and distinct, and stop() would find the worker's own event. */
  ghost predicate Refs(s: State) {
    s.sh.stopRef < |s.sh.events| && s.sh.doneRef < |s.sh.events| && s.mine == s.sh.stopRef != s.sh.doneRef
  }

  /** Every train published has been signalled once the worker is back at rest or gone. */
  ghost predicate Signalled(s: State) {
    (BeforeCancelCheck(s) || s.w.Returned?) && s.trains == s.starts > 0 ==> IsSet(s.sh, s.sh.doneRef)
  }

  ghost predicate Inv(s: State) {
    Refs(s) && Phase(s) && Signalled(s)
  }

  lemma WorkerKeepsRefs(s: State, b: nat, now: int)
    requires Refs(s) && WorkerEnabled(s)
    ensures Refs(WorkerStep(s, b, now))
  {
  }

  lemma WorkerKeepsPhase(s: State, b: nat, now: int)
    requires Refs(s) && Phase(s) && WorkerEnabled(s)
    ensures Phase(WorkerStep(s, b, now))
  {
    match s.c
    case Idle =>
    case SetGo =>
    case Running =>
    case WaitDone =>
    case ShutStop =>
    case ShutGo =>
    case ShutSync =>
  }

  lemma WorkerKeepsSignalled(s: State, b: nat, now: int)
    requires Refs(s) && Phase(s) && Signalled(s) && WorkerEnabled(s)
    ensures Signalled(WorkerStep(s, b, now))
  {
  }

  lemma WorkerPreserves(s: State, b: nat, now: int)
    requires Inv(s) && WorkerEnabled(s)
    ensures Inv(WorkerStep(s, b, now))
  {
    WorkerKeepsRefs(s, b, now);
    WorkerKeepsPhase(s, b, now);
    WorkerKeepsSignalled(s, b, now);
  }

  lemma ControllerKeepsPhase(s: State, choice: Choice)
    requires Refs(s) && Phase(s) && ControllerEnabled(s, choice, true)
    ensures Phase(ControllerStep(s, choice))
  {
    match s.c
    case Idle =>
    case SetGo =>
    case Running =>
    case WaitDone =>
    case ShutStop =>
    case ShutGo =>
    case ShutSync =>
  }

  lemma ControllerKeepsRefs(s: State, choice: Choice)
    requires Refs(s)
    ensures Refs(ControllerStep(s, choice))
  {
  }

  lemma ControllerKeepsSignalled(s: State, choice: Choice)
    requires Refs(s) && Phase(s) && Signalled(s) && ControllerEnabled(s, choice, true)
    ensures Signalled(ControllerStep(s, choice))
  {
  }

  lemma ControllerPreserves(s: State, choice: Choice)
    requires Inv(s) && ControllerEnabled(s, choice, true)
    ensures Inv(ControllerStep(s, choice))
  {
    ControllerKeepsRefs(s, choice);
    ControllerKeepsPhase(s, choice);
    ControllerKeepsSignalled(s, choice);
  }

  // ---------------------------------------------------------------- main results

  lemma {:induction false} ExecInv(moves: seq<Move>)
    ensures Inv(Exec(Init(), moves, true))
  {
    if moves != [] {
      var s, m := Exec(Init(), moves[..|moves| - 1], true), moves[|moves| - 1];
      ExecInv(moves[..|moves| - 1]);
      match m
      case Worker(b, now) => if WorkerEnabled(s) { WorkerPreserves(s, b, now); }
      case Controller(choice) => if ControllerEnabled(s, choice, true) { ControllerPreserves(s, choice); }
    }
  }

  /** Worker statements left until it can only wait, once it has nothing more to copy. */
  function ToRest(w: WorkerPc): nat {
    match w
    case WaitGo => 6
    case CheckCancel => 5
    case ResetBytes => 4
    case ResetRuns => 3
    case StampStart => 2
    case Publish => 1
    case LoopTest => 5
    case InRun => 8
    case AddBytes(_) => 7
    case AddRun => 6
    case StampStop => 4
    case CheckExit => 3
    case ClearGo => 2
    case SignalDone => 1
    case ExitSignal => 1
    case Returned => 0
  }

  /** After a start the worker is never blocked and each of its at most six statements brings
      publication nearer: no start is lost. */
  lemma StartIsServed(s: State, b: nat, now: int)
    requires Inv(s) && s.c.Running? && !Published(s)
    ensures WorkerEnabled(s)
    ensures var t := WorkerStep(s, b, now);
      t.c.Running? && (if Published(t) then t.trains == t.starts else ToRest(t.w) < ToRest(s.w) <= 6)
  {
  }

  /** After the stop event is set the worker is never blocked before it signals, and each of its at
      most eight statements brings the signal nearer: the wait always succeeds. */
  lemma StopIsServed(s: State, b: nat, now: int)
    requires Inv(s) && s.c.WaitDone? && !IsSet(s.sh, s.sh.doneRef)
    ensures WorkerEnabled(s)
    ensures var t := WorkerStep(s, b, now);
      t.c.WaitDone? && (IsSet(t.sh, t.sh.doneRef) || ToRest(t.w) < ToRest(s.w) <= 8)
  {
  }

  /** After shutdown() the worker is never blocked until it has returned, whether it was parked or in
      the middle of a train. */
  lemma ShutdownIsServed(s: State, b: nat, now: int)
    requires Inv(s) && s.c.ShutSync? && !s.w.Returned?
    ensures WorkerEnabled(s)
    ensures var t := WorkerStep(s, b, now); t.c.ShutSync? && (t.w.Returned? || ToRest(t.w) < ToRest(s.w) <= 8)
  {
  }

  /** How many of the moves are the worker's. */
  function WorkerMoves(moves: seq<Move>): nat {
    if moves == [] then 0
    else WorkerMoves(moves[..|moves| - 1]) + if moves[|moves| - 1].Worker? then 1 else 0
  }

  datatype Milestone = TrainPublished | SignalGiven

  predicate Passing(s: State, what: Milestone) {
    match what
    case TrainPublished => Published(s) && s.trains == s.starts
    case SignalGiven => IsSet(s.sh, s.sh.doneRef)
  }

  /** Some moment of the run is at the milestone. */
  ghost predicate Reaches(s: State, moves: seq<Move>, what: Milestone) {
    exists k :: 0 <= k <= |moves| && Passing(Exec(s, moves[..k], true), what)
  }

  lemma ReachesLonger(s: State, moves: seq<Move>, what: Milestone)
    requires moves != [] && Reaches(s, moves[..|moves| - 1], what)
    ensures Reaches(s, moves, what)
  {
    var k :| 0 <= k <= |moves| - 1 && Passing(Exec(s, moves[..|moves| - 1][..k], true), what);
    assert moves[..|moves| - 1][..k] == moves[..k];
  }

  lemma ReachedNow(s: State, moves: seq<Move>, what: Milestone)
    requires Passing(Exec(s, moves, true), what)
    ensures Reaches(s, moves, what)
  {
    assert moves[..|moves|] == moves;
  }

  /** No start is lost: in every run that follows a start and in which nobody shuts down, by the
      worker's sixth statement at the latest the train has been published. */
  lemma {:induction false} StartIsPublished(s: State, moves: seq<Move>)
    requires Inv(s) && s.c.Running? && !Published(s)
    ensures WorkerMoves(moves) >= 6 && !Exec(s, moves, true).sh.cancel ==> Reaches(s, moves, TrainPublished)
    ensures !Exec(s, moves, true).sh.cancel ==>
      Reaches(s, moves, TrainPublished) || StillStarting(Exec(s, moves, true), WorkerMoves(moves))
  {
    if moves != [] {
      var p, m := moves[..|moves| - 1], moves[|moves| - 1];
      StartIsPublished(s, p);
      if Reaches(s, p, TrainPublished) {
        ReachesLonger(s, moves, TrainPublished);
      } else if !Exec(s, moves, true).sh.cancel {
        StartStep(Exec(s, p, true), m, WorkerMoves(p));
        if Passing(Exec(s, moves, true), TrainPublished) {
          ReachedNow(s, moves, TrainPublished);
        }
      }
    }
  }

  ghost predicate StillStarting(s: State, done: nat) {
    Inv(s) && s.c.Running? && !Published(s) && ToRest(s.w) + done <= 6
  }

  lemma StartStep(s: State, m: Move, done: nat)
    requires !s.sh.cancel ==> StillStarting(s, done)
    ensures var t := Step(s, m, true);
      !t.sh.cancel ==> !s.sh.cancel && (Passing(t, TrainPublished) || StillStarting(t, done + if m.Worker? then 1 else 0))
  {
    if m.Worker? && !s.sh.cancel {
      StartIsServed(s, m.b, m.now);
      WorkerPreserves(s, m.b, m.now);
    }
  }

  /** Every stop is answered: in every run that follows the setting of the stop event, by the worker's
      eighth statement at the latest the completion signal has been given. */
  lemma {:induction false} StopIsAnswered(s: State, moves: seq<Move>)
    requires Inv(s) && s.c.WaitDone?
    ensures WorkerMoves(moves) >= 8 ==> Reaches(s, moves, SignalGiven)
    ensures Reaches(s, moves, SignalGiven) || StillStopping(Exec(s, moves, true), WorkerMoves(moves))
  {
    if moves == [] {
      if Passing(s, SignalGiven) {
        ReachedNow(s, moves, SignalGiven);
      } else {
        StopIsServed(s, 0, 0);
      }
    } else {
      var p, m := moves[..|moves| - 1], moves[|moves| - 1];
      StopIsAnswered(s, p);
      if Reaches(s, p, SignalGiven) {
        ReachesLonger(s, moves, SignalGiven);
      } else {
        StopStep(Exec(s, p, true), m, WorkerMoves(p));
        if Passing(Exec(s, moves, true), SignalGiven) {
          ReachedNow(s, moves, SignalGiven);
        }
      }
    }
  }

  ghost predicate StillStopping(s: State, done: nat) {
    Inv(s) && s.c.WaitDone? && !IsSet(s.sh, s.sh.doneRef) && ToRest(s.w) + done <= 8
  }

  lemma StopStep(s: State, m: Move, done: nat)
    requires StillStopping(s, done)
    ensures var t := Step(s, m, true);
      Passing(t, SignalGiven) || StillStopping(t, done + if m.Worker? then 1 else 0)
  {
    if m.Worker? {
      StopIsServed(s, m.b, m.now);
      WorkerPreserves(s, m.b, m.now);
    }
  }

  /** Shutdown ends the worker: in every run that follows, whether it was parked or in the middle of a
      train, it has returned after eight of its statements; and if every train asked for had been
      published, the last one has been signalled. */
  lemma {:induction false} ShutdownEndsTheWorker(s: State, moves: seq<Move>)
    requires Inv(s) && s.c.ShutSync?
    ensures var t := Exec(s, moves, true);
      Inv(t) && t.c.ShutSync? && (t.w.Returned? || ToRest(t.w) + WorkerMoves(moves) <= 8)
    ensures var t := Exec(s, moves, true); WorkerMoves(moves) >= 8 ==>
      t.w.Returned? && (t.trains == t.starts > 0 ==> IsSet(t.sh, t.sh.doneRef))
  {
    if moves == [] {
      if !s.w.Returned? {
        ShutdownIsServed(s, 0, 0);
      }
    } else {
      var p, m := moves[..|moves| - 1], moves[|moves| - 1];
      ShutdownEndsTheWorker(s, p);
      var t := Exec(s, p, true);
      if m.Worker? && WorkerEnabled(t) {
        WorkerPreserves(t, m.b, m.now);
        ShutdownIsServed(t, m.b, m.now);
      }
    }
  }

  /** No deadlock: some thread can always move until the worker has returned after a shutdown. */
  lemma NeverDeadlocked(s: State)
    requires Inv(s) && !WorkerEnabled(s) && forall choice :: !ControllerEnabled(s, choice, true)
    ensures s.c.ShutSync? && s.w.Returned?
  {
    assert !ControllerEnabled(s, Train, true);
  }

  // ---------------------------------------------------------------- stopping too early

  /** Everything has gone quiet for the controller: it waits for a signal nobody is going to send. */
  ghost predicate Lost(s: State) {
    && s.c.WaitDone? && s.sh.go && !s.sh.cancel && s.sh.doneRef < |s.sh.events| && !IsSet(s.sh, s.sh.doneRef)
    && (Starting(s.w) || (Looping(s.w) && !IsSet(s.sh, s.mine)))
  }

  lemma {:induction false} LostForever(s: State, moves: seq<Move>, patient: bool)
    requires Lost(s)
    ensures Lost(Exec(s, moves, patient))
  {
    if moves != [] {
      LostForever(s, moves[..|moves| - 1], patient);
    }
  }

  /** Enough worker statements in a row. */
  function Work(n: nat): (moves: seq<Move>)
    ensures |moves| == n
  {
    if n == 0 then [] else Work(n - 1) + [Worker(0, 0)]
  }

  lemma CountLast(moves: seq<Move>, m: Move)
    ensures WorkerMoves(moves + [m]) == WorkerMoves(moves) + if m.Worker? then 1 else 0
  {
    assert (moves + [m])[..|moves|] == moves;
  }

  lemma {:induction false} WorkIsTheWorkers(n: nat)
    ensures WorkerMoves(Work(n)) == n
  {
    if n > 0 {
      var before, m := Work(n - 1), Worker(0, 0);
      WorkIsTheWorkers(n - 1);
      CountLast(before, m);
      assert Work(n) == before + [m];
    }
  }

  lemma LostStays(s: State, b: nat, now: int)
    requires Lost(s) && WorkerEnabled(s)
    ensures Lost(WorkerStep(s, b, now))
  {
  }

  /** What setting the stop event leads to: an ordinary stop, or one that is lost. */
  lemma StopOrLost(s: State)
    requires Inv(s) && s.c.Running?
    ensures var t := ControllerStep(s, Train); if Published(s) then Inv(t) && t.c.WaitDone? else Lost(t)
  {
    if Published(s) {
      ControllerPreserves(s, Train);
    }
  }

  /** Some continuation gives the completion signal. */
  ghost predicate CanBeSignalled(s: State) {
    exists moves :: Passing(Exec(s, moves, true), SignalGiven)
  }

  /** A stop issued on a started train can ever see its signal exactly when the worker had already
      published its stop event; an earlier stop sets a dead event and waits in vain. */
  lemma StopSucceedsExactly(s: State)
    requires Inv(s) && s.c.Running?
    ensures CanBeSignalled(ControllerStep(s, Train)) <==> Published(s)
  {
    var t := ControllerStep(s, Train);
    StopOrLost(s);
    if Published(s) {
      WorkIsTheWorkers(8);
      StopIsAnswered(t, Work(8));
      var k :| 0 <= k <= 8 && Passing(Exec(t, Work(8)[..k], true), SignalGiven);
    } else {
      forall moves ensures !Passing(Exec(t, moves, true), SignalGiven) {
        LostForever(t, moves, true);
      }
    }
  }

  lemma {:induction false} ExecAppend(s: State, a: seq<Move>, b: seq<Move>)
    ensures Exec(s, a + b, true) == Exec(Exec(s, a, true), b, true)
  {
    if b == [] {
      assert a + b == a;
    } else {
      var p := b[..|b| - 1];
      assert (a + b)[..|a + b| - 1] == a + p;
      ExecAppend(s, a, p);
    }
  }

  // ---------------------------------------------------------------- shutting down too early

  /** Some continuation ends the worker. */
  ghost predicate CanReturn(s: State) {
    exists moves :: Exec(s, moves, true).w.Returned?
  }

  /** All three events of the shutdown are raised, but the worker passed its cancel check before them and
      runs, or is about to run, on a stop event raised by nobody. */
  ghost predicate Stranded(s: State) {
    && s.c.ShutSync?
    && (s.w.ResetBytes? || s.w.ResetRuns? || s.w.StampStart? || s.w.Publish?
        || (Looping(s.w) && s.mine < |s.sh.events| && !IsSet(s.sh, s.mine)))
  }

  /** It copies for ever: no continuation ends it. */
  lemma {:induction false} StrandedForever(s: State, moves: seq<Move>)
    requires Stranded(s)
    ensures Stranded(Exec(s, moves, true)) && !Exec(s, moves, true).w.Returned?
  {
    if moves != [] {
      StrandedForever(s, moves[..|moves| - 1]);
    }
  }

  /** What is left of shutdown() after cancel has been raised. */
  function RestOfShutdown(): seq<Move> {
    [Controller(Shutdown), Controller(Shutdown)]
  }

  lemma TwoMoves(s: State, m: Move)
    ensures Exec(s, [m, m], true) == Step(Step(s, m, true), m, true)
  {
    assert [m, m][..1] == [m] && [m][..0] == [];
    assert Exec(s, [], true) == s;
    assert Exec(s, [m], true) == Step(s, m, true);
  }

  ghost predicate ShuttingDown(s: State) {
    Inv(s) && (s.c.ShutStop? || s.c.ShutGo? || s.c.ShutSync?)
  }

  lemma {:induction false} ShuttingDownStays(s: State, moves: seq<Move>)
    requires ShuttingDown(s)
    ensures ShuttingDown(Exec(s, moves, true))
  {
    if moves != [] {
      var t, m := Exec(s, moves[..|moves| - 1], true), moves[|moves| - 1];
      ShuttingDownStays(s, moves[..|moves| - 1]);
      match m
      case Worker(b, now) => if WorkerEnabled(t) { WorkerPreserves(t, b, now); }
      case Controller(choice) => if ControllerEnabled(t, choice, true) { ControllerPreserves(t, choice); }
    }
  }

  lemma ShuttingDownCanReturn(s: State)
    requires ShuttingDown(s)
    ensures CanReturn(s)
  {
    TwoMoves(s, Controller(Shutdown));
    ShuttingDownStays(s, RestOfShutdown());
    var t := Exec(s, RestOfShutdown(), true);
    WorkIsTheWorkers(8);
    ShutdownEndsTheWorker(t, Work(8));
    ExecAppend(s, RestOfShutdown(), Work(8));
    assert Exec(s, RestOfShutdown() + Work(8), true).w.Returned?;
  }

  /** A shutdown of a started train can be relied on to end the worker, however it continues, exactly
      when the worker is not between its cancel check and the publication of its stop event. In that
      window the old stop event may be raised, and the worker then runs for ever on a fresh one. */
  lemma ShutdownSucceedsExactly(s: State)
    requires Inv(s) && s.c.Running?
    ensures (forall moves :: CanReturn(Exec(ControllerStep(s, Shutdown), moves, true))) <==> CanBeShutDown(s)
  {
    var t := ControllerStep(s, Shutdown);
    if CanBeShutDown(s) {
      ControllerPreserves(s, Shutdown);
      forall moves ensures CanReturn(Exec(t, moves, true)) {
        ShuttingDownStays(t, moves);
        ShuttingDownCanReturn(Exec(t, moves, true));
      }
    } else {
      TwoMoves(t, Controller(Shutdown));
      var u := Exec(t, RestOfShutdown(), true);
      assert Stranded(u);
      forall moves ensures !Exec(u, moves, true).w.Returned? {
        StrandedForever(u, moves);
      }
      assert !CanReturn(u);
    }
  }
}
