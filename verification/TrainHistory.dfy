/** What a run of the train protocol has recorded: the clock readings, byte and run totals of the current
    train are those of the worker's own statements in that run, found by their position. */
module TrainHistory {
  import opened TrainProtocol

  /** Move k of the run is the worker's, and finds it at `pc`. */
  predicate At(moves: seq<Move>, k: int, patient: bool, pc: WorkerPc) {
    0 <= k < |moves| && moves[k].Worker? && Exec(Init(), moves[..k], patient).w == pc
  }

  /** The last move that finds the worker at `pc`, or -1. */
  function LastAt(moves: seq<Move>, patient: bool, pc: WorkerPc): int {
    if moves == [] then -1
    else
      var n := |moves| - 1;
      if At(moves, n, patient, pc) then n else LastAt(moves[..n], patient, pc)
  }

  /** What the copies that finished at move `from` or later launched. */
  function Launched(moves: seq<Move>, from: int, patient: bool): nat {
    if |moves| <= from || moves == [] then 0
    else
      var n := |moves| - 1;
      Launched(moves[..n], from, patient) + if At(moves, n, patient, InRun) then moves[n].b else 0
  }

  /** And how many they were. */
  function Copies(moves: seq<Move>, from: int, patient: bool): nat {
    if |moves| <= from || moves == [] then 0
    else
      var n := |moves| - 1;
      Copies(moves[..n], from, patient) + if At(moves, n, patient, InRun) then 1 else 0
  }

  lemma AtPrefix(moves: seq<Move>, n: nat, k: int, patient: bool, pc: WorkerPc)
    requires n <= |moves| && k < n
    ensures At(moves[..n], k, patient, pc) <==> At(moves, k, patient, pc)
  {
    if k >= 0 {
      assert moves[..n][..k] == moves[..k];
    }
  }

  lemma {:induction false} LastAtIsLast(moves: seq<Move>, patient: bool, pc: WorkerPc)
    ensures var k := LastAt(moves, patient, pc);
      && -1 <= k < |moves|
      && (k >= 0 ==> At(moves, k, patient, pc))
      && forall j | k < j :: !At(moves, j, patient, pc)
  {
    if moves != [] {
      var n := |moves| - 1;
      LastAtIsLast(moves[..n], patient, pc);
      forall j: int | j < n ensures At(moves[..n], j, patient, pc) <==> At(moves, j, patient, pc) {
        AtPrefix(moves, n, j, patient, pc);
      }
    }
  }

  // ---------------------------------------------------------------- what has been recorded

  /** The train under way began at move k. */
  predicate Open(moves: seq<Move>, patient: bool, sh: Shared, k: int, pending: nat, unfinished: nat) {
    && k == LastAt(moves, patient, StampStart) && At(moves, k, patient, StampStart)
    && LastAt(moves, patient, StampStop) < k
    && sh.tStart == moves[k].now
    && sh.bytes + pending == Launched(moves, k, patient)
    && sh.runs + unfinished == Copies(moves, k, patient)
  }

  /** The last train began at move i and ended at move j: its clock readings are the clock at those two
      moves, and its totals are those of the copies that finished between them. */
  predicate Closed(moves: seq<Move>, patient: bool, sh: Shared, i: int, j: int) {
    && i == LastAt(moves, patient, StampStart) && At(moves, i, patient, StampStart)
    && j == LastAt(moves, patient, StampStop) && At(moves, j, patient, StampStop)
    && i < j && sh.tStart == moves[i].now && sh.tStop == moves[j].now
    && sh.bytes == Launched(moves[..j], i, patient) && sh.runs == Copies(moves[..j], i, patient)
  }

  predicate Recorded(moves: seq<Move>, patient: bool) {
    var s := Exec(Init(), moves, patient);
    var i, j := LastAt(moves, patient, StampStart), LastAt(moves, patient, StampStop);
    match s.w
    case ResetBytes => true
    case ResetRuns => s.sh.bytes == 0
    case StampStart => s.sh.bytes == s.sh.runs == 0
    case Publish => Open(moves, patient, s.sh, i, 0, 0)
    case LoopTest => s.trains > 0 && Open(moves, patient, s.sh, i, 0, 0)
    case InRun => s.trains > 0 && Open(moves, patient, s.sh, i, 0, 0)
    case AddBytes(b) => s.trains > 0 && Open(moves, patient, s.sh, i, b, 1)
    case AddRun => s.trains > 0 && Open(moves, patient, s.sh, i, 0, 1)
    case StampStop => s.trains > 0 && Open(moves, patient, s.sh, i, 0, 0)
    case _ => s.trains > 0 ==> Closed(moves, patient, s.sh, i, j)
  }

  lemma Front(moves: seq<Move>, m: Move)
    ensures (moves + [m])[..|moves|] == moves
  {
  }

  /** Neither a clock reading nor a copy. */
  predicate Uncounted(w: WorkerPc) {
    !(w.StampStart? || w.StampStop? || w.InRun?)
  }

  /** A move that is no clock reading and no copy changes nothing that is looked up. */
  lemma NothingNew(moves: seq<Move>, m: Move, patient: bool)
    ensures var s, all := Exec(Init(), moves, patient), moves + [m];
      m.Controller? || Uncounted(s.w) ==>
        && LastAt(all, patient, StampStart) == LastAt(moves, patient, StampStart)
        && LastAt(all, patient, StampStop) == LastAt(moves, patient, StampStop)
        && forall from | 0 <= from <= |moves| ::
             && Launched(all, from, patient) == Launched(moves, from, patient)
             && Copies(all, from, patient) == Copies(moves, from, patient)
  {
    Front(moves, m);
  }

  lemma SameOpen(moves: seq<Move>, m: Move, patient: bool, sh: Shared, sh': Shared, k: int, pending: nat, unfinished: nat)
    requires Open(moves, patient, sh, k, pending, unfinished)
    requires m.Controller? || Uncounted(Exec(Init(), moves, patient).w)
    requires sh'.tStart == sh.tStart && sh'.bytes <= sh.bytes + pending && sh'.runs <= sh.runs + unfinished
    ensures Open(moves + [m], patient, sh', k, sh.bytes + pending - sh'.bytes, sh.runs + unfinished - sh'.runs)
  {
    NothingNew(moves, m, patient);
    Front(moves, m);
    AtPrefix(moves + [m], |moves|, k, patient, StampStart);
  }

  lemma SameClosed(moves: seq<Move>, m: Move, patient: bool, sh: Shared, sh': Shared, i: int, j: int)
    requires Closed(moves, patient, sh, i, j)
    requires m.Controller? || Uncounted(Exec(Init(), moves, patient).w)
    requires sh'.tStart == sh.tStart && sh'.tStop == sh.tStop && sh'.bytes == sh.bytes && sh'.runs == sh.runs
    ensures Closed(moves + [m], patient, sh', i, j)
  {
    NothingNew(moves, m, patient);
    Front(moves, m);
    AtPrefix(moves + [m], |moves|, i, patient, StampStart);
    AtPrefix(moves + [m], |moves|, j, patient, StampStop);
    assert (moves + [m])[..j] == moves[..j];
  }

  lemma NothingYet(moves: seq<Move>, patient: bool)
    ensures Launched(moves, |moves|, patient) == 0 == Copies(moves, |moves|, patient)
  {
  }

  lemma Opens(moves: seq<Move>, b: nat, now: int, patient: bool)
    requires var s := Exec(Init(), moves, patient); s.w.StampStart? && s.sh.bytes == s.sh.runs == 0
    ensures Recorded(moves + [Worker(b, now)], patient)
  {
    var all := moves + [Worker(b, now)];
    Front(moves, Worker(b, now));
    NothingYet(moves, patient);
    LastAtIsLast(moves, patient, StampStop);
    assert At(all, |moves|, patient, StampStart);
  }

  lemma Copied(moves: seq<Move>, b: nat, now: int, patient: bool)
    requires Exec(Init(), moves, patient).w.InRun? && Recorded(moves, patient)
    ensures Recorded(moves + [Worker(b, now)], patient)
  {
    var all := moves + [Worker(b, now)];
    Front(moves, Worker(b, now));
    var k := LastAt(moves, patient, StampStart);
    AtPrefix(all, |moves|, k, patient, StampStart);
    assert At(all, |moves|, patient, InRun);
  }

  lemma Closes(moves: seq<Move>, b: nat, now: int, patient: bool)
    requires Exec(Init(), moves, patient).w.StampStop? && Recorded(moves, patient)
    ensures Recorded(moves + [Worker(b, now)], patient)
  {
    var all := moves + [Worker(b, now)];
    Front(moves, Worker(b, now));
    var k := LastAt(moves, patient, StampStart);
    AtPrefix(all, |moves|, k, patient, StampStart);
    assert At(all, |moves|, patient, StampStop);
  }

  lemma BeforeTheTrain(moves: seq<Move>, b: nat, now: int, patient: bool)
    requires var s := Exec(Init(), moves, patient); s.w.ResetBytes? || (s.w.ResetRuns? && s.sh.bytes == 0)
    ensures Recorded(moves + [Worker(b, now)], patient)
  {
    Front(moves, Worker(b, now));
  }

  lemma WithinTheTrain(moves: seq<Move>, b: nat, now: int, patient: bool)
    requires Recorded(moves, patient)
    requires var w := Exec(Init(), moves, patient).w; w.Publish? || w.LoopTest? || w.AddBytes? || w.AddRun?
    ensures Recorded(moves + [Worker(b, now)], patient)
  {
    var s, m := Exec(Init(), moves, patient), Worker(b, now);
    var t := Exec(Init(), moves + [m], patient);
    Front(moves, m);
    assert t == WorkerStep(s, b, now);
    NothingNew(moves, m, patient);
    var i := LastAt(moves, patient, StampStart);
    var pending, unfinished := if s.w.AddBytes? then s.w.b else 0, if s.w.AddBytes? || s.w.AddRun? then 1 else 0;
    SameOpen(moves, m, patient, s.sh, t.sh, i, pending, unfinished);
  }

  predicate Afterwards(w: WorkerPc) {
    w.CheckExit? || w.ClearGo? || w.SignalDone? || w.ExitSignal? || w.WaitGo? || w.CheckCancel?
  }

  lemma NothingTouched(s: State, b: nat, now: int)
    requires WorkerEnabled(s) && Afterwards(s.w)
    ensures var t := WorkerStep(s, b, now);
      && (Afterwards(t.w) || t.w.Returned? || t.w.ResetBytes?) && t.trains == s.trains
      && t.sh.bytes == s.sh.bytes && t.sh.runs == s.sh.runs && t.sh.tStart == s.sh.tStart && t.sh.tStop == s.sh.tStop
  {
  }

  lemma AfterTheTrain(moves: seq<Move>, b: nat, now: int, patient: bool)
    requires Recorded(moves, patient)
    requires var s := Exec(Init(), moves, patient); WorkerEnabled(s) && Afterwards(s.w)
    ensures Recorded(moves + [Worker(b, now)], patient)
  {
    var s, m := Exec(Init(), moves, patient), Worker(b, now);
    var t := Exec(Init(), moves + [m], patient);
    Front(moves, m);
    assert t == WorkerStep(s, b, now);
    NothingTouched(s, b, now);
    NothingNew(moves, m, patient);
    if s.trains > 0 {
      SameClosed(moves, m, patient, s.sh, t.sh, LastAt(moves, patient, StampStart), LastAt(moves, patient, StampStop));
    }
  }

  /** A move of the controller, or of a worker that cannot move. */
  lemma NoStatement(moves: seq<Move>, m: Move, patient: bool)
    requires Recorded(moves, patient)
    requires m.Controller? || !WorkerEnabled(Exec(Init(), moves, patient))
    ensures Recorded(moves + [m], patient)
  {
    var s, t := Exec(Init(), moves, patient), Exec(Init(), moves + [m], patient);
    Front(moves, m);
    assert t == Step(s, m, patient);
    WorkerUntouched(s, m, patient);
    NothingNew(moves, m, patient);
    var i, j := LastAt(moves, patient, StampStart), LastAt(moves, patient, StampStop);
    if s.w.AddBytes? {
      SameOpen(moves, m, patient, s.sh, t.sh, i, s.w.b, 1);
    } else if s.w.AddRun? {
      SameOpen(moves, m, patient, s.sh, t.sh, i, 0, 1);
    } else if s.w.Publish? || s.w.LoopTest? || s.w.InRun? || s.w.StampStop? {
      SameOpen(moves, m, patient, s.sh, t.sh, i, 0, 0);
    } else if s.trains > 0 && !s.w.ResetBytes? && !s.w.ResetRuns? && !s.w.StampStart? {
      SameClosed(moves, m, patient, s.sh, t.sh, i, j);
    }
  }

  lemma WorkerUntouched(s: State, m: Move, patient: bool)
    requires m.Controller? || !WorkerEnabled(s)
    ensures var t := Step(s, m, patient);
      && t.w == s.w && t.trains == s.trains && t.sh.bytes == s.sh.bytes && t.sh.runs == s.sh.runs
      && t.sh.tStart == s.sh.tStart && t.sh.tStop == s.sh.tStop
  {
  }

  /** Every run, of a patient controller or not, records its own statements. */
  lemma {:induction false} AlwaysRecorded(moves: seq<Move>, patient: bool)
    ensures Recorded(moves, patient)
  {
    if moves != [] {
      var n := |moves| - 1;
      var before, m := moves[..n], moves[n];
      AlwaysRecorded(before, patient);
      assert moves == before + [m];
      var s := Exec(Init(), before, patient);
      if m.Controller? || !WorkerEnabled(s) {
        NoStatement(before, m, patient);
      } else {
        var b, now := m.b, m.now;
        if s.w.StampStart? {
          Opens(before, b, now, patient);
        } else if s.w.InRun? {
          Copied(before, b, now, patient);
        } else if s.w.StampStop? {
          Closes(before, b, now, patient);
        } else if s.w.ResetBytes? || s.w.ResetRuns? {
          BeforeTheTrain(before, b, now, patient);
        } else if s.w.Publish? || Looping(s.w) {
          WithinTheTrain(before, b, now, patient);
        } else {
          AfterTheTrain(before, b, now, patient);
        }
      }
    }
  }

  /** How often a move found the worker at `pc`, and how often the controller was at rest and asked for a
      train. */
  function CountAt(moves: seq<Move>, patient: bool, pc: WorkerPc): nat {
    if moves == [] then 0
    else
      var n := |moves| - 1;
      CountAt(moves[..n], patient, pc) + if At(moves, n, patient, pc) then 1 else 0
  }

  function Asked(moves: seq<Move>, patient: bool): nat {
    if moves == [] then 0
    else
      var n := |moves| - 1;
      Asked(moves[..n], patient)
      + if moves[n] == Controller(Choice.Train) && Exec(Init(), moves[..n], patient).c.Idle? then 1 else 0
  }

  lemma {:induction false} CountersCount(moves: seq<Move>, patient: bool)
    ensures var s := Exec(Init(), moves, patient);
      s.trains == CountAt(moves, patient, Publish) && s.starts == Asked(moves, patient)
  {
    if moves != [] {
      var before, m := moves[..|moves| - 1], moves[|moves| - 1];
      CountersCount(before, patient);
      CountersStep(Exec(Init(), before, patient), m, patient);
    }
  }

  lemma CountersStep(s: State, m: Move, patient: bool)
    ensures var t := Step(s, m, patient);
      && t.trains == s.trains + (if m.Worker? && s.w.Publish? then 1 else 0)
      && t.starts == s.starts + (if m == Controller(Choice.Train) && s.c.Idle? then 1 else 0)
  {
  }

  // ---------------------------------------------------------------- main results

  /** When a stop's wait has succeeded the worker is parked, and every train asked for has been published.
      The clock readings are the clock at the last statements that took them, and the totals are those of
      exactly the copies that finished between the two. */
  lemma StopSeesQuiescence(moves: seq<Move>)
    ensures var s := Exec(Init(), moves, true);
      var i, j := LastAt(moves, true, StampStart), LastAt(moves, true, StampStop);
      s.c.WaitDone? && IsSet(s.sh, s.sh.doneRef) ==>
        && s.w.WaitGo? && !WorkerEnabled(s)
        && Asked(moves, true) == CountAt(moves, true, Publish) > 0
        && i < j && At(moves, i, true, StampStart) && At(moves, j, true, StampStop)
        && s.sh.tStart == moves[i].now && s.sh.tStop == moves[j].now
        && s.sh.bytes == Launched(moves[..j], i, true) && s.sh.runs == Copies(moves[..j], i, true)
  {
    ExecInv(moves);
    AlwaysRecorded(moves, true);
    CountersCount(moves, true);
  }

  // ---------------------------------------------------------------- figures in a longer run

  lemma LastAtGrows(moves: seq<Move>, more: seq<Move>, patient: bool, pc: WorkerPc)
    requires moves <= more
    ensures LastAt(moves, patient, pc) <= LastAt(more, patient, pc)
  {
    LastAtIsLast(moves, patient, pc);
    LastAtIsLast(more, patient, pc);
    assert moves == more[..|moves|];
    AtPrefix(more, |moves|, LastAt(moves, patient, pc), patient, pc);
  }

  /** `bytes` and `duration` are those of the train that began at move i and ended at move j. */
  ghost predicate Figure(moves: seq<Move>, patient: bool, i: int, j: int, bytes: nat, duration: int) {
    && At(moves, i, patient, StampStart) && At(moves, j, patient, StampStop)
    && i == LastAt(moves[..j], patient, StampStart) && i < j
    && bytes == Launched(moves[..j], i, patient) && duration == moves[j].now - moves[i].now
  }

  /** A closed train is a figure. */
  lemma ClosedIsFigure(moves: seq<Move>, patient: bool, sh: Shared, i: int, j: int)
    requires Closed(moves, patient, sh, i, j)
    ensures Figure(moves, patient, i, j, sh.bytes, sh.tStop - sh.tStart)
  {
    LastAtIsLast(moves, patient, StampStart);
    LastAtIsLast(moves[..j], patient, StampStart);
    AtPrefix(moves, j, i, patient, StampStart);
    AtPrefix(moves, j, LastAt(moves[..j], patient, StampStart), patient, StampStart);
  }

  /** A train that was under way in the earlier run and has ended in the longer one began after the one
      before it had ended. */
  lemma NextTrain(moves: seq<Move>, more: seq<Move>, sh: Shared)
    requires moves <= more && Published(Exec(Init(), moves, false))
    requires Closed(more, false, sh, LastAt(more, false, StampStart), LastAt(more, false, StampStop))
    ensures LastAt(moves, false, StampStop) < LastAt(more, false, StampStart)
    ensures Figure(more, false, LastAt(more, false, StampStart), LastAt(more, false, StampStop),
                   sh.bytes, sh.tStop - sh.tStart)
  {
    AlwaysRecorded(moves, false);
    LastAtGrows(moves, more, false, StampStart);
    ClosedIsFigure(more, false, sh, LastAt(more, false, StampStart), LastAt(more, false, StampStop));
  }

  lemma FigureStands(moves: seq<Move>, more: seq<Move>, patient: bool, i: int, j: int, bytes: nat, duration: int)
    requires Figure(moves, patient, i, j, bytes, duration) && moves <= more
    ensures Figure(more, patient, i, j, bytes, duration)
  {
    assert moves == more[..|moves|];
    AtPrefix(more, |moves|, i, patient, StampStart);
    AtPrefix(more, |moves|, j, patient, StampStop);
    assert moves[..j] == more[..j];
  }
}
