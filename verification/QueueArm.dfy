/** A FIFO copy worker: submitters append under a lock, one worker pops, copies and records, and a
    stop event both ends the worker's loop and cancels the copy that is running.

    One step is one statement of one thread; a statement made under the lock is one step. Every step
    may let time pass, so the clock readings are those of any schedule. */
module QueueArm {
  datatype Item = Item(submitT: int, nbytes: nat)

  datatype Record = Record(submitT: int, startT: int, doneT: int, nbytes: nat)

  datatype WorkerPc =
    | TestStop
    | Pop
    | Start(item: Item)
    | Copying(item: Item, startT: int)
    | Append(record: Record)
    | Exited

  /** `submitted` and `dropped` are history: everything ever submitted, and what was cancelled. */
  datatype State = State(clock: int, queue: seq<Item>, records: seq<Record>, stop: bool, pc: WorkerPc,
                         submitted: seq<Item>, dropped: seq<Item>)

  function Init(clock: int): State {
    State(clock, [], [], false, TestStop, [], [])
  }

  datatype Actor =
    | Submitter(nbytes: nat)
    | Worker(cancel: bool)   // whether the copy, if it ends now, ends cancelled
    | Stopper

  /** `wait` is the time that passes before the step. */
  datatype Move = Move(wait: nat, actor: Actor)

  /** The copier reports a cancelled copy only after it has seen the stop event set. */
  function WorkerStep(s: State, cancel: bool): State {
    match s.pc
    case TestStop => s.(pc := if s.stop then Exited else Pop)
    case Pop => if s.queue == [] then s.(pc := TestStop) else s.(pc := Start(s.queue[0]), queue := s.queue[1..])
    case Start(item) => s.(pc := Copying(item, s.clock))
    case Copying(item, startT) =>
      if cancel && s.stop then s.(pc := TestStop, dropped := s.dropped + [item])
      else s.(pc := Append(Record(item.submitT, startT, s.clock, item.nbytes)))
    case Append(record) => s.(pc := TestStop, records := s.records + [record])
    case Exited => s
  }

  function SubmitStep(s: State, nbytes: nat): State {
    var item := Item(s.clock, nbytes);
    s.(queue := s.queue + [item], submitted := s.submitted + [item])
  }

  function Wait(s: State, wait: nat): State {
    s.(clock := s.clock + wait)
  }

  function Act(s: State, actor: Actor): State {
    match actor
    case Submitter(nbytes) => SubmitStep(s, nbytes)
    case Worker(cancel) => WorkerStep(s, cancel)
    case Stopper => s.(stop := true)
  }

  function Step(s: State, m: Move): State {
    Act(Wait(s, m.wait), m.actor)
  }

  function Exec(s: State, moves: seq<Move>): State {
    if moves == [] then s else Step(Exec(s, moves[..|moves| - 1]), moves[|moves| - 1])
  }

  // ---------------------------------------------------------------- conservation

  function ItemOf(r: Record): Item {
    Item(r.submitT, r.nbytes)
  }

  /** The submissions that the records answer, in the order of the records. */
  function Served(records: seq<Record>): (items: seq<Item>)
    ensures |items| == |records|
  {
    if records == [] then [] else Served(records[..|records| - 1]) + [ItemOf(records[|records| - 1])]
  }

  function InFlight(pc: WorkerPc): seq<Item> {
    match pc
    case Start(item) => [item]
    case Copying(item, _) => [item]
    case Append(record) => [ItemOf(record)]
    case _ => []
  }

  /** Every submission is recorded, dropped, in flight or queued, in that order. */
  ghost predicate Conserved(s: State) {
    && s.submitted == Served(s.records) + s.dropped + InFlight(s.pc) + s.queue
    && (s.dropped != [] ==> |s.dropped| == 1 && s.stop && (s.pc.TestStop? || s.pc.Exited?))
  }

  lemma Regroup<T>(a: seq<T>, b: seq<T>, c: seq<T>, d: seq<T>, x: T)
    ensures a + b + c + d + [x] == a + b + c + (d + [x])
    ensures a + b + [] + ([x] + d) == a + b + [x] + d
    ensures a + [] + [x] + d == a + [x] + [] + d
    ensures a + [] + [x] + d == (a + [x]) + [] + [] + d
  {
  }

  lemma PopConserves(s: State)
    requires Conserved(s) && s.pc == Pop && s.queue != []
    ensures Conserved(WorkerStep(s, false))
  {
    assert s.queue == [s.queue[0]] + s.queue[1..];
    Regroup(Served(s.records), s.dropped, [], s.queue[1..], s.queue[0]);
  }

  lemma FinishConserves(s: State, cancel: bool)
    requires Conserved(s) && s.pc.Copying?
    ensures Conserved(WorkerStep(s, cancel))
  {
    var records, queue, item := Served(s.records), s.queue, s.pc.item;
    Regroup(records, [], [], queue, item);
    assert s.dropped == [];
  }

  lemma AppendConserves(s: State)
    requires Conserved(s) && s.pc.Append?
    ensures Conserved(WorkerStep(s, false))
  {
    assert (s.records + [s.pc.record])[..|s.records|] == s.records;
    Regroup(Served(s.records), [], [], s.queue, ItemOf(s.pc.record));
  }

  lemma WorkerConserves(s: State, cancel: bool)
    requires Conserved(s)
    ensures Conserved(WorkerStep(s, cancel))
  {
    match s.pc
    case Pop => if s.queue != [] { PopConserves(s); }
    case Copying(_, _) => FinishConserves(s, cancel);
    case Append(_) => AppendConserves(s);
    case _ =>
  }

  lemma SubmitConserves(s: State, nbytes: nat)
    requires Conserved(s)
    ensures Conserved(SubmitStep(s, nbytes))
  {
    Regroup(Served(s.records), s.dropped, InFlight(s.pc), s.queue, Item(s.clock, nbytes));
  }

  lemma ActConserves(s: State, actor: Actor)
    requires Conserved(s)
    ensures Conserved(Act(s, actor))
  {
    match actor
    case Submitter(nbytes) => SubmitConserves(s, nbytes);
    case Worker(cancel) => WorkerConserves(s, cancel);
    case Stopper =>
  }

  lemma {:induction false} RunConserves(clock: int, moves: seq<Move>)
    ensures Conserved(Exec(Init(clock), moves))
  {
    if moves != [] {
      RunConserves(clock, moves[..|moves| - 1]);
      var m := moves[|moves| - 1];
      ActConserves(Wait(Exec(Init(clock), moves[..|moves| - 1]), m.wait), m.actor);
    }
  }

  /** The records answer a prefix of the submissions in submission order, and at most one submission
      is ever missing from records and queue together: the one being copied, or the one whose copy the
      stop cancelled. */
  lemma RecordsAreAPrefix(clock: int, moves: seq<Move>)
    ensures var s := Exec(Init(clock), moves);
      && Served(s.records) <= s.submitted
      && |s.records| + |s.queue| <= |s.submitted| <= |s.records| + 1 + |s.queue|
      && s.queue == s.submitted[|s.submitted| - |s.queue|..]
      && (!s.stop ==> s.dropped == [])
  {
    RunConserves(clock, moves);
  }

  // ---------------------------------------------------------------- time

  /** One copy at a time: each record's copy begins after its submission and after the previous
      record's copy ended, and the last one ended by time t. */
  predicate Serial(records: seq<Record>, t: int) {
    records == [] ||
    var r := records[|records| - 1];
    r.submitT <= r.startT <= r.doneT <= t && Serial(records[..|records| - 1], r.startT)
  }

  lemma {:induction false} SerialLater(records: seq<Record>, t: int, u: int)
    requires Serial(records, t) && t <= u
    ensures Serial(records, u)
  {
  }

  /** Submission times do not decrease and none lies ahead of time t. */
  predicate Dated(items: seq<Item>, t: int) {
    (forall i :: 0 <= i < |items| ==> items[i].submitT <= t)
    && forall i, j :: 0 <= i < j < |items| ==> items[i].submitT <= items[j].submitT
  }

  ghost predicate Timely(s: State) {
    && Dated(s.submitted, s.clock)
    && (match s.pc
        case Start(item) => item.submitT <= s.clock && Serial(s.records, s.clock)
        case Copying(item, startT) => item.submitT <= startT <= s.clock && Serial(s.records, startT)
        case Append(r) => r.submitT <= r.startT <= r.doneT <= s.clock && Serial(s.records, r.startT)
        case _ => Serial(s.records, s.clock))
  }

  lemma AppendTimely(s: State)
    requires Timely(s) && s.pc.Append?
    ensures Timely(WorkerStep(s, false))
  {
    assert (s.records + [s.pc.record])[..|s.records|] == s.records;
  }

  lemma WorkerTimely(s: State, cancel: bool)
    requires Timely(s) && Conserved(s)
    ensures Timely(WorkerStep(s, cancel))
  {
    match s.pc
    case TestStop =>
    case Pop =>
      if s.queue != [] {
        assert s.queue[0] == s.submitted[|s.submitted| - |s.queue|];
      }
    case Start(item) =>
    case Copying(item, startT) =>
      if cancel && s.stop {
        SerialLater(s.records, startT, s.clock);
      }
    case Append(_) => AppendTimely(s);
    case Exited =>
  }

  lemma WaitTimely(s: State, wait: nat)
    requires Timely(s)
    ensures Timely(Wait(s, wait))
  {
    if !s.pc.Copying? && !s.pc.Append? {
      SerialLater(s.records, s.clock, s.clock + wait);
    }
  }

  lemma SubmitTimely(s: State, nbytes: nat)
    requires Timely(s)
    ensures Timely(SubmitStep(s, nbytes))
  {
  }

  lemma ActTimely(s: State, actor: Actor)
    requires Timely(s) && Conserved(s)
    ensures Timely(Act(s, actor))
  {
    match actor
    case Submitter(nbytes) => SubmitTimely(s, nbytes);
    case Worker(cancel) => WorkerTimely(s, cancel);
    case Stopper =>
  }

  lemma {:induction false} RunTimely(clock: int, moves: seq<Move>)
    ensures Timely(Exec(Init(clock), moves))
  {
    if moves != [] {
      RunTimely(clock, moves[..|moves| - 1]);
      RunConserves(clock, moves[..|moves| - 1]);
      var s, m := Exec(Init(clock), moves[..|moves| - 1]), moves[|moves| - 1];
      WaitTimely(s, m.wait);
      ActTimely(Wait(s, m.wait), m.actor);
    }
  }

  /** In every run copies never overlap, no copy begins before its submission, and submission times
      are in queue order. */
  lemma RunIsTimely(clock: int, moves: seq<Move>)
    ensures var s := Exec(Init(clock), moves);
      Dated(s.submitted, s.clock) && Serial(s.records, s.clock)
  {
    RunTimely(clock, moves);
    var s := Exec(Init(clock), moves);
    if s.pc.Copying? {
      SerialLater(s.records, s.pc.startT, s.clock);
    } else if s.pc.Append? {
      SerialLater(s.records, s.pc.record.startT, s.clock);
    }
  }

  // ---------------------------------------------------------------- what a record measures

  function Waited(moves: seq<Move>): nat {
    if moves == [] then 0 else Waited(moves[..|moves| - 1]) + moves[|moves| - 1].wait
  }

  /** The clock at which move k of the run is made. */
  function ClockAt(clock: int, moves: seq<Move>, k: nat): int
    requires k < |moves|
  {
    clock + Waited(moves[..k + 1])
  }

  lemma WaitedLast(moves: seq<Move>, m: Move)
    ensures Waited(moves + [m]) == Waited(moves) + m.wait
  {
    assert (moves + [m])[..|moves|] == moves;
  }

  lemma {:induction false} WaitedSplits(moves: seq<Move>, i: nat, j: nat)
    requires i <= j <= |moves|
    ensures Waited(moves[..j]) == Waited(moves[..i]) + Waited(moves[i..j])
  {
    if i == j {
      assert moves[i..j] == [];
    } else {
      WaitedSplits(moves, i, j - 1);
      assert moves[..j] == moves[..j - 1] + [moves[j - 1]];
      assert moves[i..j] == moves[i..j - 1] + [moves[j - 1]];
      WaitedLast(moves[..j - 1], moves[j - 1]);
      WaitedLast(moves[i..j - 1], moves[j - 1]);
    }
  }

  lemma {:induction false} ClockIsWaited(clock: int, moves: seq<Move>)
    ensures Exec(Init(clock), moves).clock == clock + Waited(moves)
  {
    if moves != [] {
      ClockIsWaited(clock, moves[..|moves| - 1]);
    }
  }

  /** What the run's submitters submitted, each stamped with the clock of its own move. */
  function Submissions(clock: int, moves: seq<Move>): seq<Item> {
    if moves == [] then []
    else
      var n := |moves| - 1;
      Submissions(clock, moves[..n]) +
      match moves[n].actor
      case Submitter(nbytes) => [Item(clock + Waited(moves), nbytes)]
      case _ => []
  }

  lemma {:induction false} SubmittedAsMade(clock: int, moves: seq<Move>)
    ensures Exec(Init(clock), moves).submitted == Submissions(clock, moves)
  {
    if moves != [] {
      SubmittedAsMade(clock, moves[..|moves| - 1]);
      ClockIsWaited(clock, moves[..|moves| - 1]);
    }
  }

  /** Move i is the worker's, takes up the copy of `item` at time t, and is its last before move `end`. */
  ghost predicate BegunAt(clock: int, moves: seq<Move>, item: Item, t: int, i: nat, end: nat) {
    && i < end <= |moves| && moves[i].actor.Worker?
    && Exec(Init(clock), moves[..i]).pc == Start(item) && t == ClockAt(clock, moves, i)
    && forall k | i < k < end :: !moves[k].actor.Worker?
  }

  /** The record's copy was taken up by move i and ended with move j, the worker's next; its times are the
      clock at those moves. */
  ghost predicate CopiedBetween(clock: int, moves: seq<Move>, r: Record, i: nat, j: nat) {
    && j < |moves| && moves[j].actor.Worker? && BegunAt(clock, moves, ItemOf(r), r.startT, i, j)
    && Exec(Init(clock), moves[..j]).pc == Copying(ItemOf(r), r.startT)
    && r.doneT == ClockAt(clock, moves, j)
  }

  ghost predicate Measured(clock: int, moves: seq<Move>, r: Record) {
    exists i, j :: CopiedBetween(clock, moves, r, i, j)
  }

  ghost predicate UnderWay(clock: int, moves: seq<Move>, item: Item, t: int) {
    exists i :: BegunAt(clock, moves, item, t, i, |moves|)
  }

  ghost predicate AllMeasured(clock: int, moves: seq<Move>, records: seq<Record>) {
    forall n | 0 <= n < |records| :: Measured(clock, moves, records[n])
  }

  ghost predicate WorkMeasured(clock: int, moves: seq<Move>, pc: WorkerPc) {
    match pc
    case Copying(item, t) => UnderWay(clock, moves, item, t)
    case Append(r) => Measured(clock, moves, r)
    case _ => true
  }

  lemma BegunLater(clock: int, moves: seq<Move>, m: Move, item: Item, t: int, i: nat, end: nat)
    requires BegunAt(clock, moves, item, t, i, end)
    ensures BegunAt(clock, moves + [m], item, t, i, end)
  {
    assert (moves + [m])[..i] == moves[..i];
    assert (moves + [m])[..i + 1] == moves[..i + 1];
  }

  lemma CopiedLater(clock: int, moves: seq<Move>, m: Move, r: Record, i: nat, j: nat)
    requires CopiedBetween(clock, moves, r, i, j)
    ensures CopiedBetween(clock, moves + [m], r, i, j)
  {
    BegunLater(clock, moves, m, ItemOf(r), r.startT, i, j);
    assert (moves + [m])[..j] == moves[..j];
    assert (moves + [m])[..j + 1] == moves[..j + 1];
  }

  lemma MeasuredLater(clock: int, moves: seq<Move>, m: Move, r: Record)
    requires Measured(clock, moves, r)
    ensures Measured(clock, moves + [m], r)
  {
    var i: nat, j: nat :| CopiedBetween(clock, moves, r, i, j);
    CopiedLater(clock, moves, m, r, i, j);
  }

  lemma AllMeasuredLater(clock: int, moves: seq<Move>, m: Move, records: seq<Record>)
    requires AllMeasured(clock, moves, records)
    ensures AllMeasured(clock, moves + [m], records)
  {
    forall n | 0 <= n < |records| ensures Measured(clock, moves + [m], records[n]) {
      MeasuredLater(clock, moves, m, records[n]);
    }
  }

  lemma UnderWayLater(clock: int, moves: seq<Move>, m: Move, item: Item, t: int)
    requires UnderWay(clock, moves, item, t) && !m.actor.Worker?
    ensures UnderWay(clock, moves + [m], item, t)
  {
    var i :| BegunAt(clock, moves, item, t, i, |moves|);
    BegunLater(clock, moves, m, item, t, i, |moves|);
    assert BegunAt(clock, moves + [m], item, t, i, |moves + [m]|);
  }

  lemma Front(moves: seq<Move>, m: Move)
    ensures (moves + [m])[..|moves|] == moves && (moves + [m])[..|moves| + 1] == moves + [m]
  {
  }

  lemma CopyBegins(clock: int, moves: seq<Move>, m: Move, item: Item)
    requires Exec(Init(clock), moves).pc == Start(item) && m.actor.Worker?
    ensures WorkMeasured(clock, moves + [m], Exec(Init(clock), moves + [m]).pc)
  {
    Front(moves, m);
    ClockIsWaited(clock, moves);
    var t := clock + Waited(moves + [m]);
    assert Exec(Init(clock), moves + [m]).pc == Copying(item, t);
    assert BegunAt(clock, moves + [m], item, t, |moves|, |moves + [m]|);
  }

  lemma CopyEnds(clock: int, moves: seq<Move>, m: Move, item: Item, t: int)
    requires Exec(Init(clock), moves).pc == Copying(item, t) && UnderWay(clock, moves, item, t) && m.actor.Worker?
    ensures WorkMeasured(clock, moves + [m], Exec(Init(clock), moves + [m]).pc)
  {
    Front(moves, m);
    ClockIsWaited(clock, moves);
    var s := Exec(Init(clock), moves);
    if !(m.actor.cancel && s.stop) {
      var i :| BegunAt(clock, moves, item, t, i, |moves|);
      BegunLater(clock, moves, m, item, t, i, |moves|);
      var r := Record(item.submitT, t, clock + Waited(moves + [m]), item.nbytes);
      assert Exec(Init(clock), moves + [m]).pc == Append(r);
      assert CopiedBetween(clock, moves + [m], r, i, |moves|);
    }
  }

  lemma WorkStaysMeasured(clock: int, moves: seq<Move>, m: Move)
    requires WorkMeasured(clock, moves, Exec(Init(clock), moves).pc)
    ensures WorkMeasured(clock, moves + [m], Exec(Init(clock), moves + [m]).pc)
  {
    var s := Exec(Init(clock), moves);
    Front(moves, m);
    if s.pc.Copying? && m.actor.Worker? {
      CopyEnds(clock, moves, m, s.pc.item, s.pc.startT);
    } else if s.pc.Copying? {
      UnderWayLater(clock, moves, m, s.pc.item, s.pc.startT);
    } else if s.pc.Append? {
      MeasuredLater(clock, moves, m, s.pc.record);
    } else if s.pc.Start? && m.actor.Worker? {
      CopyBegins(clock, moves, m, s.pc.item);
    }
  }

  /** In every run, every record measures a copy of that run. */
  lemma {:induction false} RunIsMeasured(clock: int, moves: seq<Move>)
    ensures var s := Exec(Init(clock), moves); AllMeasured(clock, moves, s.records) && WorkMeasured(clock, moves, s.pc)
  {
    if moves != [] {
      var before, m := moves[..|moves| - 1], moves[|moves| - 1];
      var s := Exec(Init(clock), before);
      RunIsMeasured(clock, before);
      assert moves == before + [m];
      AllMeasuredLater(clock, before, m, s.records);
      WorkStaysMeasured(clock, before, m);
      if s.pc.Append? {
        MeasuredLater(clock, before, m, s.pc.record);
      }
    }
  }

  lemma {:induction false} ServedAt(records: seq<Record>, n: nat)
    requires n < |records|
    ensures Served(records)[n] == ItemOf(records[n])
  {
    if n < |records| - 1 {
      ServedAt(records[..|records| - 1], n);
    }
  }

  lemma RecordIsOfRun(clock: int, moves: seq<Move>, n: nat)
    requires n < |Exec(Init(clock), moves).records|
    ensures n < |Submissions(clock, moves)|
    ensures ItemOf(Exec(Init(clock), moves).records[n]) == Submissions(clock, moves)[n]
  {
    RecordsAreAPrefix(clock, moves);
    SubmittedAsMade(clock, moves);
    ServedAt(Exec(Init(clock), moves).records, n);
  }

  lemma DurationIsWaited(clock: int, moves: seq<Move>, r: Record, i: nat, j: nat)
    requires CopiedBetween(clock, moves, r, i, j)
    ensures r.doneT - r.startT == Waited(moves[i + 1..j + 1])
  {
    WaitedSplits(moves, i + 1, j + 1);
  }

  /** Every record has two moves of the worker, one straight after the other, of which the first takes up
      the copy of its submission and the second ends it. Its times are the clock at those moves, so its
      duration is the time waited between them; and its submission is the run's, stamped when it was
      made. */
  lemma RecordsMeasureCopies(clock: int, moves: seq<Move>, n: nat) returns (i: nat, j: nat)
    requires n < |Exec(Init(clock), moves).records|
    ensures var r := Exec(Init(clock), moves).records[n];
      && CopiedBetween(clock, moves, r, i, j)
      && r.doneT - r.startT == Waited(moves[i + 1..j + 1])
      && n < |Submissions(clock, moves)| && ItemOf(r) == Submissions(clock, moves)[n]
  {
    var r := Exec(Init(clock), moves).records[n];
    RunIsMeasured(clock, moves);
    assert Measured(clock, moves, r);
    i, j :| CopiedBetween(clock, moves, r, i, j);
    DurationIsWaited(clock, moves, r, i, j);
    RecordIsOfRun(clock, moves, n);
  }

  // ---------------------------------------------------------------- progress

  function Steps(s: State): nat {
    match s.pc
    case TestStop => 1
    case Pop => 5
    case Start(_) => 4
    case Copying(_, _) => 3
    case Append(_) => 2
    case Exited => 0
  }

  /** The records there are, and the one the worker is already committed to attempting. */
  function Outlook(s: State): nat {
    |s.records| + |InFlight(s.pc)| + if s.pc == Pop then 1 else 0
  }

  /** Once stop is set every worker statement brings the exit nearer, so the join returns after at most
      five of them, with at most one more record than there was. */
  lemma StopIsObeyed(s: State, cancel: bool)
    requires s.stop && s.pc != Exited
    ensures var t := WorkerStep(s, cancel);
      t.stop && Steps(t) < Steps(s) <= 5 && |s.records| <= |t.records| && Outlook(t) <= Outlook(s)
    ensures |s.records| <= Outlook(s) <= |s.records| + 1
  {
  }

  function WorkerMoves(moves: seq<Move>): nat {
    if moves == [] then 0
    else WorkerMoves(moves[..|moves| - 1]) + if moves[|moves| - 1].actor.Worker? then 1 else 0
  }

  /** In every run that follows a stop, submitters still at work, the worker has exited after five of its
      statements, and all of them together add at most one record. */
  lemma {:induction false} StopEndsTheWorker(s: State, moves: seq<Move>)
    requires s.stop
    ensures var t := Exec(s, moves);
      && t.stop && (t.pc == Exited || Steps(t) + WorkerMoves(moves) <= 5)
      && |s.records| <= |t.records| <= Outlook(t) <= Outlook(s) <= |s.records| + 1
    ensures WorkerMoves(moves) >= 5 ==> Exec(s, moves).pc == Exited
  {
    if moves != [] {
      var p, m := moves[..|moves| - 1], moves[|moves| - 1];
      StopEndsTheWorker(s, p);
      var t := Wait(Exec(s, p), m.wait);
      if m.actor.Worker? && t.pc != Exited {
        StopIsObeyed(t, m.actor.cancel);
      }
    }
  }

  /** The worker is alive and nobody has asked it to stop. */
  ghost predicate Alive(s: State) {
    Conserved(s) && !s.stop && s.pc != Exited
  }

  ghost predicate NobodyStops(moves: seq<Move>) {
    forall i :: 0 <= i < |moves| ==> !moves[i].actor.Stopper?
  }

  /** Worker statements left until the first n submissions are recorded. */
  function Due(s: State, n: nat): int {
    if |s.records| >= n then 0
    else
      5 * (n - |s.records| - |InFlight(s.pc)|) +
      match s.pc
      case TestStop => 1
      case Pop => 0
      case Start(_) => 4
      case Copying(_, _) => 3
      case Append(_) => 2
      case Exited => 0
  }

  /** Five statements per queued item, and what the item in hand still needs. */
  function Backlog(s: State): nat {
    5 * |s.queue| +
    match s.pc
    case TestStop => if s.queue == [] then 0 else 1
    case Pop => 0
    case Start(_) => 4
    case Copying(_, _) => 3
    case Append(_) => 2
    case Exited => 0
  }

  lemma Lengths(s: State)
    requires Alive(s)
    ensures |s.submitted| == |s.records| + |InFlight(s.pc)| + |s.queue|
  {
    assert |s.submitted| == |s.records| + |s.dropped| + |InFlight(s.pc)| + |s.queue|;
  }

  /** Every statement of the worker brings the first n submissions nearer to their records; nobody else
      sets them back. */
  lemma ActLowersDue(s: State, actor: Actor, n: nat)
    requires Alive(s) && n <= |s.submitted| && !actor.Stopper?
    ensures var t := Act(s, actor);
      && Alive(t) && s.submitted <= t.submitted && |s.records| <= |t.records|
      && (|t.records| >= n || Due(t, n) <= Due(s, n) - if actor.Worker? then 1 else 0)
  {
    ActConserves(s, actor);
    Lengths(s);
  }

  lemma {:induction false} RunLowersDue(s: State, moves: seq<Move>, n: nat)
    requires Alive(s) && n <= |s.submitted| && NobodyStops(moves)
    ensures var t := Exec(s, moves);
      && Alive(t) && s.submitted <= t.submitted
      && (|t.records| >= n || Due(t, n) + WorkerMoves(moves) <= Due(s, n))
  {
    if moves != [] {
      var p, m := moves[..|moves| - 1], moves[|moves| - 1];
      RunLowersDue(s, p, n);
      ActLowersDue(Wait(Exec(s, p), m.wait), m.actor, n);
    }
  }

  /** In every run without a stop, submitters still at work and time passing as it will, as many worker
      statements as the backlog needs have recorded everything that had been submitted, in order. */
  lemma WorkDrains(s: State, moves: seq<Move>)
    requires Conserved(s) && !s.stop && s.pc != Exited && NobodyStops(moves)
    ensures WorkerMoves(moves) >= Backlog(s) ==> s.submitted <= Served(Exec(s, moves).records)
  {
    var n, t := |s.submitted|, Exec(s, moves);
    Lengths(s);
    assert Backlog(s) == Due(s, n);
    RunLowersDue(s, moves, n);
    Lengths(t);
    assert Served(t.records) <= t.submitted;
  }
}
