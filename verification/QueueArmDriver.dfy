/** The arm as an object: its queue, its records, its stop event, and the statement its worker thread
    is about to make. */
module QueueArmDriver {
  import opened QueueArm

  class Arm {
    var q: seq<Item>
    var records: seq<Record>
    var stop: bool
    var clock: int
    var pc: WorkerPc
    ghost var submitted: seq<Item>
    ghost var dropped: seq<Item>

    ghost function View(): State
      reads this
    {
      State(clock, q, records, stop, pc, submitted, dropped)
    }

    ghost predicate Valid()
      reads this
    {
      Conserved(View()) && Timely(View())
    }

    constructor (now: int)
      ensures Valid() && View() == Init(now)
    {
      q, records, stop, clock, pc := [], [], false, now, TestStop;
      submitted, dropped := [], [];
    }

    method Elapse(wait: nat)
      requires Valid()
      modifies this`clock
      ensures Valid() && View() == Wait(old(View()), wait)
    {
      WaitTimely(View(), wait);
      clock := clock + wait;
    }

    /** Append under the lock, stamped with the time. */
    method Submit(nbytes: nat)
      requires Valid()
      modifies this`q, this`submitted
      ensures Valid() && View() == SubmitStep(old(View()), nbytes)
    {
      SubmitConserves(View(), nbytes);
      SubmitTimely(View(), nbytes);
      q, submitted := q + [Item(clock, nbytes)], submitted + [Item(clock, nbytes)];
    }

    /** What stats() reports as left: all that was submitted and is neither recorded, nor given up, nor
        in the worker's hands. After the worker has exited it holds nothing. */
    method QueueLen() returns (n: nat)
      ensures Valid() ==> |submitted| == |records| + |dropped| + |InFlight(pc)| + n && |dropped| <= 1
    {
      n := |q|;
      assert |Served(records)| == |records|;
    }

    /** One statement of the worker's loop; the copier may return cancelled once stop is set. */
    method WorkerStatement(cancel: bool)
      requires Valid()
      modifies this`q, this`records, this`pc, this`dropped
      ensures Valid() && View() == WorkerStep(old(View()), cancel)
    {
      WorkerConserves(View(), cancel);
      WorkerTimely(View(), cancel);
      match pc {
        case TestStop => pc := if stop then Exited else Pop;
        case Pop =>
          if q == [] {
            pc := TestStop;
          } else {
            pc, q := WorkerPc.Start(q[0]), q[1..];
          }
        case Start(item) => pc := Copying(item, clock);
        case Copying(item, startT) =>
          if cancel && stop {
            dropped, pc := dropped + [item], TestStop;
          } else {
            pc := Append(Record(item.submitT, startT, clock, item.nbytes));
          }
        case Append(record) => records, pc := records + [record], TestStop;
        case Exited =>
      }
      assert View() == WorkerStep(old(View()), cancel);
    }

    /** Submissions made by other threads. */
    method SubmitAll(bytes: seq<nat>)
      requires Valid()
      modifies this`q, this`submitted
      ensures Valid() && old(submitted) <= submitted
    {
      for i := 0 to |bytes|
        invariant Valid() && old(submitted) <= submitted
      {
        Submit(bytes[i]);
      }
    }

    /** One turn of the join: others submit, time passes, the worker makes a statement. */
    method Turn()
      requires Valid() && stop && pc != Exited
      modifies this`q, this`submitted, this`clock, this`records, this`pc, this`dropped
      ensures Valid() && Nearer(old(View()), View())
    {
      var cancel, wait: nat, bytes: seq<nat> := *, *, *;
      SubmitAll(bytes);
      Elapse(wait);
      TurnIsNearer(old(View()), View(), cancel);
      WorkerStatement(cancel);
    }

    /** Set stop and join the worker while submitters keep submitting and time keeps passing. At most
        one record is added; what the records answer is still a prefix of everything submitted. */
    method Shutdown()
      requires Valid()
      modifies this
      ensures Valid() && stop && pc == Exited
      ensures |old(records)| <= |records| <= |old(records)| + 1 && Served(records) <= submitted
      ensures old(submitted) <= submitted
    {
      stop := true;
      while pc != Exited
        invariant Valid() && stop && old(submitted) <= submitted
        invariant |old(records)| <= |records| && Outlook(View()) <= |old(records)| + 1
        decreases Steps(View())
      {
        Turn();
      }
    }
  }

  /** After stop the exit is nearer, nothing submitted or recorded is lost, and no more records are to be
      expected than before. */
  ghost predicate Nearer(before: State, after: State) {
    && Steps(after) < Steps(before) && before.submitted <= after.submitted
    && |before.records| <= |after.records| && Outlook(after) <= Outlook(before)
  }

  lemma TurnIsNearer(before: State, mid: State, cancel: bool)
    requires mid.stop && mid.pc == before.pc != Exited && mid.records == before.records
    requires before.submitted <= mid.submitted
    ensures Nearer(before, WorkerStep(mid, cancel))
  {
    StopIsObeyed(mid, cancel);
  }
}
