/** What the invariant of the prefetch pipeline says about every state a schedule can reach, and the one
    input on which the host program crashes. */
module PrefetchSafety {
  import opened Prefetch

  /** The accumulator is what the sequential step holds after some number of chunks. */
  ghost predicate HoldsPrefix<K, V, S>(j: Job<K, V, S>, acc: Acc<S>)
    requires j.Valid()
  {
    acc == Empty || exists k: nat | k <= j.N() :: acc == Value(Sequential(j, k))
  }

  /** A merge reaches the head of its queue only once its chunk is on the device, intact. */
  lemma MergeFindsChunk<K, V, S>(j: Job<K, V, S>, s: State<K, V, S>)
    requires Inv(j, s) && s.host.computeQ != [] && s.host.computeQ[0].Merge?
    ensures var i := s.host.computeQ[0].i;
      && i < j.N() && i in s.dev.fired
      && i in s.dev.k && i in s.dev.v && s.dev.k[i] == j.ks[i] && s.dev.v[i] == j.vs[i]
  {
    var cd: nat, md: nat :| At(j, s, cd, md);
    ComputeSliceShrinks(j.N(), md, ComputeIssued(j.N(), s.host.pc));
    DeviceContents(j, cd, s.host.computeQ[0].i);
  }

  lemma ResultHoldsPrefix<K, V, S>(j: Job<K, V, S>, md: nat)
    requires j.Valid() && md <= 2 * j.N() + 2
    ensures HoldsPrefix(j, ResultAfter(j, md).acc)
  {
    if md > 0 {
      assert ResultAfter(j, md).acc == Value(Sequential(j, (md - 1) / 2));
    }
  }

  /** Every wait in the queue was armed when it was enqueued. */
  predicate AllArmed(q: seq<ComputeOp>) {
    forall p | 0 <= p < |q| :: q[p].Wait? ==> q[p].armed
  }

  lemma {:induction false} WaitsAreArmed(n: nat, a: nat, b: nat)
    ensures AllArmed(ComputeSlice(n, a, b))
  {
    if a < b {
      WaitsAreArmed(n, a, b - 1);
    }
  }

  lemma {:induction false} RangeSize(a: nat, b: nat)
    ensures |Range(a, b)| == if a <= b then b - a else 0
  {
    if a < b {
      RangeSize(a, b - 1);
      RangeMember(a, b - 1, b - 1);
    }
  }

  lemma HostIsSafe(n: nat, h: Host, cd: nat, md: nat)
    requires HostAt(n, h, cd, md)
    ensures !h.pc.Crashed? && AllArmed(h.computeQ) && |h.buf| <= 2
  {
    WaitsAreArmed(n, md, ComputeIssued(n, h.pc));
    RangeSize(Cleared(n, h.pc), (CopyIssued(n, h.pc) + 1) / 3);
  }

  /** In every reachable state: nothing was merged before it had arrived, chunks are merged in order,
      no wait in the queue is vacuous, and the host list holds at most two chunks. */
  lemma RunIsSafe<K, V, S>(j: Job<K, V, S>, schedule: seq<Actor>)
    requires j.Valid() && (j.guarded || j.N() > 0)
    ensures var s := Exec(j, schedule);
      && !s.host.pc.Crashed?
      && HoldsPrefix(j, s.res.acc)
      && AllArmed(s.host.computeQ)
      && |s.host.buf| <= 2
  {
    ExecInv(j, schedule);
    var s := Exec(j, schedule);
    var cd: nat, md: nat :| At(j, s, cd, md);
    HostIsSafe(j.N(), s.host, cd, md);
    ResultHoldsPrefix(j, md);
  }

  lemma FirstCall<K, V, S>(j: Job<K, V, S>, schedule: seq<Actor>)
    requires schedule == [HostProgram]
    ensures Exec(j, schedule) == Step(j, Init<K, V, S>(), HostProgram)
  {
    var before := schedule[..|schedule| - 1];
    assert before == [];
    assert Exec(j, before) == Init<K, V, S>();
  }

  /** Without the guard, an empty spill list is the one input on which the host raises. */
  lemma CrashExactly<K, V, S>(j: Job<K, V, S>)
    requires j.Valid()
    ensures (exists schedule :: Exec(j, schedule).host.pc.Crashed?) <==> !j.guarded && j.N() == 0
  {
    if !j.guarded && j.N() == 0 {
      var schedule := [HostProgram];
      FirstCall(j, schedule);
      assert Exec(j, schedule).host.pc == Crashed;
    } else {
      forall schedule ensures !Exec(j, schedule).host.pc.Crashed? {
        RunIsSafe(j, schedule);
      }
    }
  }
}
