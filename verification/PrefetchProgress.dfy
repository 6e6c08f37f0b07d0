/** The prefetch pipeline always gets to its end: every move brings it nearer, and where nobody can move
    the answer is out. */
module PrefetchProgress {
  import opened Options
  import opened Prefetch

  predicate Stuck<K, V, S>(s: State<K, V, S>) {
    forall a: Actor :: !Enabled(s, a)
  }

  /** Upper bound on the moves left: host calls weigh two, because each enqueues at most one. */
  function Remaining(n: nat, h: Host): nat {
    2 * HostCallsLeft(n, h.pc) + |h.copyQ| + |h.computeQ|
  }

  function HostCallsLeft(n: nat, pc: Pc): nat {
    match pc
    case Start => 8 * n + 5
    case Issue(c, k) =>
      if c == 0 then 8 * n + 4 - (if k < 3 then k else 2)
      else if c <= n then 8 * (n - c + 1) - (if k < 3 then k else 2)
      else 0
    case Top(i) => if i <= n then 8 * (n - i) + 1 else 0
    case WaitAt(i) => if i < n then 8 * (n - i) - 3 else 0
    case MergeAt(i) => if i < n then 8 * (n - i) - 4 else 0
    case ClearAt(i) => if i < n then 8 * (n - i) - 5 else 0
    case Done => 0
    case Crashed => 0
  }

  lemma HostCallsDecrease(n: nat, guarded: bool, h: Host)
    requires InRange(n, h.pc) && h.Running()
    ensures HostCallsLeft(n, HostStep(n, guarded, h).pc) < HostCallsLeft(n, h.pc)
  {
  }

  lemma HostEnqueuesOne(n: nat, guarded: bool, h: Host)
    requires h.Running()
    ensures var h' := HostStep(n, guarded, h); |h'.copyQ| + |h'.computeQ| <= |h.copyQ| + |h.computeQ| + 1
  {
  }

  /** Every move brings the end nearer: no run makes more than 16 n + 10 moves. */
  lemma MoveDecreases<K, V, S>(j: Job<K, V, S>, s: State<K, V, S>, a: Actor)
    requires Inv(j, s) && Enabled(s, a)
    ensures Remaining(j.N(), Step(j, s, a).host) < Remaining(j.N(), s.host)
    ensures Remaining(j.N(), Init<K, V, S>().host) == 16 * j.N() + 10
  {
    if a.HostProgram? {
      HostCallsDecrease(j.N(), j.guarded, s.host);
      HostEnqueuesOne(j.N(), j.guarded, s.host);
    }
  }

  /** With the host done and all copies executed, the head of the compute queue is never blocked. */
  lemma BlockedNeedsCopies<K, V, S>(j: Job<K, V, S>, s: State<K, V, S>, cd: nat, md: nat)
    requires At(j, s, cd, md) && s.host.pc.Done? && s.host.copyQ == [] && s.host.computeQ != []
    ensures Enabled(s, ComputeStream)
  {
    ComputeSliceShrinks(j.N(), md, ComputeIssued(j.N(), s.host.pc));
    if s.host.computeQ[0].Wait? {
      DeviceContents(j, cd, s.host.computeQ[0].i);
    }
  }

  /** No deadlock: a run stops moving exactly when the answer is out and every copy is drained, and
      the answer is the sequential one. */
  lemma StuckIsFinished<K, V, S>(j: Job<K, V, S>, s: State<K, V, S>)
    requires Inv(j, s)
    ensures Stuck(s) <==> s.res.out.Some? && s.host.copyQ == []
    ensures s.res.out.Some? ==> s.res.out == Some(Value(Sequential(j, j.N())))
  {
    var cd: nat, md: nat :| At(j, s, cd, md);
    if Stuck(s) {
      assert !Enabled(s, HostProgram) && !Enabled(s, CopyStream) && !Enabled(s, ComputeStream);
      if s.host.computeQ != [] {
        BlockedNeedsCopies(j, s, cd, md);
      }
    }
    if s.res.out.Some? && s.host.copyQ == [] {
      assert md == 2 * j.N() + 2 && s.host.computeQ == [];
      forall a: Actor ensures !Enabled(s, a) {
      }
    }
  }
}
