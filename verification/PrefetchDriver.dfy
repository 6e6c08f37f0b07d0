/** The host program of the double-buffered step in its own imperative form, run against streams that
    advance on their own between any two of its calls. */
module PrefetchDriver {
  import opened Options
  import opened Prefetch
  import opened PrefetchProgress

  /** The two streams and everything they share with the host. `Drift` lets them run for as long as
      they like; every call of the host ends with it, so any interleaving is covered. */
  class Gpu<!K, !V, !S> {
    const job: Job<K, V, S>
    var copyQ: seq<CopyOp>
    var computeQ: seq<ComputeOp>
    var recorded: set<nat>
    var fired: set<nat>
    var devK: map<nat, K>
    var devV: map<nat, V>
    var res: Result<S>
    // Where the host program is, which of its list slots are full, and how far the streams have come.
    ghost var pc: Pc
    ghost var full: set<nat>
    ghost var copied: nat
    ghost var computed: nat

    ghost function HostView(): Host
      reads this
    {
      Host(pc, recorded, full, copyQ, computeQ)
    }

    ghost function View(): State<K, V, S>
      reads this
    {
      State(HostView(), Device(fired, devK, devV), res)
    }

    ghost predicate Valid()
      reads this
    {
      At(job, View(), copied, computed) && (job.guarded || job.N() > 0)
    }

    constructor (job: Job<K, V, S>)
      requires job.Valid() && (job.guarded || job.N() > 0)
      ensures Valid() && this.job == job && pc == Start && full == {}
    {
      this.job := job;
      copyQ, computeQ, recorded, fired := [], [], {}, {};
      devK, devV, res := map[], map[], Result(Empty, None);
      pc, full, copied, computed := Start, {}, 0, 0;
      new;
      InitInv(job);
    }

    /** What one copy-stream operation does to the device. */
    method Deliver(op: CopyOp)
      modifies this`fired, this`devK, this`devV
      ensures Device(fired, devK, devV) == Arrive(job, old(Device(fired, devK, devV)), op)
    {
      match op {
        case CopyK(i) => if i < |job.ks| { devK := devK[i := job.ks[i]]; }
        case CopyV(i) => if i < |job.vs| { devV := devV[i := job.vs[i]]; }
        case Record(i) => fired := fired + {i};
      }
    }

    /** The head of the copy queue is carried out. */
    method RunCopy()
      requires copyQ != []
      modifies this`copyQ, this`fired, this`devK, this`devV
      ensures View() == Step(job, old(View()), CopyStream)
    {
      var op := copyQ[0];
      Deliver(op);
      copyQ := copyQ[1..];
    }

    /** The head of the compute queue is carried out on what the device holds now. */
    method RunCompute()
      requires Enabled(View(), ComputeStream)
      modifies this`computeQ, this`res
      ensures View() == Step(job, old(View()), ComputeStream)
    {
      res := Compute(job, Device(fired, devK, devV), res, computeQ[0]);
      computeQ := computeQ[1..];
    }

    method CopyStreamStep()
      requires Valid() && copyQ != []
      modifies this`copyQ, this`fired, this`devK, this`devV, this`copied
      ensures Valid() && View() == Step(job, old(View()), CopyStream)
    {
      CopyPreserves(job, View(), copied, computed);
      RunCopy();
      copied := copied + 1;
    }

    method ComputeStreamStep()
      requires Valid() && Enabled(View(), ComputeStream)
      modifies this`computeQ, this`res, this`computed
      ensures Valid() && View() == Step(job, old(View()), ComputeStream)
    {
      ComputePreserves(job, View(), copied, computed);
      RunCompute();
      computed := computed + 1;
    }

    /** The streams make any number of moves, in any order. */
    method Drift()
      requires Valid()
      modifies this`copyQ, this`computeQ, this`fired, this`devK, this`devV, this`res, this`copied, this`computed
      ensures Valid()
    {
      while *
        invariant Valid()
        decreases |copyQ| + |computeQ|
      {
        if
        case copyQ != [] => CopyStreamStep();
        case computeQ != [] && (computeQ[0].Wait? && computeQ[0].armed ==> computeQ[0].i in fired) =>
          ComputeStreamStep();
        case true => break;
      }
    }

    /** Block until both queues are empty. It always returns: the compute stream is never stuck on an
        event that no pending copy will fire. */
    method Synchronize()
      requires Valid() && pc == Done
      modifies this`copyQ, this`computeQ, this`fired, this`devK, this`devV, this`res, this`copied, this`computed
      ensures Valid() && copyQ == [] && computeQ == []
    {
      while copyQ != [] || computeQ != []
        invariant Valid()
        decreases |copyQ| + |computeQ|
      {
        if copyQ == [] {
          BlockedNeedsCopies(job, View(), copied, computed);
        }
        if
        case copyQ != [] => CopyStreamStep();
        case computeQ != [] && (computeQ[0].Wait? && computeQ[0].armed ==> computeQ[0].i in fired) =>
          ComputeStreamStep();
      }
    }

    /** The host after its next call; making it keeps the invariant. */
    ghost function Planned(): (h: Host)
      requires Valid() && HostView().Running()
      reads this
      ensures HostAt(job.N(), h, copied, computed)
    {
      HostPreserves(job.N(), job.guarded, HostView(), copied, computed);
      HostStep(job.N(), job.guarded, HostView())
    }

    /** Merge the local KV: the first kernel of the step. */
    method EnqueueLocal()
      requires Valid() && pc == Start
      modifies this
      ensures Valid() && full == old(full) && pc == if job.N() > 0 then Issue(0, 0) else Top(0)
    {
      ghost var next := Planned();
      computeQ := computeQ + [MergeLocal];
      pc := if job.N() > 0 then Issue(0, 0) else Top(0);
      assert HostView() == next;
      Drift();
    }

    method EnqueueK(c: nat)
      requires Valid() && pc == Issue(c, 0)
      modifies this
      ensures Valid() && full == old(full) && pc == Issue(c, 1)
    {
      ghost var next := Planned();
      copyQ := copyQ + [CopyK(c)];
      pc := Issue(c, 1);
      assert HostView() == next;
      Drift();
    }

    method EnqueueV(c: nat)
      requires Valid() && pc == Issue(c, 1)
      modifies this
      ensures Valid() && full == old(full) + {c} && pc == Issue(c, 2)
    {
      ghost var next := Planned();
      copyQ := copyQ + [CopyV(c)];
      pc, full := Issue(c, 2), full + {c};
      assert HostView() == next;
      Drift();
    }

    method RecordEvent(c: nat)
      requires Valid() && pc == Issue(c, 2)
      modifies this
      ensures Valid() && full == old(full) && pc == if c == 0 then Top(0) else WaitAt(c - 1)
    {
      ghost var next := Planned();
      copyQ := copyQ + [Record(c)];
      recorded := recorded + {c};
      pc := if c == 0 then Top(0) else WaitAt(c - 1);
      assert HostView() == next;
      Drift();
    }

    method WaitEvent(i: nat)
      requires Valid() && pc == WaitAt(i)
      modifies this
      ensures Valid() && full == old(full) && pc == MergeAt(i) && i in full
    {
      ghost var next := Planned();
      computeQ := computeQ + [Wait(i, i in recorded)];
      pc := MergeAt(i);
      assert HostView() == next;
      ChunkIsThere(job.N(), next, copied, computed, ComputeIssued(job.N(), pc), i);
      Drift();
    }

    method EnqueueMerge(i: nat)
      requires Valid() && pc == MergeAt(i) && i in full
      modifies this
      ensures Valid() && full == old(full) && pc == ClearAt(i)
    {
      ghost var next := Planned();
      computeQ := computeQ + [Merge(i)];
      pc := ClearAt(i);
      assert HostView() == next;
      Drift();
    }

    method EnqueueDivide()
      requires Valid() && pc.Top? && pc.i == job.N()
      modifies this
      ensures Valid() && pc == Done
    {
      ghost var next := Planned();
      computeQ := computeQ + [Divide];
      pc := Done;
      assert HostView() == next;
      Drift();
    }

    /** Host bookkeeping that calls no stream: entering an iteration, and clearing a slot. */
    ghost method Advance()
      requires Valid() && (pc.ClearAt? || (pc.Top? && pc.i < job.N()))
      modifies this`pc, this`full
      ensures Valid()
      ensures old(pc).ClearAt? ==> full == old(full) - {old(pc).i} && pc == Top(old(pc).i + 1)
      ensures old(pc).Top? ==> full == old(full)
      ensures old(pc).Top? ==> pc == if old(pc).i + 1 < job.N() then Issue(old(pc).i + 1, 0) else WaitAt(old(pc).i)
    {
      var h := Planned();
      pc, full := h.pc, h.buf;
    }
  }

  datatype Outcome<S> = IndexError | Answer(s: S)

  predicate Mirrors(buf: seq<Option<nat>>, full: set<nat>) {
    forall i: nat {:trigger buf[i]} | i < |buf| :: (i in full <==> buf[i].Some?) && (buf[i].Some? ==> buf[i].value == i)
  }

  lemma MirrorsUpdate(buf: seq<Option<nat>>, full: set<nat>, i: nat)
    requires i < |buf| && Mirrors(buf, full)
    ensures Mirrors(buf[i := Some(i)], full + {i}) && Mirrors(buf[i := None], full - {i})
  {
  }

  /** Fetch chunk c on the copy stream, into its slot. */
  method FetchInto<K, V, S>(gpu: Gpu<K, V, S>, buf: seq<Option<nat>>, c: nat) returns (buf': seq<Option<nat>>)
    requires gpu.Valid() && gpu.pc == Issue(c, 0) && c < |buf| && Mirrors(buf, gpu.full)
    modifies gpu
    ensures gpu.Valid() && gpu.pc == (if c == 0 then Top(0) else WaitAt(c - 1))
    ensures |buf'| == |buf| && Mirrors(buf', gpu.full)
  {
    MirrorsUpdate(buf, gpu.full, c);
    gpu.EnqueueK(c);
    gpu.EnqueueV(c);
    gpu.RecordEvent(c);
    buf' := buf[c := Some(c)];
  }

  /** Entering iteration i: fetch chunk i + 1 if there is one. */
  method FetchAhead<K, V, S>(gpu: Gpu<K, V, S>, buf: seq<Option<nat>>, i: nat) returns (buf': seq<Option<nat>>)
    requires gpu.Valid() && gpu.pc == Top(i) && i < |buf| == gpu.job.N() && Mirrors(buf, gpu.full)
    modifies gpu
    ensures gpu.Valid() && gpu.pc == WaitAt(i) && |buf'| == |buf| && Mirrors(buf', gpu.full)
  {
    buf' := buf;
    gpu.Advance();
    if i + 1 < |buf| {
      buf' := FetchInto(gpu, buf, i + 1);
    }
  }

  /** The rest of iteration i: wait for chunk i alone, merge it, drop its slot. */
  method Consume<K, V, S>(gpu: Gpu<K, V, S>, buf: seq<Option<nat>>, i: nat) returns (buf': seq<Option<nat>>)
    requires gpu.Valid() && gpu.pc == WaitAt(i) && i < |buf| == gpu.job.N() && Mirrors(buf, gpu.full)
    modifies gpu
    ensures gpu.Valid() && gpu.pc == Top(i + 1) && |buf'| == |buf| && Mirrors(buf', gpu.full)
  {
    gpu.WaitEvent(i);
    gpu.EnqueueMerge(buf[i].value);
    MirrorsUpdate(buf, gpu.full, i);
    gpu.Advance();
    buf' := buf[i := None];
  }

  /** Before the loop: merge the local KV and fetch the first chunk if there is one. */
  method Prime<K, V, S>(gpu: Gpu<K, V, S>) returns (buf: seq<Option<nat>>)
    requires gpu.Valid() && gpu.pc == Start && gpu.full == {}
    modifies gpu
    ensures gpu.Valid() && gpu.pc == Top(0) && |buf| == gpu.job.N() && Mirrors(buf, gpu.full)
  {
    gpu.EnqueueLocal();
    buf := seq(gpu.job.N(), _ => None);
    if gpu.job.N() > 0 {
      buf := FetchInto(gpu, buf, 0);
    }
  }

  /** Read the answer once the device is idle. */
  method Finish<K, V, S>(gpu: Gpu<K, V, S>) returns (s: S)
    requires gpu.Valid() && gpu.pc == Done
    modifies gpu
    ensures gpu.job.Valid() && s == Sequential(gpu.job, gpu.job.N())
  {
    gpu.Synchronize();
    StuckIsFinished(gpu.job, gpu.View());
    forall a: Actor ensures !Enabled(gpu.View(), a) {
    }
    s := gpu.res.out.value.s;
  }

  /** The whole step. For every behaviour of the two streams it returns what the sequential step
      returns; an empty spill list without the early return raises instead. */
  method StepPrefetch<K, V, S>(job: Job<K, V, S>) returns (r: Outcome<S>)
    requires job.Valid()
    ensures r == if job.guarded || job.N() > 0 then Answer(Sequential(job, job.N())) else IndexError
  {
    var n := job.N();
    if n == 0 && !job.guarded {
      return IndexError;
    }
    var gpu := new Gpu<K, V, S>(job);
    var buf := Prime(gpu);
    for i := 0 to n
      invariant gpu.Valid() && gpu.pc == Top(i)
      invariant |buf| == n && Mirrors(buf, gpu.full)
    {
      buf := FetchAhead(gpu, buf, i);
      buf := Consume(gpu, buf, i);
    }
    gpu.EnqueueDivide();
    var s := Finish(gpu);
    r := Answer(s);
  }
}
