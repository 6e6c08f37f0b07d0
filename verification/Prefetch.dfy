/** The double-buffered decode step as a protocol between three parties: the host, which only
    enqueues; the copy stream; and the compute stream. Streams run their own queues in order,
    asynchronously to everything else, and meet only through events.

    The pipeline is generic in what is merged: `Job` carries the chunks, the accumulator after the
    local KV, and the merge. */
module Prefetch {
  import opened Options

  /** `guarded` tells whether the host returns early when there is no spilled chunk; without the
      guard, filling buffer slot 0 of an empty list raises. */
  datatype Job<!K, !V, !S> = Job(ks: seq<K>, vs: seq<V>, init: S, merge: (S, K, V) -> S, guarded: bool) {
    predicate Valid() {
      |ks| == |vs|
    }

    function N(): nat {
      |ks|
    }
  }

  datatype CopyOp = CopyK(i: nat) | CopyV(i: nat) | Record(i: nat)

  /** A wait is armed when its event had been recorded by the time the wait was enqueued; otherwise
      it is a no-op. A merge owns the chunk handle, so clearing the buffer slot cannot disturb it. */
  datatype ComputeOp = MergeLocal | Wait(i: nat, armed: bool) | Merge(i: nat) | Divide

  /** Where the host is. `Issue(c, k)` is the k-th call that fetches chunk c: K, V, record. */
  datatype Pc =
    | Start
    | Issue(c: nat, k: nat)
    | Top(i: nat)
    | WaitAt(i: nat)
    | MergeAt(i: nat)
    | ClearAt(i: nat)
    | Done
    | Crashed

  /** What the copy stream has done: events fired, and chunks that have arrived on the device. */
  datatype Device<K, V> = Device(fired: set<nat>, k: map<nat, K>, v: map<nat, V>)

  /** What the accumulator holds; merging a chunk that has not arrived yields garbage. */
  datatype Acc<S> = Empty | Value(s: S) | Garbage

  datatype Result<S> = Result(acc: Acc<S>, out: Option<Acc<S>>)

  /** The host and its two queues: where it is, the events it has enqueued a record for, the list
      slots that are not None, and what is enqueued but not yet executed. */
  datatype Host = Host(pc: Pc, recorded: set<nat>, buf: set<nat>, copyQ: seq<CopyOp>, computeQ: seq<ComputeOp>) {
    predicate Running() {
      !pc.Done? && !pc.Crashed?
    }
  }

  datatype State<K, V, S> = State(host: Host, dev: Device<K, V>, res: Result<S>)

  datatype Actor = HostProgram | CopyStream | ComputeStream

  function Init<K, V, S>(): State<K, V, S> {
    State(Host(Start, {}, {}, [], []), Device({}, map[], map[]), Result(Empty, None))
  }

  // ---------------------------------------------------------------- transitions

  predicate Enabled<K, V, S>(s: State<K, V, S>, a: Actor) {
    match a
    case HostProgram => s.host.Running()
    case CopyStream => s.host.copyQ != []
    case ComputeStream =>
      var q := s.host.computeQ;
      q != [] && (q[0].Wait? && q[0].armed ==> q[0].i in s.dev.fired)
  }

  /** One call of the host program, for `n` chunks. */
  function HostStep(n: nat, guarded: bool, h: Host): Host
    requires h.Running()
  {
    match h.pc
    case Start =>
      h.(computeQ := h.computeQ + [MergeLocal],
         pc := if n > 0 then Issue(0, 0) else if guarded then Top(0) else Crashed)
    case Issue(c, k) =>
      if k == 0 then h.(copyQ := h.copyQ + [CopyK(c)], pc := Issue(c, 1))
      else if k == 1 then h.(copyQ := h.copyQ + [CopyV(c)], buf := h.buf + {c}, pc := Issue(c, 2))
      else h.(copyQ := h.copyQ + [Record(c)], recorded := h.recorded + {c},
              pc := if c == 0 then Top(0) else WaitAt(c - 1))
    case Top(i) =>
      if i >= n then h.(computeQ := h.computeQ + [Divide], pc := Done)
      else h.(pc := if i + 1 < n then Issue(i + 1, 0) else WaitAt(i))
    case WaitAt(i) =>
      h.(computeQ := h.computeQ + [Wait(i, i in h.recorded)], pc := MergeAt(i))
    case MergeAt(i) =>
      if i in h.buf then h.(computeQ := h.computeQ + [Merge(i)], pc := ClearAt(i)) else h.(pc := Crashed)
    case ClearAt(i) =>
      h.(buf := h.buf - {i}, pc := Top(i + 1))
  }

  /** One operation of the copy stream. */
  function Arrive<K, V, S>(j: Job<K, V, S>, d: Device<K, V>, op: CopyOp): Device<K, V> {
    match op
    case CopyK(i) => if i < |j.ks| then d.(k := d.k[i := j.ks[i]]) else d
    case CopyV(i) => if i < |j.vs| then d.(v := d.v[i := j.vs[i]]) else d
    case Record(i) => d.(fired := d.fired + {i})
  }

  /** One operation of the compute stream, reading whatever the device holds at that moment. */
  function Compute<K, V, S>(j: Job<K, V, S>, d: Device<K, V>, r: Result<S>, op: ComputeOp): Result<S> {
    match op
    case MergeLocal => r.(acc := Value(j.init))
    case Wait(_, _) => r
    case Merge(i) =>
      r.(acc := if r.acc.Value? && i in d.k && i in d.v then Value(j.merge(r.acc.s, d.k[i], d.v[i])) else Garbage)
    case Divide => r.(out := Some(r.acc))
  }

  function Step<K, V, S>(j: Job<K, V, S>, s: State<K, V, S>, a: Actor): State<K, V, S> {
    if !Enabled(s, a) then s
    else match a
      case HostProgram => s.(host := HostStep(j.N(), j.guarded, s.host))
      case CopyStream =>
        var q := s.host.copyQ;
        s.(host := s.host.(copyQ := q[1..]), dev := Arrive(j, s.dev, q[0]))
      case ComputeStream =>
        var q := s.host.computeQ;
        s.(host := s.host.(computeQ := q[1..]), res := Compute(j, s.dev, s.res, q[0]))
  }

  /** A schedule names who moves next; a party that cannot move loses its turn. */
  function Exec<K, V, S>(j: Job<K, V, S>, schedule: seq<Actor>): State<K, V, S> {
    if schedule == [] then Init()
    else Step(j, Exec(j, schedule[..|schedule| - 1]), schedule[|schedule| - 1])
  }

  // ---------------------------------------------------------------- the sequential meaning

  /** The accumulator of the step without prefetch, after the local KV and `n` chunks. */
  function Sequential<K, V, S>(j: Job<K, V, S>, n: nat): S
    requires j.Valid() && n <= j.N()
  {
    if n == 0 then j.init else j.merge(Sequential(j, n - 1), j.ks[n - 1], j.vs[n - 1])
  }

  // ---------------------------------------------------------------- progress counters

  /** The p-th operation the host ever puts on the copy stream, and on the compute stream. */
  function CopyOpAt(p: nat): CopyOp {
    if p % 3 == 0 then CopyK(p / 3) else if p % 3 == 1 then CopyV(p / 3) else Record(p / 3)
  }

  function ComputeOpAt(n: nat, p: nat): ComputeOp {
    if p == 0 then MergeLocal
    else if p > 2 * n then Divide
    else if p % 2 == 1 then Wait(p / 2, true)
    else Merge(p / 2 - 1)
  }

  /** Operations a..b of each list. */
  function CopySlice(a: nat, b: nat): (q: seq<CopyOp>)
    ensures a <= b ==> |q| == b - a
  {
    if b <= a then [] else CopySlice(a, b - 1) + [CopyOpAt(b - 1)]
  }

  function ComputeSlice(n: nat, a: nat, b: nat): (q: seq<ComputeOp>)
    ensures a <= b ==> |q| == b - a
  {
    if b <= a then [] else ComputeSlice(n, a, b - 1) + [ComputeOpAt(n, b - 1)]
  }

  lemma {:induction false} CopySliceShrinks(a: nat, b: nat)
    requires a < b
    ensures CopySlice(a, b)[0] == CopyOpAt(a) && CopySlice(a, b)[1..] == CopySlice(a + 1, b)
  {
    if a + 1 < b {
      CopySliceShrinks(a, b - 1);
    }
  }

  lemma {:induction false} ComputeSliceShrinks(n: nat, a: nat, b: nat)
    requires a < b
    ensures ComputeSlice(n, a, b)[0] == ComputeOpAt(n, a)
    ensures ComputeSlice(n, a, b)[1..] == ComputeSlice(n, a + 1, b)
  {
    if a + 1 < b {
      ComputeSliceShrinks(n, a, b - 1);
    }
  }

  predicate InRange(n: nat, pc: Pc) {
    match pc
    case Issue(c, k) => c < n && k < 3
    case Top(i) => i <= n
    case WaitAt(i) => i < n
    case MergeAt(i) => i < n
    case ClearAt(i) => i < n
    case Crashed => false
    case _ => true
  }

  /** How many operations the host has enqueued on each stream, and how many slots it has cleared. */
  function CopyIssued(n: nat, pc: Pc): nat {
    match pc
    case Issue(c, k) => 3 * c + k
    case Top(i) => if i < n then 3 * i + 3 else 3 * n
    case WaitAt(i) => Ahead(n, i)
    case MergeAt(i) => Ahead(n, i)
    case ClearAt(i) => Ahead(n, i)
    case Done => 3 * n
    case _ => 0
  }

  /** While chunk i is consumed, the copies of chunk i + 1 have been issued, if there is one. */
  function Ahead(n: nat, i: nat): nat {
    if i + 1 < n then 3 * i + 6 else 3 * n
  }

  function ComputeIssued(n: nat, pc: Pc): nat {
    match pc
    case Issue(c, _) => if c == 0 then 1 else 2 * c - 1
    case Top(i) => 2 * i + 1
    case WaitAt(i) => 2 * i + 1
    case MergeAt(i) => 2 * i + 2
    case ClearAt(i) => 2 * i + 3
    case Done => 2 * n + 2
    case _ => 0
  }

  function Cleared(n: nat, pc: Pc): nat {
    match pc
    case Issue(c, _) => if c == 0 then 0 else c - 1
    case Top(i) => i
    case WaitAt(i) => i
    case MergeAt(i) => i
    case ClearAt(i) => i
    case Done => n
    case _ => 0
  }

  // ---------------------------------------------------------------- invariant

  function Range(a: nat, b: nat): set<nat> {
    if b <= a then {} else Range(a, b - 1) + {b - 1}
  }

  lemma {:induction false} RangeMember(a: nat, b: nat, e: nat)
    ensures e in Range(a, b) <==> a <= e < b
  {
    if a < b {
      RangeMember(a, b - 1, e);
    }
  }

  lemma RangeShrinks(a: nat, b: nat)
    requires a < b
    ensures Range(a, b) - {a} == Range(a + 1, b)
  {
    forall e: nat ensures e in Range(a, b) - {a} <==> e in Range(a + 1, b) {
      RangeMember(a, b, e);
      RangeMember(a + 1, b, e);
    }
  }

  /** The device after the first `d` copy-stream operations. */
  function DeviceAfter<K, V, S>(j: Job<K, V, S>, d: nat): Device<K, V> {
    if d == 0 then Device({}, map[], map[]) else Arrive(j, DeviceAfter(j, d - 1), CopyOpAt(d - 1))
  }

  /** An event fires only after both halves of its chunk have arrived, intact. */
  lemma {:induction false} DeviceContents<K, V, S>(j: Job<K, V, S>, d: nat, e: nat)
    requires j.Valid() && d <= 3 * j.N()
    ensures var dev := DeviceAfter(j, d);
      && (e in dev.fired <==> e < d / 3)
      && (e < (d + 2) / 3 ==> e in dev.k && dev.k[e] == j.ks[e])
      && (e < (d + 1) / 3 ==> e in dev.v && dev.v[e] == j.vs[e])
  {
    if d > 0 {
      DeviceContents(j, d - 1, e);
    }
  }

  /** The accumulator and the answer after the first `d` compute-stream operations. */
  function ResultAfter<K, V, S>(j: Job<K, V, S>, d: nat): Result<S>
    requires j.Valid() && d <= 2 * j.N() + 2
  {
    if d == 0 then Result(Empty, None)
    else
      var acc := Value(Sequential(j, (d - 1) / 2));
      Result(acc, if d == 2 * j.N() + 2 then Some(acc) else None)
  }

  /** How many waits are among the first `d` compute-stream operations. */
  function WaitsIn(n: nat, d: nat): nat {
    if d / 2 < n then d / 2 else n
  }

  /** The host once it has issued `ci` copy operations and `mi` compute operations and cleared `cl`
      slots, of which the streams have executed `cd` and `md`. */
  ghost predicate Issued(n: nat, h: Host, cd: nat, ci: nat, md: nat, mi: nat, cl: nat) {
    && cd <= ci <= 3 * n && md <= mi <= 2 * n + 2
    && h.copyQ == CopySlice(cd, ci) && h.computeQ == ComputeSlice(n, md, mi)
    && h.recorded == Range(0, ci / 3) && h.buf == Range(cl, (ci + 1) / 3)
  }

  /** The queues hold exactly what the host's position says is issued and not yet executed; in
      particular every wait was armed when it was enqueued. */
  ghost predicate HostAt(n: nat, h: Host, cd: nat, md: nat) {
    InRange(n, h.pc) && Issued(n, h, cd, CopyIssued(n, h.pc), md, ComputeIssued(n, h.pc), Cleared(n, h.pc))
  }

  /** The streams' own effects, and their one synchronisation: compute has passed only fired events. */
  ghost predicate StreamsAt<K, V, S>(j: Job<K, V, S>, dev: Device<K, V>, res: Result<S>, cd: nat, md: nat) {
    && j.Valid() && cd <= 3 * j.N() && md <= 2 * j.N() + 2
    && dev == DeviceAfter(j, cd) && res == ResultAfter(j, md)
    && WaitsIn(j.N(), md) <= cd / 3
  }

  ghost predicate At<K, V, S>(j: Job<K, V, S>, s: State<K, V, S>, cd: nat, md: nat) {
    HostAt(j.N(), s.host, cd, md) && StreamsAt(j, s.dev, s.res, cd, md)
  }

  ghost predicate Inv<K, V, S>(j: Job<K, V, S>, s: State<K, V, S>) {
    exists cd: nat, md: nat :: At(j, s, cd, md)
  }

  lemma InitInv<K, V, S>(j: Job<K, V, S>)
    requires j.Valid()
    ensures At(j, Init<K, V, S>(), 0, 0)
  {
  }

  /** The three calls that fetch a chunk each put the next operation on the copy stream. */
  lemma IssueNext(n: nat, guarded: bool, h: Host, cd: nat, ci: nat, md: nat, mi: nat, cl: nat)
    requires Issued(n, h, cd, ci, md, mi, cl) && h.pc.Issue? && h.pc.k < 3 && h.pc.c < n
    requires ci == 3 * h.pc.c + h.pc.k && cl <= h.pc.c
    ensures Issued(n, HostStep(n, guarded, h), cd, ci + 1, md, mi, cl)
  {
    var c, k := h.pc.c, h.pc.k;
    assert ci / 3 == c && ci % 3 == k && (ci + 1) / 3 == (if k == 2 then c + 1 else c);
    assert (ci + 2) / 3 == if k == 0 then c else c + 1;
  }

  lemma IssueCounters(n: nat, guarded: bool, h: Host)
    requires InRange(n, h.pc) && h.pc.Issue?
    ensures var pc := HostStep(n, guarded, h).pc;
      && InRange(n, pc) && CopyIssued(n, pc) == CopyIssued(n, h.pc) + 1
      && ComputeIssued(n, pc) == ComputeIssued(n, h.pc) && Cleared(n, pc) == Cleared(n, h.pc)
  {
  }

  lemma IssuePreserves(n: nat, guarded: bool, h: Host, cd: nat, md: nat)
    requires HostAt(n, h, cd, md) && h.pc.Issue?
    ensures HostAt(n, HostStep(n, guarded, h), cd, md)
  {
    IssueCounters(n, guarded, h);
    IssueNext(n, guarded, h, cd, CopyIssued(n, h.pc), md, ComputeIssued(n, h.pc), Cleared(n, h.pc));
  }

  lemma TopCounters(n: nat, guarded: bool, h: Host)
    requires InRange(n, h.pc) && h.pc.Top?
    ensures var pc := HostStep(n, guarded, h).pc;
      && InRange(n, pc) && CopyIssued(n, pc) == CopyIssued(n, h.pc) && Cleared(n, pc) == Cleared(n, h.pc)
      && ComputeIssued(n, pc) == ComputeIssued(n, h.pc) + if h.pc.i == n then 1 else 0
  {
  }

  /** Whatever the host puts on the compute stream, the list of issued operations grows by it as long as
      it is the next one. */
  lemma EnqueueNext(n: nat, h: Host, cd: nat, ci: nat, md: nat, mi: nat, cl: nat, op: ComputeOp, pc: Pc)
    requires Issued(n, h, cd, ci, md, mi, cl) && mi < 2 * n + 2 && op == ComputeOpAt(n, mi)
    ensures Issued(n, h.(computeQ := h.computeQ + [op], pc := pc), cd, ci, md, mi + 1, cl)
  {
    assert ComputeSlice(n, md, mi + 1) == ComputeSlice(n, md, mi) + [op];
  }

  lemma TopPreserves(n: nat, guarded: bool, h: Host, cd: nat, md: nat)
    requires HostAt(n, h, cd, md) && h.pc.Top?
    ensures HostAt(n, HostStep(n, guarded, h), cd, md)
  {
    TopCounters(n, guarded, h);
    if h.pc.i == n {
      EnqueueNext(n, h, cd, CopyIssued(n, h.pc), md, 2 * n + 1, Cleared(n, h.pc), Divide, Done);
    }
  }

  lemma OpsOf(n: nat, i: nat)
    ensures i < n ==> ComputeOpAt(n, 2 * i + 1) == Wait(i, true) && ComputeOpAt(n, 2 * i + 2) == Merge(i)
  {
  }

  /** While chunk i is consumed its record has been issued and its slot is full. */
  lemma ChunkIsThere(n: nat, h: Host, cd: nat, md: nat, mi: nat, i: nat)
    requires i < n && Issued(n, h, cd, Ahead(n, i), md, mi, i)
    ensures i in h.recorded && i in h.buf
  {
    RangeMember(0, Ahead(n, i) / 3, i);
    RangeMember(i, (Ahead(n, i) + 1) / 3, i);
  }

  /** A wait or a merge only appends to the compute stream, and what it appends is the next operation:
      the wait is armed, and the slot being merged is full. */
  lemma EnqueueCounters(n: nat, guarded: bool, h: Host, cd: nat, md: nat) returns (op: ComputeOp, pc: Pc)
    requires HostAt(n, h, cd, md) && (h.pc.WaitAt? || h.pc.MergeAt?)
    ensures HostStep(n, guarded, h) == h.(computeQ := h.computeQ + [op], pc := pc)
    ensures InRange(n, pc) && CopyIssued(n, pc) == CopyIssued(n, h.pc) && Cleared(n, pc) == Cleared(n, h.pc)
    ensures ComputeIssued(n, pc) == ComputeIssued(n, h.pc) + 1 <= 2 * n + 2
    ensures op == ComputeOpAt(n, ComputeIssued(n, h.pc))
  {
    var i := h.pc.i;
    OpsOf(n, i);
    ChunkIsThere(n, h, cd, md, ComputeIssued(n, h.pc), i);
    if h.pc.WaitAt? {
      op, pc := Wait(i, true), MergeAt(i);
    } else {
      op, pc := Merge(i), ClearAt(i);
    }
  }

  lemma EnqueuePreserves(n: nat, guarded: bool, h: Host, cd: nat, md: nat)
    requires HostAt(n, h, cd, md) && (h.pc.WaitAt? || h.pc.MergeAt?)
    ensures HostAt(n, HostStep(n, guarded, h), cd, md)
  {
    var op, pc := EnqueueCounters(n, guarded, h, cd, md);
    EnqueueNext(n, h, cd, CopyIssued(n, h.pc), md, ComputeIssued(n, h.pc), Cleared(n, h.pc), op, pc);
  }

  lemma ClearPreserves(n: nat, guarded: bool, h: Host, cd: nat, md: nat)
    requires HostAt(n, h, cd, md) && h.pc.ClearAt?
    ensures HostAt(n, HostStep(n, guarded, h), cd, md)
  {
    RangeShrinks(h.pc.i, (CopyIssued(n, h.pc) + 1) / 3);
  }

  lemma HostPreserves(n: nat, guarded: bool, h: Host, cd: nat, md: nat)
    requires HostAt(n, h, cd, md) && h.Running() && (guarded || n > 0)
    ensures HostAt(n, HostStep(n, guarded, h), cd, md)
  {
    match h.pc
    case Start =>
    case Top(_) => TopPreserves(n, guarded, h, cd, md);
    case Issue(_, _) => IssuePreserves(n, guarded, h, cd, md);
    case ClearAt(_) => ClearPreserves(n, guarded, h, cd, md);
    case _ => EnqueuePreserves(n, guarded, h, cd, md);
  }

  lemma CopyPreserves<K, V, S>(j: Job<K, V, S>, s: State<K, V, S>, cd: nat, md: nat)
    requires At(j, s, cd, md) && Enabled(s, CopyStream)
    ensures At(j, Step(j, s, CopyStream), cd + 1, md)
  {
    CopySliceShrinks(cd, CopyIssued(j.N(), s.host.pc));
  }

  /** Merge i finds chunk i on the device because its wait came first. */
  lemma ComputeOneStep<K, V, S>(j: Job<K, V, S>, cd: nat, md: nat)
    requires j.Valid() && cd <= 3 * j.N() && md < 2 * j.N() + 2 && WaitsIn(j.N(), md) <= cd / 3
    ensures Compute(j, DeviceAfter(j, cd), ResultAfter(j, md), ComputeOpAt(j.N(), md)) == ResultAfter(j, md + 1)
  {
    if ComputeOpAt(j.N(), md).Merge? {
      DeviceContents(j, cd, md / 2 - 1);
    }
  }

  /** Passing a wait means its event has fired, which is what the next merge will rely on. */
  lemma WaitPassed<K, V, S>(j: Job<K, V, S>, cd: nat, md: nat)
    requires j.Valid() && cd <= 3 * j.N() && md < 2 * j.N() + 2 && WaitsIn(j.N(), md) <= cd / 3
    requires var op := ComputeOpAt(j.N(), md); op.Wait? ==> op.i in DeviceAfter(j, cd).fired
    ensures WaitsIn(j.N(), md + 1) <= cd / 3
  {
    if ComputeOpAt(j.N(), md).Wait? {
      DeviceContents(j, cd, md / 2);
    }
  }

  lemma ComputePreserves<K, V, S>(j: Job<K, V, S>, s: State<K, V, S>, cd: nat, md: nat)
    requires At(j, s, cd, md) && Enabled(s, ComputeStream)
    ensures At(j, Step(j, s, ComputeStream), cd, md + 1)
  {
    ComputeSliceShrinks(j.N(), md, ComputeIssued(j.N(), s.host.pc));
    ComputeOneStep(j, cd, md);
    WaitPassed(j, cd, md);
  }

  lemma StepPreserves<K, V, S>(j: Job<K, V, S>, s: State<K, V, S>, a: Actor)
    requires Inv(j, s) && (j.guarded || j.N() > 0)
    ensures Inv(j, Step(j, s, a))
  {
    var cd: nat, md: nat :| At(j, s, cd, md);
    if Enabled(s, a) {
      match a
      case HostProgram =>
        HostPreserves(j.N(), j.guarded, s.host, cd, md);
        assert At(j, Step(j, s, a), cd, md);
      case CopyStream => CopyPreserves(j, s, cd, md);
      case ComputeStream => ComputePreserves(j, s, cd, md);
    }
  }

  /** Whatever the interleaving, a run never leaves the invariant. */
  lemma {:induction false} ExecInv<K, V, S>(j: Job<K, V, S>, schedule: seq<Actor>)
    requires j.Valid() && (j.guarded || j.N() > 0)
    ensures Inv(j, Exec(j, schedule))
  {
    if schedule == [] {
      InitInv(j);
    } else {
      ExecInv(j, schedule[..|schedule| - 1]);
      StepPreserves(j, Exec(j, schedule[..|schedule| - 1]), schedule[|schedule| - 1]);
    }
  }
}
