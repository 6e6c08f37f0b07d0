/** One transfer as a rate-paced train of chunks. The rate is re-read before every gap, cancellation
    lands at chunk boundaries, and the pacing clock is handed from one transfer to the next. */
module Pacer {
  import opened Arithmetic
  import opened Options

  /** What the rate callback returns, in GB/s. Anything but a positive finite rate means no gap. */
  datatype Rate = Finite(gbs: real) | Infinite

  /** A chunk handed to the stream, and the rate then in force (Infinite for an unpaced copy). */
  datatype Launch = Launch(time: real, bytes: nat, rate: Rate) {
    /** The gap that rate asks for after the chunk. */
    function Hold(): (p: real)
      ensures p >= 0.0
    {
      Period(bytes, rate)
    }
  }

  datatype CopyResult = CopyResult(nbytes: nat, nChunks: nat, cancelled: bool, chunksLaunched: nat,
                                   bytesLaunched: nat, nextDueFinal: real)

  /** The rate asks for a gap. */
  predicate Pacing(rate: Rate) {
    rate.Finite? && rate.gbs > 0.0
  }

  function Period(bytes: nat, rate: Rate): (p: real)
    ensures p >= 0.0
  {
    if Pacing(rate) then bytes as real / (rate.gbs * 1000000000.0) else 0.0
  }

  function Max(a: real, b: real): real {
    if a < b then b else a
  }

  // ---------------------------------------------------------------- pacing

  /** No chunk is launched before the period of the one before it has passed. */
  ghost predicate Spaced(ls: seq<Launch>) {
    forall i :: 0 < i < |ls| ==> ls[i - 1].time + ls[i - 1].Hold() <= ls[i].time
  }

  ghost predicate NoneBefore(ls: seq<Launch>, t: real) {
    forall i :: 0 <= i < |ls| ==> t <= ls[i].time
  }

  /** Nothing launched so far still occupies time t. */
  ghost predicate ClearBy(ls: seq<Launch>, t: real) {
    ls != [] ==> ls[|ls| - 1].time + ls[|ls| - 1].Hold() <= t
  }

  /** What pacing promises of the launches so far: none early, and when paced, spaced and done by u. */
  ghost predicate Timed(ls: seq<Launch>, earliest: real, unpaced: bool, u: real) {
    NoneBefore(ls, earliest) && (!unpaced ==> Spaced(ls) && ClearBy(ls, u))
  }

  lemma TimedLater(ls: seq<Launch>, earliest: real, unpaced: bool, t: real, u: real)
    ensures Timed(ls, earliest, unpaced, t) && t <= u ==> Timed(ls, earliest, unpaced, u)
  {
  }

  /** The earliest a transfer begun at `now` may launch: not before the clock it was handed. */
  function Earliest(nextDue0: Option<real>, unpaced: bool, now: real): real {
    if nextDue0.Some? && !unpaced then Max(now, nextDue0.value) else now
  }

  lemma Joined(a: seq<Launch>, b: seq<Launch>, t: real, u: real)
    requires Spaced(a) && Spaced(b) && ClearBy(a, t) && NoneBefore(b, t) && ClearBy(b, u) && t <= u
    ensures Spaced(a + b) && ClearBy(a + b, u)
  {
    var c := a + b;
    forall i | 0 < i < |c| ensures c[i - 1].time + c[i - 1].Hold() <= c[i].time {
      if i > |a| {
        assert c[i - 1] == b[i - 1 - |a|] && c[i] == b[i - |a|];
      } else if i == |a| {
        assert c[i - 1] == a[|a| - 1] && c[i] == b[0];
      }
    }
    if b != [] {
      assert c[|c| - 1] == b[|b| - 1];
    } else {
      assert c == a;
    }
  }

  function Periods(ls: seq<Launch>): real {
    if ls == [] then 0.0 else Periods(ls[..|ls| - 1]) + ls[|ls| - 1].Hold()
  }

  function Bytes(ls: seq<Launch>): nat {
    if ls == [] then 0 else Bytes(ls[..|ls| - 1]) + ls[|ls| - 1].bytes
  }

  lemma {:induction false} ElapsedCoversPeriods(ls: seq<Launch>, i: nat, j: nat)
    requires Spaced(ls) && i <= j < |ls|
    ensures Periods(ls[i..j]) <= ls[j].time - ls[i].time
  {
    if i < j {
      ElapsedCoversPeriods(ls, i, j - 1);
      assert ls[i..j][..j - 1 - i] == ls[i..j - 1];
      assert ls[i..j][j - 1 - i] == ls[j - 1];
    }
  }

  /** The rate in force always asked for a gap and never exceeded `cap`. */
  ghost predicate Leased(ls: seq<Launch>, cap: real) {
    forall i :: 0 <= i < |ls| ==> ls[i].rate.Finite? && 0.0 < ls[i].rate.gbs <= cap
  }

  /** What a rate of `cap` GB/s may carry in time t. */
  function Quota(cap: real, t: real): real {
    1000000000.0 * (cap * t)
  }

  lemma QuotaGrows(cap: real, t: real, u: real)
    requires cap >= 0.0 && t <= u
    ensures Quota(cap, t) <= Quota(cap, u)
  {
    assert cap * (u - t) >= 0.0;
  }

  lemma QuotaAdds(cap: real, t: real, u: real)
    ensures Quota(cap, t + u) == Quota(cap, t) + Quota(cap, u)
  {
  }

  /** The period of a chunk is exactly the time its bytes take at the rate. */
  lemma PeriodIsExact(bytes: nat, rate: Rate)
    requires Pacing(rate)
    ensures Quota(rate.gbs, Period(bytes, rate)) == bytes as real
  {
    var p := Period(bytes, rate);
    assert p * (rate.gbs * 1000000000.0) == bytes as real;
    assert 1000000000.0 * (p * rate.gbs) == bytes as real;
  }

  lemma PeriodIsLeased(l: Launch, cap: real)
    requires l.rate.Finite? && 0.0 < l.rate.gbs <= cap
    ensures l.bytes as real <= Quota(cap, l.Hold())
  {
    PeriodIsExact(l.bytes, l.rate);
    MulMonoReal(l.rate.gbs, cap, l.Hold());
  }

  lemma {:induction false} BytesWithinPeriods(ls: seq<Launch>, cap: real)
    requires Leased(ls, cap)
    ensures Bytes(ls) as real <= Quota(cap, Periods(ls))
  {
    if ls != [] {
      var p, l := ls[..|ls| - 1], ls[|ls| - 1];
      BytesWithinPeriods(p, cap);
      PeriodIsLeased(l, cap);
      QuotaAdds(cap, Periods(p), l.Hold());
    }
  }

  /** Over every window from one launch to a later one, however the rate moved below the cap, the bytes
      launched before its end are at most cap times its length. */
  lemma WindowNeverExceedsLease(ls: seq<Launch>, i: nat, j: nat, cap: real)
    requires Spaced(ls) && cap > 0.0 && Leased(ls, cap) && i <= j < |ls|
    ensures Bytes(ls[i..j]) as real <= Quota(cap, ls[j].time - ls[i].time)
  {
    BytesWithinPeriods(ls[i..j], cap);
    ElapsedCoversPeriods(ls, i, j);
    QuotaGrows(cap, Periods(ls[i..j]), ls[j].time - ls[i].time);
  }

  /** A window shorter than a chunk's period that begins with that chunk carries no other chunk. */
  lemma {:induction false} OneChunkPerPeriod(ls: seq<Launch>, i: nat, j: nat)
    requires Spaced(ls) && i < j < |ls|
    ensures ls[i].time + ls[i].Hold() <= ls[j].time
  {
    if i + 1 < j {
      OneChunkPerPeriod(ls, i, j - 1);
    }
  }

  /** The pacing clock after a launch: if the rate asks for a gap, one period after the later of the clock
      before it and the time at which the rate was read; otherwise where it was. */
  predicate Due(due: real, next: real, l: Launch, now: real) {
    l.time <= now &&
    if Pacing(l.rate) then Max(l.time, due) + l.Hold() <= next <= Max(now, due) + l.Hold() else next == due
  }

  /** How far the launches may have moved the pacing clock: no further than their periods from the later
      of where it was and the time now. */
  predicate Advanced(due0: real, due: real, ls: seq<Launch>, now: real) {
    due0 <= due <= Max(due0, now) + Periods(ls)
  }

  lemma DueAdvances(due0: real, due: real, next: real, ls: seq<Launch>, l: Launch, before: real, now: real)
    requires Advanced(due0, due, ls, before) && before <= now && Due(due, next, l, now)
    ensures Advanced(due0, next, ls + [l], now) && l.time + l.Hold() <= Max(next, now)
  {
    PeriodsNonNegative(ls);
    assert (ls + [l])[..|ls|] == ls;
  }

  lemma {:induction false} PeriodsNonNegative(ls: seq<Launch>)
    ensures Periods(ls) >= 0.0
  {
    if ls != [] {
      PeriodsNonNegative(ls[..|ls| - 1]);
    }
  }

  // ---------------------------------------------------------------- chunks

  function ChunkElements(chunkBytes: int, elSize: nat): (c: nat)
    requires elSize > 0
    ensures c >= 1 && (if chunkBytes >= elSize then c * elSize <= chunkBytes < (c + 1) * elSize else c == 1)
  {
    if chunkBytes >= elSize then chunkBytes / elSize else 1
  }

  function Size(elements: nat, elSize: nat): nat {
    elements * elSize
  }

  /** Elements covered by the first k chunks of c elements out of n. */
  function Covered(k: nat, c: nat, n: nat): nat {
    if k * c < n then k * c else n
  }

  function Chunks(n: nat, c: nat): nat
    requires c > 0
  {
    (n + c - 1) / c
  }

  lemma ChunksCover(k: nat, c: nat, n: nat)
    requires c > 0
    ensures k < Chunks(n, c) <==> k * c < n
    ensures k < Chunks(n, c) ==> Covered(k, c, n) == k * c && Covered(k + 1, c, n) == if n < k * c + c then n else k * c + c
  {
    var q, r := (n + c - 1) / c, (n + c - 1) % c;
    assert q * c + r == n + c - 1;
    assert (k + 1) * c == k * c + c;
    if k < q {
      assert (k + 1) * c <= q * c by { MulMono(k + 1, q, c); }
    } else {
      assert q * c <= k * c by { MulMono(q, k, c); }
    }
  }

  /** The first k elements have been copied and the rest is as it was. */
  ghost predicate CopiedUpTo<T>(dst: seq<T>, src: seq<T>, was: seq<T>, k: nat) {
    |dst| == |src| == |was| && k <= |dst| && dst[..k] == src[..k] && dst[k..] == was[k..]
  }

  /** Exactly the first k chunks have been copied, and bytes counts them. */
  ghost predicate Delivered<T>(dst: seq<T>, src: seq<T>, was: seq<T>, k: nat, c: nat, elSize: nat, bytes: nat) {
    CopiedUpTo(dst, src, was, Covered(k, c, |src|)) && bytes == Size(Covered(k, c, |src|), elSize)
  }

  class PacedCopier {
    const poll: real
    var clock: real

    constructor (poll: real, now: real)
      ensures this.poll == poll && clock == now
    {
      this.poll, clock := poll, now;
    }

    /** Time passes, by at least `least`. */
    method Elapse(least: real)
      requires least >= 0.0
      modifies this
      ensures clock >= old(clock) + least
    {
      var dt: real := *;
      clock := clock + least + if dt >= 0.0 then dt else 0.0;
    }

    /** Is the cancel event set? Anyone may have set it. */
    method Poll(cancellable: bool) returns (raised: bool)
      ensures raised ==> cancellable
    {
      raised := *;
      raised := raised && cancellable;
    }

    /** Sleep in poll-sized naps until `due`, unless cancelled. */
    method Pace(due: real, cancellable: bool) returns (cancelled: bool)
      requires poll > 0.0
      modifies this
      ensures clock >= old(clock) && (cancelled ==> cancellable) && (!cancelled ==> due <= clock)
    {
      cancelled := false;
      while clock < due && !cancelled
        invariant clock >= old(clock) && (cancelled ==> cancellable)
        decreases !cancelled, if clock < due then ((due - clock) / poll).Floor + 1 else 0
      {
        cancelled := Poll(cancellable);
        if !cancelled {
          ghost var before := clock;
          Elapse(if due - clock < poll then due - clock else poll);
          if clock < due {
            assert clock >= before + poll;
            Napped(due - clock, due - before, poll);
          } else {
            assert (due - before) / poll > 0.0;
          }
        }
      }
    }

    lemma Napped(after: real, before: real, poll: real)
      requires 0.0 < after <= before - poll && poll > 0.0
      ensures (after / poll).Floor + 1 <= (before / poll).Floor && (after / poll).Floor >= 0
    {
      var x, y := before / poll, after / poll;
      assert x * poll == before && y * poll == after;
      assert y > 0.0;
      var z := y - x + 1.0;
      assert z * poll == y * poll - x * poll + poll;
      NotPositive(z, poll);
    }

    /** One chunk onto the stream: the copied prefix grows from lo to hi. */
    static method CopyChunk<T>(src: array<T>, dst: array<T>, lo: nat, hi: nat)
      requires src != dst && lo <= hi <= src.Length == dst.Length
      requires dst[..lo] == src[..lo]
      modifies dst
      ensures dst[..hi] == src[..hi] && dst[hi..] == old(dst[hi..])
    {
      ghost var was := dst[..];
      forall i | lo <= i < hi {
        dst[i] := src[i];
      }
      assert forall i :: 0 <= i < lo ==> was[i] == was[..lo][i] && src[i] == src[..lo][i];
    }

    /** The gap after a chunk, at the rate now in force: a late chunk does not earn its delay back. */
    method Gap(bytes: nat, due: real, unpaced: bool) returns (next: real, rate: Rate)
      modifies this
      ensures clock >= old(clock) && (unpaced ==> rate == Infinite)
      ensures var p := Period(bytes, rate);
        if Pacing(rate) then Max(old(clock), due) + p <= next <= Max(clock, due) + p else next == due
    {
      rate := *;
      Elapse(0.0);
      if unpaced {
        rate := Infinite;
      }
      next := if Pacing(rate) then Max(clock, due) + Period(bytes, rate) else due;
    }

    /** Hand chunk ci to the stream and set the pacing clock for the next. */
    method LaunchChunk<T>(src: array<T>, dst: array<T>, ci: nat, c: nat, elSize: nat, due: real, unpaced: bool)
      returns (next: real, l: Launch)
      requires src != dst && src.Length == dst.Length && c > 0 && ci < Chunks(src.Length, c)
      requires var k := Covered(ci, c, src.Length); dst[..k] == src[..k]
      modifies this, dst
      ensures clock >= old(clock) == l.time && (unpaced ==> l.rate == Infinite)
      ensures Due(due, next, l, clock)
      ensures var k := Covered(ci, c, src.Length);
        var k' := Covered(ci + 1, c, src.Length);
        && k <= k' && Size(k, elSize) + l.bytes == Size(k', elSize)
        && dst[..k'] == src[..k'] && dst[k'..] == old(dst[k'..])
    {
      ChunksCover(ci, c, src.Length);
      var lo := ci * c;
      var hi := if src.Length < lo + c then src.Length else lo + c;
      CopyChunk(src, dst, lo, hi);
      var time, bytes := clock, Size(hi - lo, elSize);
      var rate;
      next, rate := Gap(bytes, due, unpaced);
      l := Launch(time, bytes, rate);
      Distribute(lo, hi, elSize);
    }

    /** One turn of the loop: unless cancelled, wait for the pacing clock and launch chunk ci. */
    method NextChunk<T>(src: array<T>, dst: array<T>, ci: nat, c: nat, elSize: nat, due: real, cancellable: bool,
                        unpaced: bool, ghost was: seq<T>, ghost bytes: nat)
      returns (cancelled: bool, next: real, l: Launch)
      requires src != dst && src.Length == dst.Length && c > 0 && ci < Chunks(src.Length, c) && poll > 0.0
      requires Delivered(dst[..], src[..], was, ci, c, elSize, bytes)
      modifies this, dst
      ensures clock >= old(clock) && (cancelled ==> cancellable && next == due)
      ensures cancelled ==> Delivered(dst[..], src[..], was, ci, c, elSize, bytes)
      ensures !cancelled ==> Delivered(dst[..], src[..], was, ci + 1, c, elSize, bytes + l.bytes)
      ensures !cancelled ==>
        && old(clock) <= l.time && (if unpaced then l.rate == Infinite else due <= l.time)
        && Due(due, next, l, clock)
    {
      next, l := due, Launch(clock, 0, Infinite);
      cancelled := Poll(cancellable);
      Elapse(0.0);
      if !cancelled && !unpaced {
        cancelled := Pace(due, cancellable);
      }
      if !cancelled {
        ghost var before := dst[..];
        next, l := LaunchChunk(src, dst, ci, c, elSize, due, unpaced);
        Suffix(before, Covered(ci, c, src.Length), Covered(ci + 1, c, src.Length));
        Suffix(was, Covered(ci, c, src.Length), Covered(ci + 1, c, src.Length));
      }
    }

    /** The loop over the chunks, from a given pacing clock. */
    method LaunchAll<T>(src: array<T>, dst: array<T>, c: nat, elSize: nat, due0: real, cancellable: bool, unpaced: bool,
                        ghost earliest: real)
      returns (cancelled: bool, due: real, bytes: nat, ls: seq<Launch>)
      requires src != dst && src.Length == dst.Length && c > 0 && poll > 0.0
      requires earliest <= if unpaced then clock else Max(due0, clock)
      modifies this, dst
      ensures clock >= old(clock) && |ls| <= Chunks(src.Length, c)
      ensures if unpaced then due == due0 else Advanced(due0, due, ls, clock)
      ensures if cancelled then cancellable && |ls| < Chunks(src.Length, c) else |ls| == Chunks(src.Length, c)
      ensures Delivered(dst[..], src[..], old(dst[..]), |ls|, c, elSize, bytes) && bytes == Bytes(ls)
      ensures Timed(ls, earliest, unpaced, Max(due, clock))
    {
      var nChunks := Chunks(src.Length, c);
      cancelled, due, bytes, ls := false, due0, 0, [];
      while |ls| < nChunks && !cancelled
        invariant |ls| <= nChunks && (cancelled ==> cancellable && |ls| < nChunks)
        invariant clock >= old(clock) && Advanced(due0, due, ls, clock) && (unpaced ==> due == due0)
        invariant Delivered(dst[..], src[..], old(dst[..]), |ls|, c, elSize, bytes) && bytes == Bytes(ls)
        invariant Timed(ls, earliest, unpaced, Max(due, clock))
        decreases !cancelled, nChunks - |ls|
      {
        ghost var was, before := due, clock;
        var l;
        cancelled, due, l := NextChunk(src, dst, |ls|, c, elSize, due, cancellable, unpaced, old(dst[..]), bytes);
        if cancelled {
          TimedLater(ls, earliest, unpaced, Max(was, before), Max(due, clock));
        } else {
          Record(ls, l, earliest, due0, was, due, before, clock, unpaced);
          ls, bytes := ls + [l], bytes + l.bytes;
        }
      }
    }

    /** Copy src over dst. What was launched is a prefix of whole chunks; unless cancelled it is
        everything. Launches never come before the pacing clock handed in, and by the later of the one
        handed back and the time of return the last launch has had its period. The pacing clock handed
        back is no further on than the launches' periods, and an unpaced copy leaves it alone. */
    method Run<T>(src: array<T>, dst: array<T>, elSize: nat, chunkBytes: int, cancellable: bool, unpaced: bool,
                  nextDue0: Option<real>)
      returns (res: CopyResult, ls: seq<Launch>)
      requires src != dst && src.Length == dst.Length && elSize > 0 && poll > 0.0
      modifies this, dst
      ensures clock >= old(clock) && src[..] == old(src[..])
      ensures var c := ChunkElements(chunkBytes, elSize);
        var k := Covered(|ls|, c, src.Length);
        && res.nbytes == Size(src.Length, elSize) && res.nChunks == Chunks(src.Length, c)
        && res.chunksLaunched == |ls| <= res.nChunks
        && res.bytesLaunched == Size(k, elSize) == Bytes(ls)
        && CopiedUpTo(dst[..], src[..], old(dst[..]), k)
      ensures if res.cancelled then cancellable && |ls| < res.nChunks else |ls| == res.nChunks && dst[..] == src[..]
      ensures NoneBefore(ls, Earliest(nextDue0, unpaced, old(clock)))
      ensures !unpaced ==> Spaced(ls) && ClearBy(ls, Max(res.nextDueFinal, clock))
      ensures var due0 := if nextDue0.Some? then nextDue0.value else old(clock);
        if unpaced then res.nextDueFinal == due0 else Advanced(due0, res.nextDueFinal, ls, clock)
    {
      var n, c := src.Length, ChunkElements(chunkBytes, elSize);
      var due0 := if nextDue0.Some? then nextDue0.value else clock;
      var cancelled, due, bytes;
      cancelled, due, bytes, ls :=
        LaunchAll(src, dst, c, elSize, due0, cancellable, unpaced, Earliest(nextDue0, unpaced, clock));
      ChunksCover(|ls|, c, n);
      res := CopyResult(Size(n, elSize), Chunks(n, c), cancelled, |ls|, bytes, due);
    }

    /** The inner loop of a sustained train: the same transfer again and again, each run starting from
        the pacing clock of the one before. The launches of all runs together are spaced: no burst where
        one run ends and the next begins. Nor is the train held back: the pacing clock it ends with is at
        most the periods of its launches ahead of the time. */
    method Sustain<T>(src: array<T>, dst: array<T>, elSize: nat, chunkBytes: int, runs: nat)
      returns (bytes: nat, ls: seq<Launch>, due: Option<real>)
      requires src != dst && src.Length == dst.Length && elSize > 0 && poll > 0.0
      modifies this, dst
      ensures clock >= old(clock) && Spaced(ls) && bytes == Bytes(ls) && (due.None? <==> runs == 0)
      ensures due.Some? ==> ClearBy(ls, Max(due.value, clock)) && old(clock) <= due.value <= clock + Periods(ls)
    {
      ls, bytes, due := [], 0, None;
      for k := 0 to runs
        invariant clock >= old(clock) && Spaced(ls) && bytes == Bytes(ls) && (due.None? <==> k == 0)
        invariant if due.None? then ls == []
          else ClearBy(ls, Max(due.value, clock)) && old(clock) <= due.value <= clock + Periods(ls)
      {
        ghost var start := clock;
        var res, more := Run(src, dst, elSize, chunkBytes, true, false, due);
        TrainGrows(ls, more, due, start, res.nextDueFinal, clock);
        PeriodsAppend(ls, more);
        PeriodsNonNegative(ls);
        PeriodsNonNegative(more);
        ls, bytes, due := ls + more, bytes + res.bytesLaunched, Some(res.nextDueFinal);
      }
    }
  }

  lemma NotPositive(z: real, k: real)
    requires k > 0.0 && z * k <= 0.0
    ensures z <= 0.0
  {
    assert z == z * k / k;
  }

  lemma Suffix<T>(a: seq<T>, lo: nat, hi: nat)
    requires lo <= hi <= |a|
    ensures a[lo..][hi - lo..] == a[hi..]
  {
  }

  lemma Distribute(lo: nat, hi: nat, size: nat)
    requires lo <= hi
    ensures Size(lo, size) + Size(hi - lo, size) == Size(hi, size)
  {
  }

  /** One more launch, made at or after `before` and, when paced, not before the pacing clock. */
  lemma Record(ls: seq<Launch>, l: Launch, earliest: real, due0: real, due: real, next: real, before: real, now: real,
               unpaced: bool)
    requires Timed(ls, earliest, unpaced, Max(due, before)) && Advanced(due0, due, ls, before)
    requires earliest <= l.time && before <= l.time && (!unpaced ==> due <= l.time) && Due(due, next, l, now)
    ensures Bytes(ls + [l]) == Bytes(ls) + l.bytes && Advanced(due0, next, ls + [l], now)
    ensures Timed(ls + [l], earliest, unpaced, Max(next, now))
  {
    DueAdvances(due0, due, next, ls, l, before, now);
    assert (ls + [l])[..|ls|] == ls;
  }

  /** A paced run that starts from the pacing clock of the runs before it continues their train. */
  lemma TrainGrows(ls: seq<Launch>, more: seq<Launch>, due: Option<real>, start: real, next: real, now: real)
    requires Spaced(ls) && (if due.None? then ls == [] else ClearBy(ls, Max(due.value, start)) && due.value <= next)
    requires Timed(more, Earliest(due, false, start), false, Max(next, now)) && start <= now
    ensures Spaced(ls + more) && ClearBy(ls + more, Max(next, now)) && Bytes(ls + more) == Bytes(ls) + Bytes(more)
  {
    BytesAppend(ls, more);
    if due.Some? {
      Joined(ls, more, Max(due.value, start), Max(next, now));
    } else {
      assert ls + more == more;
    }
  }

  lemma {:induction false} PeriodsAppend(a: seq<Launch>, b: seq<Launch>)
    ensures Periods(a + b) == Periods(a) + Periods(b)
  {
    if b == [] {
      assert a + b == a;
    } else {
      assert (a + b)[..|a + b| - 1] == a + b[..|b| - 1];
      PeriodsAppend(a, b[..|b| - 1]);
    }
  }

  lemma {:induction false} BytesAppend(a: seq<Launch>, b: seq<Launch>)
    ensures Bytes(a + b) == Bytes(a) + Bytes(b)
  {
    if b == [] {
      assert a + b == a;
    } else {
      assert (a + b)[..|a + b| - 1] == a + b[..|b| - 1];
      BytesAppend(a, b[..|b| - 1]);
    }
  }
}
