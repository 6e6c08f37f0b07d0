/** The prefetch pipeline carrying real attention work, in both of its forms: the (m, l, o) fold and
    the (O, lse) merge. In each, every interleaving of host and streams yields dense attention. */
module PrefetchedAttention {
  import opened Arithmetic
  import opened Attention
  import PM = PairMerge
  import opened Prefetch
  import opened PrefetchProgress

  function Keys(ts: seq<Token>): (ks: seq<Vec>)
    ensures |ks| == |ts|
  {
    seq(|ts|, i requires 0 <= i < |ts| => ts[i].k)
  }

  function Values(ts: seq<Token>): (vs: seq<Vec>)
    ensures |vs| == |ts|
  {
    seq(|ts|, i requires 0 <= i < |ts| => ts[i].v)
  }

  /** The rows of a chunk whose K and V tensors travelled separately. */
  function Joined(ks: seq<Vec>, vs: seq<Vec>): (ts: seq<Token>)
    requires |ks| == |vs|
    ensures |ts| == |ks|
  {
    seq(|ks|, i requires 0 <= i < |ks| => Token(ks[i], vs[i]))
  }

  lemma JoinSplit(ts: seq<Token>)
    ensures Joined(Keys(ts), Values(ts)) == ts
  {
  }

  function KeyChunks(chunks: seq<seq<Token>>): (ks: seq<seq<Vec>>)
    ensures |ks| == |chunks|
  {
    seq(|chunks|, i requires 0 <= i < |chunks| => Keys(chunks[i]))
  }

  function ValueChunks(chunks: seq<seq<Token>>): (vs: seq<seq<Vec>>)
    ensures |vs| == |chunks|
  {
    seq(|chunks|, i requires 0 <= i < |chunks| => Values(chunks[i]))
  }

  /** What a merge kernel accepts. */
  predicate Mergeable(h: Head, ks: seq<Vec>, vs: seq<Vec>) {
    |ks| == |vs| && ks != [] && h.Fits(Joined(ks, vs))
  }

  // ---------------------------------------------------------------- the (m, l, o) pipeline

  function FoldKernel(h: Head, st: Attention.State, ks: seq<Vec>, vs: seq<Vec>): Attention.State {
    if Mergeable(h, ks, vs) && |st.o| == h.dim then Attention.Merge(h, st, Joined(ks, vs)) else st
  }

  function FoldJob(h: Head, local: seq<Token>, chunks: seq<seq<Token>>): Job<seq<Vec>, seq<Vec>, Attention.State>
    requires h.Fits(local) && local != []
  {
    Job(KeyChunks(chunks), ValueChunks(chunks), Attention.Merge(h, Fresh(h), local),
        (st, ks, vs) => FoldKernel(h, st, ks, vs), true)
  }

  lemma {:induction false} FoldJobIsStreamed(h: Head, local: seq<Token>, chunks: seq<seq<Token>>, n: nat)
    requires h.Fits(local) && local != [] && Chunked(h, chunks) && n <= |chunks|
    ensures Sequential(FoldJob(h, local, chunks), n) == Streamed(h, local, chunks[..n])
  {
    if n > 0 {
      FoldJobIsStreamed(h, local, chunks, n - 1);
      JoinSplit(chunks[n - 1]);
      assert chunks[..n][..n - 1] == chunks[..n - 1];
    }
  }

  /** When the pipeline has stopped, o / l is dense attention over the local and all spilled KV. */
  lemma PrefetchIsDense(h: Head, local: seq<Token>, chunks: seq<seq<Token>>, schedule: seq<Actor>)
    requires h.Valid() && h.Fits(local) && local != [] && Chunked(h, chunks)
    ensures h.Fits(local + Concat(chunks))
    ensures var s := Exec(FoldJob(h, local, chunks), schedule);
      Stuck(s) ==>
        && s.res.out.Some? && s.res.out.value.Value?
        && var st := s.res.out.value.s;
           st.l > 0.0 && |st.o| == h.dim && Finish(h, st) == Dense(h, local + Concat(chunks))
  {
    var j := FoldJob(h, local, chunks);
    ExecInv(j, schedule);
    StuckIsFinished(j, Exec(j, schedule));
    FoldJobIsStreamed(h, local, chunks, |chunks|);
    assert chunks[..|chunks|] == chunks;
    StreamedIsDense(h, local, chunks);
  }

  // ---------------------------------------------------------------- the (O, lse) pipeline

  ghost function PairKernel(h: Head, p: PM.Partial, ks: seq<Vec>, vs: seq<Vec>): PM.Partial
    requires h.Valid()
  {
    if Mergeable(h, ks, vs) && p.Shaped(h.dim) then PM.MergePair(h, p, PM.PartialOf(h, Joined(ks, vs))) else p
  }

  ghost function PairJob(h: Head, local: seq<Token>, chunks: seq<seq<Token>>): Job<seq<Vec>, seq<Vec>, PM.Partial>
    requires h.Valid() && h.Fits(local)
  {
    Job(KeyChunks(chunks), ValueChunks(chunks), PM.PartialOf(h, local),
        (p, ks, vs) => PairKernel(h, p, ks, vs), false)
  }

  lemma {:induction false} PairJobIsPartial(h: Head, local: seq<Token>, chunks: seq<seq<Token>>, n: nat)
    requires h.Valid() && h.Fits(local) && Chunked(h, chunks) && n <= |chunks|
    ensures h.Fits(local + Concat(chunks[..n]))
    ensures Sequential(PairJob(h, local, chunks), n) == PM.PartialOf(h, local + Concat(chunks[..n]))
  {
    if n == 0 {
      assert local + Concat(chunks[..n]) == local;
    } else {
      PairJobIsPartial(h, local, chunks, n - 1);
      JoinSplit(chunks[n - 1]);
      PM.MergeGrows(h, local + Concat(chunks[..n - 1]), chunks[n - 1]);
      assert chunks[..n][..n - 1] == chunks[..n - 1];
      AppendAssoc(local, Concat(chunks[..n - 1]), chunks[n - 1]);
    }
  }

  /** The overlapped copy-back over any slicing of the peer KV, under any interleaving, returns what
      the peer-parallel step returns: dense attention over all the KV. */
  lemma OverlapIsPeerParallel(h: Head, local: seq<Token>, peer: seq<Token>, chunks: seq<seq<Token>>,
                              schedule: seq<Actor>)
    requires h.Valid() && h.Fits(local) && h.Fits(peer)
    requires Chunked(h, chunks) && Concat(chunks) == peer && chunks != []
    ensures h.Fits(local + peer) && local + peer != []
    ensures var s := Exec(PairJob(h, local, chunks), schedule);
      Stuck(s) ==>
        && s.res.out.Some? && s.res.out.value.Value?
        && s.res.out.value.s.out == PM.PeerParallelStep(h, local, peer) == PM.Finite(Dense(h, local + peer))
  {
    var j := PairJob(h, local, chunks);
    ExecInv(j, schedule);
    StuckIsFinished(j, Exec(j, schedule));
    PairJobIsPartial(h, local, chunks, |chunks|);
    assert chunks[..|chunks|] == chunks && chunks[|chunks| - 1] != [];
    PM.PeerParallelExact(h, local, peer);
  }
}
