/** One cut of the KV, three ways of putting it back together. */
module ThreeForms {
  import opened Arithmetic
  import opened Options
  import opened Attention
  import PM = PairMerge
  import T = Tiered

  function StreamedOver(h: Head, chunks: seq<seq<Token>>): (st: State)
    requires Chunked(h, chunks) && chunks != []
    ensures |st.o| == h.dim
  {
    Streamed(h, chunks[0], chunks[1..])
  }

  lemma StreamedWhole(h: Head, chunks: seq<seq<Token>>)
    requires h.Valid() && Chunked(h, chunks) && chunks != []
    ensures h.Fits(Concat(chunks)) && Concat(chunks) != []
    ensures Summarises(h, StreamedOver(h, chunks), Concat(chunks))
  {
    ConcatHead(chunks);
    StreamedSummarises(h, chunks[0], chunks[1..]);
  }

  lemma ManyWayWhole(h: Head, chunks: seq<seq<Token>>, st: State)
    requires h.Valid() && Chunked(h, chunks) && h.Fits(Concat(chunks)) && Concat(chunks) != []
    requires Summarises(h, st, Concat(chunks))
    ensures chunks != [] && T.Wide(T.Partials(h, chunks), h.dim)
    ensures T.Merged(h, T.Partials(h, chunks)) == Some(Finish(h, st))
  {
    T.MergedIsDense(h, T.Partials(h, chunks), chunks);
    FinishIsDense(h, st, Concat(chunks));
  }

  lemma PairwiseWhole(h: Head, chunks: seq<seq<Token>>, st: State)
    requires h.Valid() && Chunked(h, chunks) && chunks != [] && h.Fits(Concat(chunks)) && Concat(chunks) != []
    requires Summarises(h, st, Concat(chunks))
    ensures PM.FoldShards(h, chunks) == PM.Partial(PM.Finite(Finish(h, st)), Some(st.m.value + h.math.log(st.l)))
  {
    PM.FoldShardsExact(h, chunks);
    PM.StreamingIsPartial(h, st, Concat(chunks));
  }

  /** The streaming fold, the many-way merge and the pairwise fold agree on every cut into nonempty
      chunks, and the running (m, l) is the pairwise lse through lse = m + log l. */
  lemma ThreeFormsAgree(h: Head, chunks: seq<seq<Token>>)
    requires h.Valid() && Chunked(h, chunks) && chunks != []
    ensures T.Wide(T.Partials(h, chunks), h.dim)
    ensures var st := StreamedOver(h, chunks);
      && st.m.Some? && st.l > 0.0
      && T.Merged(h, T.Partials(h, chunks)) == Some(Finish(h, st))
      && PM.FoldShards(h, chunks) == PM.Partial(PM.Finite(Finish(h, st)), Some(st.m.value + h.math.log(st.l)))
  {
    StreamedWhole(h, chunks);
    ManyWayWhole(h, chunks, StreamedOver(h, chunks));
    PairwiseWhole(h, chunks, StreamedOver(h, chunks));
  }

  lemma {:induction false} ConcatHead<A>(xs: seq<seq<A>>)
    requires xs != []
    ensures Concat(xs) == xs[0] + Concat(xs[1..])
  {
    var n := |xs| - 1;
    if n == 0 {
      assert Concat(xs) == Concat(xs[..0]) + xs[0] == xs[0];
    } else {
      ConcatHead(xs[..n]);
      assert xs[..n][1..] == xs[1..][..n - 1];
      AppendAssoc(xs[0], Concat(xs[1..][..n - 1]), xs[n]);
    }
  }
}
