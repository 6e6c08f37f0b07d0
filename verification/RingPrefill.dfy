/** Causal prefill with the sequence cut into shards: each shard attends causally to itself and
    without a mask to every earlier shard, and the partials are merged. */
module RingPrefill {
  import opened Arithmetic
  import opened Exponential
  import opened Attention
  import opened PairMerge

  /** One sequence position: its query row and its KV row. */
  datatype Position = Position(q: Vec, kv: Token)

  datatype Config = Config(math: ExpLog, scale: real, keyDim: nat, dim: nat) {
    ghost predicate Valid() {
      math.Valid()
    }

    function HeadOf(p: Position): Head {
      Head(math, p.q, scale, dim)
    }

    predicate Fits(ps: seq<Position>) {
      forall i | 0 <= i < |ps| :: |ps[i].q| == |ps[i].kv.k| == keyDim && |ps[i].kv.v| == dim
    }
  }

  function Rows(ps: seq<Position>): (ts: seq<Token>)
    ensures |ts| == |ps|
  {
    seq(|ps|, i requires 0 <= i < |ps| => ps[i].kv)
  }

  lemma RowsAppend(a: seq<Position>, b: seq<Position>)
    ensures Rows(a + b) == Rows(a) + Rows(b)
  {
  }

  /** Dense causal attention: position g attends to positions 0..g and to nothing later. */
  function CausalAt(c: Config, ps: seq<Position>, g: nat): Out
    requires c.Valid() && c.Fits(ps) && g < |ps|
  {
    Finite(Dense(c.HeadOf(ps[g]), Rows(ps[..g + 1])))
  }

  function CausalDense(c: Config, ps: seq<Position>): seq<Out>
    requires c.Valid() && c.Fits(ps)
  {
    seq(|ps|, g requires 0 <= g < |ps| => CausalAt(c, ps, g))
  }

  predicate AllFit(c: Config, xs: seq<seq<Position>>) {
    forall j | 0 <= j < |xs| :: c.Fits(xs[j])
  }

  /** One query: the causal partial of its own shard, then the earlier blocks merged in turn. */
  function RingPartial(h: Head, own: seq<Token>, blocks: seq<seq<Token>>): (r: Partial)
    requires h.Valid() && h.Fits(own) && Attention.AllFit(h, blocks)
    ensures r.Shaped(h.dim)
  {
    if blocks == [] then PartialOf(h, own)
    else
      var n := |blocks| - 1;
      MergePair(h, RingPartial(h, own, blocks[..n]), PartialOf(h, blocks[n]))
  }

  lemma {:induction false} RingPartialExact(h: Head, own: seq<Token>, blocks: seq<seq<Token>>)
    requires h.Valid() && h.Fits(own) && Attention.AllFit(h, blocks) && own != []
    ensures h.Fits(own + Concat(blocks))
    ensures RingPartial(h, own, blocks) == PartialOf(h, own + Concat(blocks))
  {
    if blocks == [] {
      assert own + Concat(blocks) == own;
    } else {
      var n := |blocks| - 1;
      RingPartialExact(h, own, blocks[..n]);
      MergeGrows(h, own + Concat(blocks[..n]), blocks[n]);
      AppendAssoc(own, Concat(blocks[..n]), blocks[n]);
    }
  }

  function RowsOfEach(xs: seq<seq<Position>>): (r: seq<seq<Token>>)
    ensures |r| == |xs|
  {
    seq(|xs|, i requires 0 <= i < |xs| => Rows(xs[i]))
  }

  lemma {:induction false} RowsOfConcat(xs: seq<seq<Position>>)
    ensures Concat(RowsOfEach(xs)) == Rows(Concat(xs))
  {
    if xs != [] {
      var n := |xs| - 1;
      RowsOfConcat(xs[..n]);
      assert RowsOfEach(xs)[..n] == RowsOfEach(xs[..n]);
      RowsAppend(Concat(xs[..n]), xs[n]);
    }
  }

  /** All queries of one shard at once, as the tensor operations process them. */
  method ShardPartials(c: Config, earlier: seq<seq<Position>>, shard: seq<Position>) returns (acc: seq<Partial>)
    requires c.Valid() && c.Fits(shard) && AllFit(c, earlier)
    ensures |acc| == |shard|
    ensures forall p | 0 <= p < |shard| ::
      acc[p] == RingPartial(c.HeadOf(shard[p]), Rows(shard[..p + 1]), RowsOfEach(earlier))
  {
    acc := seq(|shard|, p requires 0 <= p < |shard| => PartialOf(c.HeadOf(shard[p]), Rows(shard[..p + 1])));
    for j := 0 to |earlier|
      invariant |acc| == |shard|
      invariant forall p | 0 <= p < |shard| ::
        acc[p] == RingPartial(c.HeadOf(shard[p]), Rows(shard[..p + 1]), RowsOfEach(earlier[..j]))
    {
      assert RowsOfEach(earlier[..j + 1])[..j] == RowsOfEach(earlier[..j]);
      acc := seq(|shard|, p requires 0 <= p < |shard| =>
        MergePair(c.HeadOf(shard[p]), acc[p], PartialOf(c.HeadOf(shard[p]), Rows(earlier[j]))));
    }
    assert earlier[..|earlier|] == earlier;
  }

  lemma PrefixRows(before: seq<Position>, shard: seq<Position>, p: nat)
    requires p < |shard|
    ensures Rows((before + shard)[..|before| + p + 1]) == Rows(before) + Rows(shard[..p + 1])
  {
    assert (before + shard)[..|before| + p + 1] == before + shard[..p + 1];
    RowsAppend(before, shard[..p + 1]);
  }

  /** The merge order puts the diagonal first; attention does not notice. */
  lemma DiagonalFirst(h: Head, own: seq<Token>, blocks: seq<seq<Token>>, earlier: seq<Token>)
    requires h.Valid() && h.Fits(own) && Attention.AllFit(h, blocks) && own != []
    requires Concat(blocks) == earlier
    ensures h.Fits(earlier + own) && RingPartial(h, own, blocks).out == Finite(Dense(h, earlier + own))
  {
    RingPartialExact(h, own, blocks);
    DensePermutation(h, own + earlier, earlier + own);
  }

  lemma RingIsCausal(c: Config, shard: seq<Position>, p: nat, earlier: seq<seq<Position>>, before: seq<Position>)
    requires c.Valid() && c.Fits(shard) && p < |shard| && AllFit(c, earlier)
    requires before == Concat(earlier) && c.Fits(before + shard)
    ensures RingPartial(c.HeadOf(shard[p]), Rows(shard[..p + 1]), RowsOfEach(earlier)).out
         == CausalAt(c, before + shard, |before| + p)
  {
    RowsOfConcat(earlier);
    DiagonalFirst(c.HeadOf(shard[p]), Rows(shard[..p + 1]), RowsOfEach(earlier), Rows(before));
    PrefixRows(before, shard, p);
  }

  lemma {:induction false} AllFitConcat(c: Config, xs: seq<seq<Position>>)
    requires AllFit(c, xs)
    ensures c.Fits(Concat(xs))
  {
    if xs != [] {
      AllFitConcat(c, xs[..|xs| - 1]);
    }
  }

  /** Later positions change nothing for earlier ones. */
  lemma CausalAtPrefix(c: Config, a: seq<Position>, b: seq<Position>, g: nat)
    requires c.Valid() && c.Fits(a) && c.Fits(b) && g < |a|
    ensures c.Fits(a + b) && CausalAt(c, a + b, g) == CausalAt(c, a, g)
  {
    assert (a + b)[..g + 1] == a[..g + 1];
  }

  lemma CausalAppend(c: Config, a: seq<Position>, b: seq<Position>, outs: seq<Out>)
    requires c.Valid() && c.Fits(a) && c.Fits(b) && |outs| == |b|
    requires c.Fits(a + b) && forall p | 0 <= p < |b| :: outs[p] == CausalAt(c, a + b, |a| + p)
    ensures CausalDense(c, a + b) == CausalDense(c, a) + outs
  {
    forall g | 0 <= g < |a| ensures CausalAt(c, a + b, g) == CausalAt(c, a, g) {
      CausalAtPrefix(c, a, b, g);
    }
    forall g | |a| <= g < |a + b| ensures CausalAt(c, a + b, g) == outs[g - |a|] {
      assert g == |a| + (g - |a|);
    }
  }

  /** Over every cut of the sequence into shards, the outputs joined in order are dense causal
      attention over the whole sequence. */
  method RingPrefillAttention(c: Config, shards: seq<seq<Position>>) returns (outs: seq<seq<Out>>)
    requires c.Valid() && AllFit(c, shards)
    ensures |outs| == |shards| && forall i | 0 <= i < |shards| :: |outs[i]| == |shards[i]|
    ensures c.Fits(Concat(shards)) && Concat(outs) == CausalDense(c, Concat(shards))
  {
    outs := [];
    for i := 0 to |shards|
      invariant |outs| == i && forall k | 0 <= k < i :: |outs[k]| == |shards[k]|
      invariant c.Fits(Concat(shards[..i])) && Concat(outs) == CausalDense(c, Concat(shards[..i]))
    {
      var acc := ShardPartials(c, shards[..i], shards[i]);
      var o := seq(|acc|, p requires 0 <= p < |acc| => acc[p].out);
      JoinShard(c, shards, i, acc, o);
      ConcatSnoc(outs, o);
      outs := outs + [o];
    }
    assert shards[..|shards|] == shards;
  }

  lemma JoinShard(c: Config, shards: seq<seq<Position>>, i: nat, acc: seq<Partial>, o: seq<Out>)
    requires c.Valid() && AllFit(c, shards) && i < |shards| && |acc| == |o| == |shards[i]|
    requires forall p | 0 <= p < |o| :: o[p] == acc[p].out
    requires forall p | 0 <= p < |acc| ::
      acc[p] == RingPartial(c.HeadOf(shards[i][p]), Rows(shards[i][..p + 1]), RowsOfEach(shards[..i]))
    ensures c.Fits(Concat(shards[..i])) && c.Fits(Concat(shards[..i + 1]))
    ensures CausalDense(c, Concat(shards[..i + 1])) == CausalDense(c, Concat(shards[..i])) + o
  {
    var before, shard := Concat(shards[..i]), shards[i];
    AllFitConcat(c, shards[..i]);
    assert shards[..i + 1][..i] == shards[..i];
    assert Concat(shards[..i + 1]) == before + shard;
    forall p | 0 <= p < |o| ensures o[p] == CausalAt(c, before + shard, |before| + p) {
      RingIsCausal(c, shard, p, shards[..i], before);
    }
    CausalAppend(c, before, shard, o);
  }
}
