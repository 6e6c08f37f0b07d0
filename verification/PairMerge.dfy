/** The (O, lse) form of partial attention: normalised output and log-sum-exp per KV shard, merged
    two at a time. A shard may be empty: its lse is -inf (None) and its output is the zero row.
    Merging two empty shards computes exp(-inf - -inf), so not-a-number is a value of the model. */
module PairMerge {
  import opened Arithmetic
  import opened Options
  import opened Exponential
  import opened Attention

  datatype Out = Finite(v: Vec) | NaN

  datatype Partial = Partial(out: Out, lse: Option<real>) {
    predicate Shaped(dim: nat) {
      out.Finite? ==> |out.v| == dim
    }
  }

  /** softmax(s) @ V and logsumexp(s) over one shard. */
  function PartialOf(h: Head, ts: seq<Token>): (p: Partial)
    requires h.Valid() && h.Fits(ts)
    ensures p.Shaped(h.dim)
  {
    if ts == [] then Partial(Finite(Zeros(h.dim)), None)
    else Partial(Finite(Dense(h, ts)), Some(h.math.log(Normaliser(h, ts))))
  }

  function LogAddExp(math: ExpLog, a: Option<real>, b: Option<real>): Option<real> {
    match (a, b)
    case (None, _) => b
    case (_, None) => a
    case (Some(x), Some(y)) => Some(math.log(math.exp(x) + math.exp(y)))
  }

  /** exp(part - lse), zero for an empty part. */
  function Weight(math: ExpLog, part: Option<real>, lse: real): real {
    match part
    case None => 0.0
    case Some(x) => math.exp(x - lse)
  }

  function Blend(x0: real, w0: real, x1: real, w1: real): real {
    x0 * w0 + x1 * w1
  }

  function MergePair(h: Head, p0: Partial, p1: Partial): (r: Partial)
    requires p0.Shaped(h.dim) && p1.Shaped(h.dim)
    ensures r.Shaped(h.dim)
  {
    var lse := LogAddExp(h.math, p0.lse, p1.lse);
    if lse.None? || p0.out.NaN? || p1.out.NaN? then Partial(NaN, lse)
    else
      var w0, w1 := Weight(h.math, p0.lse, lse.value), Weight(h.math, p1.lse, lse.value);
      Partial(Finite(seq(h.dim, j requires 0 <= j < h.dim => Blend(p0.out.v[j], w0, p1.out.v[j], w1))), lse)
  }

  // ---------------------------------------------------------------- two shards

  lemma NormaliserAppend(h: Head, a: seq<Token>, b: seq<Token>)
    requires h.Fits(a) && h.Fits(b)
    ensures h.Fits(a + b) && Normaliser(h, a + b) == Normaliser(h, a) + Normaliser(h, b)
  {
    NormaliserIsWSum(h, a);
    NormaliserIsWSum(h, b);
    WSumAppend(h, a, b, 0.0, Ones);
    NormaliserIsWSum(h, a + b);
  }

  /** The merge weight of a shard is its share of the total softmax mass. */
  lemma WeightIsShare(h: Head, part: real, total: real)
    requires h.Valid() && part > 0.0 && total > 0.0
    ensures h.math.exp(h.math.log(part) - h.math.log(total)) == part / total
  {
    var x, y := h.math.log(part), h.math.log(total);
    h.math.Sum(x - y, y, x);
    assert h.math.ExpOfLog(part) && h.math.ExpOfLog(total);
    assert h.math.exp(x - y) * total == part;
  }

  lemma SharesAdd(na: real, nb: real, za: real, zb: real, z: real)
    requires za > 0.0 && zb > 0.0 && z == za + zb
    ensures Blend(na / za, za / z, nb / zb, zb / z) == (na + nb) / z
  {
    Chain(na, za, z);
    Chain(nb, zb, z);
    assert na / z + nb / z == (na + nb) / z;
  }

  lemma Chain(n: real, d: real, z: real)
    requires d != 0.0 && z != 0.0
    ensures (n / d) * (d / z) == n / z
  {
    var a, b := n / d, d / z;
    assert a * d == n && b * z == d;
    assert (a * b) * z == n;
  }

  lemma MergedCoordinate(h: Head, a: seq<Token>, b: seq<Token>, j: nat)
    requires h.Valid() && h.Fits(a) && h.Fits(b) && a != [] && b != [] && j < h.dim
    requires h.Fits(a + b) && Normaliser(h, a + b) > 0.0
    ensures Blend(Dense(h, a)[j], Normaliser(h, a) / Normaliser(h, a + b),
                  Dense(h, b)[j], Normaliser(h, b) / Normaliser(h, a + b)) == Dense(h, a + b)[j]
  {
    AtOrigin(h, a, j);
    AtOrigin(h, b, j);
    AtOrigin(h, a + b, j);
    NormaliserAppend(h, a, b);
    var na, nb := WSum(h, a, 0.0, Coord(j)), WSum(h, b, 0.0, Coord(j));
    assert WSum(h, a + b, 0.0, Coord(j)) == na + nb by {
      WSumAppend(h, a, b, 0.0, Coord(j));
    }
    SharesAdd(na, nb, Normaliser(h, a), Normaliser(h, b), Normaliser(h, a + b));
  }

  lemma MergeNonempty(h: Head, a: seq<Token>, b: seq<Token>)
    requires h.Valid() && h.Fits(a) && h.Fits(b) && a != [] && b != []
    ensures h.Fits(a + b)
    ensures MergePair(h, PartialOf(h, a), PartialOf(h, b)) == PartialOf(h, a + b)
  {
    NormaliserAppend(h, a, b);
    NormaliserPositive(h, a);
    NormaliserPositive(h, b);
    var za, zb, z := Normaliser(h, a), Normaliser(h, b), Normaliser(h, a + b);
    assert LogAddExp(h.math, Some(h.math.log(za)), Some(h.math.log(zb))) == Some(h.math.log(z)) by {
      assert h.math.ExpOfLog(za) && h.math.ExpOfLog(zb);
    }
    WeightIsShare(h, za, z);
    WeightIsShare(h, zb, z);
    var v := MergePair(h, PartialOf(h, a), PartialOf(h, b)).out.v;
    forall j | 0 <= j < h.dim ensures v[j] == Dense(h, a + b)[j] {
      MergedCoordinate(h, a, b, j);
    }
    assert v == Dense(h, a + b);
  }

  lemma AtOrigin(h: Head, ts: seq<Token>, j: nat)
    requires h.Valid() && h.Fits(ts) && ts != [] && j < h.dim
    ensures Normaliser(h, ts) > 0.0
    ensures Dense(h, ts)[j] == WSum(h, ts, 0.0, Coord(j)) / Normaliser(h, ts)
  {
    NormaliserIsWSum(h, ts);
    DenseAnyReference(h, ts, 0.0, j);
  }

  lemma MergeWithEmpty(h: Head, a: seq<Token>)
    requires h.Valid() && h.Fits(a) && a != []
    ensures MergePair(h, PartialOf(h, a), PartialOf(h, [])) == PartialOf(h, a)
    ensures MergePair(h, PartialOf(h, []), PartialOf(h, a)) == PartialOf(h, a)
  {
    h.math.ExpZero();
    var x := PartialOf(h, a).lse.value;
    assert h.math.exp(x - x) == 1.0 by { assert x - x == 0.0; }
    assert MergePair(h, PartialOf(h, a), PartialOf(h, [])).out.v == Dense(h, a);
    assert MergePair(h, PartialOf(h, []), PartialOf(h, a)).out.v == Dense(h, a);
  }

  /** Two partials merge into the partial of the concatenated KV, exactly when there is any KV. */
  lemma MergePairExact(h: Head, a: seq<Token>, b: seq<Token>)
    requires h.Valid() && h.Fits(a) && h.Fits(b)
    ensures h.Fits(a + b)
    ensures MergePair(h, PartialOf(h, a), PartialOf(h, b)) == PartialOf(h, a + b) <==> a + b != []
    ensures a + b == [] ==> MergePair(h, PartialOf(h, a), PartialOf(h, b)) == Partial(NaN, None)
  {
    if a == [] {
      assert a + b == b;
      if b != [] {
        MergeWithEmpty(h, b);
      }
    } else if b == [] {
      assert a + b == a;
      MergeWithEmpty(h, a);
    } else {
      MergeNonempty(h, a, b);
    }
  }

  /** The form a running accumulator uses: something has been seen, so any block may follow. */
  lemma MergeGrows(h: Head, seen: seq<Token>, block: seq<Token>)
    requires h.Valid() && h.Fits(seen) && h.Fits(block) && seen + block != []
    ensures h.Fits(seen + block)
    ensures MergePair(h, PartialOf(h, seen), PartialOf(h, block)) == PartialOf(h, seen + block)
  {
    MergePairExact(h, seen, block);
  }

  /** A partial whose output has been lost to NaN keeps its lse. */
  function Spoiled(p: Partial, bad: bool): Partial {
    if bad then Partial(NaN, p.lse) else p
  }

  /** NaN spreads through every later merge, and is born only where both sides are empty. */
  lemma MergeSpoiled(h: Head, a: seq<Token>, badA: bool, b: seq<Token>, badB: bool)
    requires h.Valid() && h.Fits(a) && h.Fits(b)
    ensures h.Fits(a + b)
    ensures MergePair(h, Spoiled(PartialOf(h, a), badA), Spoiled(PartialOf(h, b), badB))
         == Spoiled(PartialOf(h, a + b), badA || badB || a + b == [])
  {
    MergePairExact(h, a, b);
    assert MergePair(h, PartialOf(h, a), PartialOf(h, b)).lse == PartialOf(h, a + b).lse;
  }

  // ---------------------------------------------------------------- every merge tree

  datatype Tree = Leaf(ts: seq<Token>) | Node(left: Tree, right: Tree) {
    function Tokens(): seq<Token> {
      match this
      case Leaf(ts) => ts
      case Node(l, r) => l.Tokens() + r.Tokens()
    }

    /** Some merge in the tree joins two sides without a single row. */
    predicate MergesNothing() {
      match this
      case Leaf(_) => false
      case Node(l, r) => l.MergesNothing() || r.MergesNothing() || l.Tokens() + r.Tokens() == []
    }

    predicate Fits(h: Head) {
      match this
      case Leaf(ts) => h.Fits(ts)
      case Node(l, r) => l.Fits(h) && r.Fits(h)
    }
  }

  function MergeTree(h: Head, t: Tree): (p: Partial)
    requires h.Valid() && t.Fits(h)
    ensures p.Shaped(h.dim)
  {
    match t
    case Leaf(ts) => PartialOf(h, ts)
    case Node(l, r) => MergePair(h, MergeTree(h, l), MergeTree(h, r))
  }

  /** However the KV is cut and in whatever shape the cuts are merged, the root is the partial of
      the whole KV; the one way to lose it is to merge two empty sides somewhere. */
  lemma {:induction false} MergeTreeExact(h: Head, t: Tree)
    requires h.Valid() && t.Fits(h)
    ensures h.Fits(t.Tokens())
    ensures MergeTree(h, t) == Spoiled(PartialOf(h, t.Tokens()), t.MergesNothing())
    ensures MergeTree(h, t) == PartialOf(h, t.Tokens()) <==> !t.MergesNothing()
  {
    match t
    case Leaf(_) =>
    case Node(l, r) =>
      MergeTreeExact(h, l);
      MergeTreeExact(h, r);
      MergeSpoiled(h, l.Tokens(), l.MergesNothing(), r.Tokens(), r.MergesNothing());
  }

  // ---------------------------------------------------------------- drivers

  /** Each device reduces its own resident KV; only the two partials meet. */
  function PeerParallelStep(h: Head, local: seq<Token>, peer: seq<Token>): Out
    requires h.Valid() && h.Fits(local) && h.Fits(peer)
  {
    MergePair(h, PartialOf(h, local), PartialOf(h, peer)).out
  }

  /** Folding the next slice of the peer KV extends what has been folded by exactly that slice. */
  lemma FoldSlice(h: Head, local: seq<Token>, peer: seq<Token>, s: nat, e: nat)
    requires h.Valid() && h.Fits(local) && h.Fits(peer) && s < e <= |peer|
    ensures h.Fits(local + peer[..s]) && h.Fits(peer[s..e]) && h.Fits(local + peer[..e])
    ensures local + peer[..s] + peer[s..e] == local + peer[..e]
    ensures MergePair(h, PartialOf(h, local + peer[..s]), PartialOf(h, peer[s..e])) == PartialOf(h, local + peer[..e])
  {
    AppendAssoc(local, peer[..s], peer[s..e]);
    assert peer[..s] + peer[s..e] == peer[..e];
    MergeGrows(h, local + peer[..s], peer[s..e]);
  }

  /** The baseline: stream the peer KV back `size` rows at a time and fold each slice in. */
  method CopybackStep(h: Head, local: seq<Token>, peer: seq<Token>, size: nat) returns (out: Out)
    requires h.Valid() && h.Fits(local) && h.Fits(peer)
    requires size >= 1
    ensures h.Fits(local + peer)
    ensures out == PartialOf(h, local + peer).out
  {
    var acc := PartialOf(h, local);
    ghost var done := local;
    var s := 0;
    while s < |peer|
      invariant 0 <= s
      invariant done == local + peer[..if s < |peer| then s else |peer|]
      invariant h.Fits(done) && acc == PartialOf(h, done)
    {
      var e := if s + size < |peer| then s + size else |peer|;
      var chunk := peer[s..e];
      FoldSlice(h, local, peer, s, e);
      acc := MergePair(h, acc, PartialOf(h, chunk));
      done := done + chunk;
      s := s + size;
    }
    assert peer[..|peer|] == peer;
    out := acc.out;
  }

  /** Peer-parallel computes dense attention over all the KV, and therefore what copy-back computes
      for every slice size, exactly when there is any KV at all. */
  lemma PeerParallelExact(h: Head, local: seq<Token>, peer: seq<Token>)
    requires h.Valid() && h.Fits(local) && h.Fits(peer)
    ensures h.Fits(local + peer)
    ensures PeerParallelStep(h, local, peer) == PartialOf(h, local + peer).out <==> local + peer != []
    ensures local + peer != [] ==> PeerParallelStep(h, local, peer) == Finite(Dense(h, local + peer))
  {
    MergePairExact(h, local, peer);
  }

  datatype Outcome = Raised | Returned(out: Out)

  /** The left-to-right fold of a nonempty shard list. */
  function FoldShards(h: Head, shards: seq<seq<Token>>): (p: Partial)
    requires h.Valid() && shards != [] && AllFit(h, shards)
    ensures p.Shaped(h.dim)
  {
    var n := |shards| - 1;
    if n == 0 then PartialOf(h, shards[0])
    else MergePair(h, FoldShards(h, shards[..n]), PartialOf(h, shards[n]))
  }

  lemma {:induction false} FoldShardsExact(h: Head, shards: seq<seq<Token>>)
    requires h.Valid() && shards != [] && AllFit(h, shards)
    ensures h.Fits(Concat(shards))
    ensures FoldShards(h, shards) == Spoiled(PartialOf(h, Concat(shards)), LeadsEmpty(shards))
  {
    ConcatFits(h, shards);
    var n := |shards| - 1;
    var init, last := shards[..n], shards[n];
    assert Concat(shards) == Concat(init) + last;
    if n == 0 {
      assert Concat(init) == [] && [] + last == last;
    } else {
      FoldShardsExact(h, init);
      assert shards == init + [last];
      LeadsEmptyGrows(init, last);
      assert FoldShards(h, shards) == MergePair(h, FoldShards(h, init), PartialOf(h, last));
      MergeSpoiled(h, Concat(init), LeadsEmpty(init), last, false);
    }
  }

  /** Attention over any list of shards, wherever they live, folded left to right. An empty list
      raises; two leading empty shards turn the accumulator into NaN; otherwise the result is dense. */
  method PeerParallelAttention(h: Head, shards: seq<seq<Token>>) returns (r: Outcome)
    requires h.Valid() && AllFit(h, shards)
    ensures h.Fits(Concat(shards))
    ensures r.Raised? <==> shards == []
    ensures shards != [] ==>
      r.out == if LeadsEmpty(shards) then NaN else PartialOf(h, Concat(shards)).out
  {
    ConcatFits(h, shards);
    if shards == [] {
      return Raised;
    }
    var acc: Option<Partial> := None;
    for i := 0 to |shards|
      invariant acc == if i == 0 then None else Some(FoldShards(h, shards[..i]))
    {
      var p := PartialOf(h, shards[i]);
      assert shards[..i + 1][..i] == shards[..i];
      if acc.None? {
        acc := Some(p);
      } else {
        acc := Some(MergePair(h, acc.value, p));
      }
    }
    assert shards[..|shards|] == shards;
    FoldShardsExact(h, shards);
    r := Returned(acc.value.out);
  }

  predicate LeadsEmpty(shards: seq<seq<Token>>) {
    |shards| >= 2 && shards[0] == [] && shards[1] == []
  }

  lemma LeadsEmptyGrows(xs: seq<seq<Token>>, x: seq<Token>)
    requires xs != []
    ensures LeadsEmpty(xs + [x]) <==> LeadsEmpty(xs) || Concat(xs) + x == []
  {
    var n := |xs| - 1;
    if |xs| == 1 {
      assert Concat(xs) == Concat(xs[..0]) + xs[0] == xs[0];
    } else if Concat(xs) == [] {
      ConcatEmpty(xs, 0);
      ConcatEmpty(xs, 1);
    }
  }

  lemma {:induction false} ConcatEmpty<T>(xs: seq<seq<T>>, i: nat)
    requires Concat(xs) == [] && i < |xs|
    ensures xs[i] == []
  {
    var n := |xs| - 1;
    assert Concat(xs[..n]) == [] && xs[n] == [];
    if i < n {
      ConcatEmpty(xs[..n], i);
    }
  }

  /** Shard order is irrelevant: the partial depends on the rows only as a bag. */
  lemma PartialPermutation(h: Head, a: seq<Token>, b: seq<Token>)
    requires h.Valid() && h.Fits(a) && multiset(a) == multiset(b)
    ensures h.Fits(b) && PartialOf(h, a) == PartialOf(h, b)
  {
    FitsPermutation(h, a, b);
    assert |multiset(a)| == |a| && |multiset(b)| == |b|;
    if a != [] {
      DensePermutation(h, a, b);
      NormaliserIsWSum(h, a);
      NormaliserIsWSum(h, b);
      WSumPermutation(h, a, b, 0.0, Ones);
    }
  }

  /** The two running forms agree: O = o / l and lse = m + log l. */
  lemma StreamingIsPartial(h: Head, st: State, ts: seq<Token>)
    requires h.Valid() && h.Fits(ts) && ts != [] && Summarises(h, st, ts)
    ensures PartialOf(h, ts) == Partial(Finite(Finish(h, st)), Some(st.m.value + h.math.log(st.l)))
  {
    FinishIsDense(h, st, ts);
    NormaliserIsWSum(h, ts);
    WSumRebase(h, ts, st.m.value, 0.0, Ones);
    assert st.m.value - 0.0 == st.m.value;
    h.math.LogScaled(st.m.value, st.l, Normaliser(h, ts));
  }
}
