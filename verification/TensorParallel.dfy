/** Two-way tensor parallelism: heads, KV heads and MLP columns split across two ranks, output
    projections split by rows, and two all-reduces per layer. It must compute the unsharded layer. */
module TensorParallel {
  import opened Arithmetic
  import opened LinearAlgebra

  /** Head count, KV-head count, head width and MLP width, as one rank (or the single GPU) sees them. */
  datatype Shape = Shape(heads: nat, kvHeads: nat, headDim: nat, ffn: nat) {
    /** What scaled_dot_product_attention needs: whole groups of query heads per KV head. */
    predicate Valid() {
      kvHeads > 0 && heads > 0 && heads % kvHeads == 0
    }

    function Group(): nat
      requires kvHeads > 0
    {
      heads / kvHeads
    }

    /** The half of the work one rank does. */
    function Rank(): Shape {
      Shape(heads / 2, kvHeads / 2, headDim, ffn / 2)
    }

    predicate Splits() {
      Valid() && heads % 2 == 0 && kvHeads % 2 == 0 && ffn % 2 == 0
    }
  }

  /** The operations the model takes as given: attention of one query head over one KV head, the
      activation, and the reciprocal square root. */
  datatype Ops<!KV(!new)> = Ops(attend: (Vec, KV) -> Vec, silu: real -> real, rsqrt: real -> real) {
    predicate KeepsWidth(q: Vec, kv: KV) {
      |attend(q, kv)| == |q|
    }

    ghost predicate Valid() {
      forall q, kv :: KeepsWidth(q, kv)
    }
  }

  datatype Layer<KV(!new)> = Layer(norm1: Vec, wqkv: Matrix, kv: seq<KV>, wo: Matrix,
                             norm2: Vec, wg: Matrix, wu: Matrix, wd: Matrix)

  /** The weights fit a model width `dm`: the QKV projection yields at least the query columns. */
  predicate Fits<KV(!new)>(l: Layer<KV>, s: Shape, dm: nat) {
    && |l.norm1| == |l.norm2| == dm
    && |l.wqkv| == dm && Covers(l.wqkv, s.heads * s.headDim)
    && |l.kv| == s.kvHeads
    && IsMatrix(l.wo, s.heads * s.headDim, dm)
    && IsMatrix(l.wg, dm, s.ffn) && IsMatrix(l.wu, dm, s.ffn) && IsMatrix(l.wd, s.ffn, dm)
  }

  // ---------------------------------------------------------------- one branch at a time

  function SumOfSquares(x: Vec): real {
    if x == [] then 0.0 else SumOfSquares(x[..|x| - 1]) + x[|x| - 1] * x[|x| - 1]
  }

  function RmsNorm<KV(!new)>(ops: Ops<KV>, x: Vec, gain: Vec): (r: Vec)
    requires |x| == |gain| > 0
    ensures |r| == |x|
  {
    var scale := ops.rsqrt(SumOfSquares(x) / |x| as real + 0.00001);
    seq(|x|, i requires 0 <= i < |x| => x[i] * scale * gain[i])
  }

  /** A flat query row seen as n heads of equal width. */
  function View(q: Vec, n: nat, width: nat): (qs: seq<Vec>)
    requires n * width <= |q|
    ensures |qs| == n && forall i | 0 <= i < n :: |qs[i]| == width
  {
    if n == 0 then []
    else
      Distribute(n - 1, 1, width);
      View(q, n - 1, width) + [q[(n - 1) * width..(n - 1) * width + width]]
  }

  lemma Distribute(a: nat, b: nat, width: nat)
    ensures (a + b) * width == a * width + b * width && 0 <= a * width && 0 <= b * width
  {
  }

  function Repeat<T>(x: T, n: nat): (r: seq<T>)
    ensures |r| == n
  {
    if n == 0 then [] else Repeat(x, n - 1) + [x]
  }

  /** Grouped-query attention: every KV head repeated for each query head of its group. */
  function Expand<T>(kv: seq<T>, group: nat): (r: seq<T>)
    ensures |r| == |kv| * group
  {
    if kv == [] then []
    else
      Distribute(|kv| - 1, 1, group);
      Expand(kv[..|kv| - 1], group) + Repeat(kv[|kv| - 1], group)
  }

  /** Every head attends to its own KV head; the outputs are flattened back into a row. */
  function Attend<KV(!new)>(ops: Ops<KV>, qs: seq<Vec>, kv: seq<KV>): Vec
    requires |qs| == |kv|
  {
    if qs == [] then []
    else
      var n := |qs| - 1;
      Attend(ops, qs[..n], kv[..n]) + ops.attend(qs[n], kv[n])
  }

  lemma {:induction false} AttendWidth<KV(!new)>(ops: Ops<KV>, qs: seq<Vec>, kv: seq<KV>, width: nat)
    requires ops.Valid() && |qs| == |kv| && forall i | 0 <= i < |qs| :: |qs[i]| == width
    ensures |Attend(ops, qs, kv)| == |qs| * width
  {
    if qs != [] {
      var n := |qs| - 1;
      AttendWidth(ops, qs[..n], kv[..n], width);
      assert ops.KeepsWidth(qs[n], kv[n]);
      Distribute(n, 1, width);
    }
  }

  lemma DivUnique(a: nat, b: nat, q: nat, r: nat)
    requires b > 0 && a == b * q + r && r < b
    ensures a / b == q
  {
    var q' := a / b;
    if q' < q {
      MulMono(q' + 1, q, b);
    } else if q' > q {
      MulMono(q + 1, q', b);
    }
  }

  function Gated<KV(!new)>(ops: Ops<KV>, a: real, b: real): real {
    ops.silu(a) * b
  }

  function Silu<KV(!new)>(ops: Ops<KV>, a: Vec, b: Vec): (r: Vec)
    requires |a| == |b|
    ensures |r| == |a|
  {
    seq(|a|, i requires 0 <= i < |a| => Gated(ops, a[i], b[i]))
  }

  /** Attention of a flat query row of n heads over KV heads shared by groups of query heads. */
  function MixHeads<KV(!new)>(ops: Ops<KV>, q: Vec, n: nat, width: nat, kv: seq<KV>, group: nat): (r: Vec)
    requires ops.Valid() && |q| == n * width && |kv| * group == n
    ensures |r| == |q|
  {
    var qs, ks := View(q, n, width), Expand(kv, group);
    AttendWidth(ops, qs, ks, width);
    Attend(ops, qs, ks)
  }

  /** scaled_dot_product_attention on a flat query row. */
  function Mix<KV(!new)>(ops: Ops<KV>, q: Vec, s: Shape, kv: seq<KV>): (r: Vec)
    requires ops.Valid() && s.Valid() && |q| == s.heads * s.headDim && |kv| == s.kvHeads
    ensures |r| == |q|
  {
    WholeGroups(s);
    MixHeads(ops, q, s.heads, s.headDim, kv, s.Group())
  }

  /** Norm, QKV, attention, output projection: what the layer adds to x first. */
  function AttentionBranch<KV(!new)>(ops: Ops<KV>, l: Layer<KV>, s: Shape, x: Vec): (r: Vec)
    requires ops.Valid() && s.Valid() && |x| > 0 && Fits(l, s, |x|)
    ensures |r| == |x|
  {
    WholeGroups(s);
    var q := Apply(RmsNorm(ops, x, l.norm1), l.wqkv, s.heads * s.headDim);
    Apply(Mix(ops, q, s, l.kv), l.wo, |x|)
  }

  /** Norm, gated MLP, down projection: what the layer adds second. */
  function MlpBranch<KV(!new)>(ops: Ops<KV>, l: Layer<KV>, s: Shape, x: Vec): (r: Vec)
    requires |x| > 0 && Fits(l, s, |x|)
    ensures |r| == |x|
  {
    var g := RmsNorm(ops, x, l.norm2);
    Apply(Silu(ops, Apply(g, l.wg, s.ffn), Apply(g, l.wu, s.ffn)), l.wd, |x|)
  }

  lemma WholeGroups(s: Shape)
    requires s.Valid()
    ensures s.heads == s.Group() * s.kvHeads && s.Group() > 0
  {
  }

  // ---------------------------------------------------------------- layers

  /** The single-GPU layer. */
  function SingleLayer<KV(!new)>(ops: Ops<KV>, l: Layer<KV>, s: Shape, x: Vec): (r: Vec)
    requires ops.Valid() && s.Valid() && |x| > 0 && Fits(l, s, |x|)
    ensures |r| == |x|
  {
    var x1 := Plus(x, AttentionBranch(ops, l, s, x));
    Plus(x1, MlpBranch(ops, l, s, x1))
  }

  /** The sharded layer: each rank computes both branches on its half, and the halves are summed and
      handed to both ranks twice. */
  function ShardedLayer<KV(!new)>(ops: Ops<KV>, l0: Layer<KV>, l1: Layer<KV>, r: Shape, x0: Vec, x1: Vec): (y: (Vec, Vec))
    requires ops.Valid() && r.Valid() && |x0| == |x1| > 0 && Fits(l0, r, |x0|) && Fits(l1, r, |x1|)
    ensures |y.0| == |y.1| == |x0|
  {
    var o := Plus(AttentionBranch(ops, l0, r, x0), AttentionBranch(ops, l1, r, x1));
    var y0, y1 := Plus(x0, o), Plus(x1, o);
    var m := Plus(MlpBranch(ops, l0, r, y0), MlpBranch(ops, l1, r, y1));
    (Plus(y0, m), Plus(y1, m))
  }

  /** The two ranks' layers are the halves of the full one: replicated norms, query columns and MLP
      columns side by side, output rows stacked, KV heads concatenated. The new token's own K and V
      columns of the projection are computed but never read, so nothing is asked of them. */
  predicate Sharded<KV(!new,==)>(l: Layer<KV>, s: Shape, l0: Layer<KV>, l1: Layer<KV>) {
    var r := s.Rank();
    && l.norm1 == l0.norm1 == l1.norm1 && l.norm2 == l0.norm2 == l1.norm2
    && SideBySide(l.wqkv, l0.wqkv, r.heads * r.headDim, l1.wqkv, r.heads * r.headDim)
    && l.kv == l0.kv + l1.kv
    && l.wo == l0.wo + l1.wo
    && SideBySide(l.wg, l0.wg, r.ffn, l1.wg, r.ffn)
    && SideBySide(l.wu, l0.wu, r.ffn, l1.wu, r.ffn)
    && l.wd == l0.wd + l1.wd
  }

  // ---------------------------------------------------------------- splitting the heads

  lemma ViewLast(q: Vec, n: nat, width: nat, at: nat)
    requires n > 0 && at == (n - 1) * width && n * width <= |q|
    ensures at + width <= |q| && (n - 1) * width <= |q|
    ensures View(q, n, width) == View(q, n - 1, width) + [q[at..at + width]]
  {
    Distribute(n - 1, 1, width);
  }

  lemma LeftHead(a: Vec, b: Vec, lo: nat, width: nat)
    ensures lo + width <= |a| ==> (a + b)[lo..lo + width] == a[lo..lo + width]
  {
  }

  lemma {:induction false} ViewPrefix(a: Vec, b: Vec, n: nat, width: nat)
    requires n * width <= |a|
    ensures View(a + b, n, width) == View(a, n, width)
  {
    if n > 0 {
      var at := (n - 1) * width;
      ViewLast(a, n, width, at);
      ViewLast(a + b, n, width, at);
      LeftHead(a, b, at, width);
      ViewPrefix(a, b, n - 1, width);
    }
  }

  lemma RightHead(a: Vec, b: Vec, lo: nat, width: nat)
    ensures lo + width <= |b| ==> (a + b)[|a| + lo..|a| + lo + width] == b[lo..lo + width]
  {
  }

  /** The heads of two half rows, side by side, are the heads of the whole row. */
  lemma {:induction false} ViewSplit(a: Vec, b: Vec, n: nat, m: nat, width: nat)
    requires |a| == n * width && m * width <= |b|
    ensures (n + m) * width <= |a + b|
    ensures View(a + b, n + m, width) == View(a, n, width) + View(b, m, width)
  {
    Distribute(n, m, width);
    if m == 0 {
      ViewPrefix(a, b, n, width);
    } else {
      var at := (m - 1) * width;
      Distribute(m - 1, 1, width);
      Distribute(n, m - 1, width);
      ViewSplit(a, b, n, m - 1, width);
      ViewLast(a + b, n + m, width, |a| + at);
      ViewLast(b, m, width, at);
      RightHead(a, b, at, width);
    }
  }

  lemma ExpandLast<T>(kv: seq<T>, x: T, group: nat)
    ensures Expand(kv + [x], group) == Expand(kv, group) + Repeat(x, group)
  {
    assert (kv + [x])[..|kv|] == kv;
  }

  /** Grouping does not straddle the cut between two lists of KV heads. */
  lemma {:induction false} ExpandSplit<T>(ka: seq<T>, kb: seq<T>, group: nat)
    ensures Expand(ka + kb, group) == Expand(ka, group) + Expand(kb, group)
  {
    if kb == [] {
      assert ka + kb == ka;
      assert Expand(ka, group) + [] == Expand(ka, group);
    } else {
      var kp, x := kb[..|kb| - 1], kb[|kb| - 1];
      ExpandSplit(ka, kp, group);
      assert kb == kp + [x];
      AppendAssoc(ka, kp, [x]);
      ExpandLast(ka + kp, x, group);
      ExpandLast(kp, x, group);
      AppendAssoc(Expand(ka, group), Expand(kp, group), Repeat(x, group));
    }
  }

  lemma {:induction false} AttendSplit<KV(!new)>(ops: Ops<KV>, qa: seq<Vec>, qb: seq<Vec>, ka: seq<KV>, kb: seq<KV>)
    requires |qa| == |ka| && |qb| == |kb|
    ensures Attend(ops, qa + qb, ka + kb) == Attend(ops, qa, ka) + Attend(ops, qb, kb)
  {
    if qb == [] {
      assert qa + qb == qa && ka + kb == ka;
    } else {
      var m := |qb| - 1;
      AttendSplit(ops, qa, qb[..m], ka, kb[..m]);
      assert (qa + qb)[..|qa| + m] == qa + qb[..m];
      assert (ka + kb)[..|ka| + m] == ka + kb[..m];
    }
  }

  lemma RankShape(s: Shape)
    requires s.Splits()
    ensures s.Rank().Valid() && s.Rank().Group() == s.Group()
    ensures s.heads == s.Rank().heads + s.Rank().heads && s.ffn == s.Rank().ffn + s.Rank().ffn
    ensures s.heads * s.headDim == s.Rank().heads * s.headDim + s.Rank().heads * s.headDim
    ensures s.Rank().heads == s.Group() * (s.kvHeads / 2)
  {
    WholeGroups(s);
    var g, k := s.Group(), s.kvHeads / 2;
    assert s.heads == g * (k + k) == 2 * (g * k);
    assert s.heads / 2 == g * k;
    DivUnique(g * k, k, g, 0);
  }

  /** Attention over all heads is the two ranks' attention, side by side. */
  lemma MixHeadsSplit<KV(!new)>(ops: Ops<KV>, q0: Vec, q1: Vec, n: nat, width: nat, k0: seq<KV>, k1: seq<KV>, group: nat)
    requires ops.Valid() && |q0| == |q1| == n * width && |k0| * group == |k1| * group == n
    ensures |q0 + q1| == (n + n) * width && |k0 + k1| * group == n + n
    ensures MixHeads(ops, q0 + q1, n + n, width, k0 + k1, group)
         == MixHeads(ops, q0, n, width, k0, group) + MixHeads(ops, q1, n, width, k1, group)
  {
    Distribute(n, n, width);
    Distribute(|k0|, |k1|, group);
    ViewSplit(q0, q1, n, n, width);
    ExpandSplit(k0, k1, group);
    AttendSplit(ops, View(q0, n, width), View(q1, n, width), Expand(k0, group), Expand(k1, group));
  }

  lemma MixSplits<KV(!new)>(ops: Ops<KV>, q0: Vec, q1: Vec, s: Shape, k0: seq<KV>, k1: seq<KV>)
    requires ops.Valid() && s.Splits() && |q0| == |q1| == s.Rank().heads * s.headDim
    requires |k0| == |k1| == s.Rank().kvHeads
    ensures s.Rank().Valid() && |q0 + q1| == s.heads * s.headDim && |k0 + k1| == s.kvHeads
    ensures Mix(ops, q0 + q1, s, k0 + k1) == Mix(ops, q0, s.Rank(), k0) + Mix(ops, q1, s.Rank(), k1)
  {
    RankShape(s);
    MixHeadsSplit(ops, q0, q1, s.Rank().heads, s.headDim, k0, k1, s.Group());
  }

  // ---------------------------------------------------------------- the two branches

  lemma QueriesSplit<KV(!new)>(l: Layer<KV>, l0: Layer<KV>, l1: Layer<KV>, s: Shape, h: Vec)
    requires s.Splits() && |h| > 0 && Sharded(l, s, l0, l1)
    requires Fits(l, s, |h|) && Fits(l0, s.Rank(), |h|) && Fits(l1, s.Rank(), |h|)
    ensures var half := s.Rank().heads * s.headDim;
      Apply(h, l.wqkv, s.heads * s.headDim) == Apply(h, l0.wqkv, half) + Apply(h, l1.wqkv, half)
  {
    RankShape(s);
    var half := s.Rank().heads * s.headDim;
    ApplySideBySide(h, l.wqkv, l0.wqkv, half, l1.wqkv, half);
  }

  lemma AttentionBranchSplits<KV(!new)>(ops: Ops<KV>, l: Layer<KV>, l0: Layer<KV>, l1: Layer<KV>, s: Shape, x: Vec)
    requires ops.Valid() && s.Splits() && |x| > 0 && Sharded(l, s, l0, l1)
    requires Fits(l, s, |x|) && Fits(l0, s.Rank(), |x|) && Fits(l1, s.Rank(), |x|)
    ensures s.Rank().Valid()
    ensures AttentionBranch(ops, l, s, x)
         == Plus(AttentionBranch(ops, l0, s.Rank(), x), AttentionBranch(ops, l1, s.Rank(), x))
  {
    RankShape(s);
    var r, h := s.Rank(), RmsNorm(ops, x, l.norm1);
    var half := r.heads * r.headDim;
    QueriesSplit(l, l0, l1, s, h);
    var q0, q1 := Apply(h, l0.wqkv, half), Apply(h, l1.wqkv, half);
    MixSplits(ops, q0, q1, s, l0.kv, l1.kv);
    ApplyStacked(Mix(ops, q0, r, l0.kv), Mix(ops, q1, r, l1.kv), l0.wo, l1.wo, |x|);
  }

  lemma SiluAppend<KV(!new)>(ops: Ops<KV>, a0: Vec, a1: Vec, b0: Vec, b1: Vec)
    requires |a0| == |b0| && |a1| == |b1|
    ensures Silu(ops, a0 + a1, b0 + b1) == Silu(ops, a0, b0) + Silu(ops, a1, b1)
  {
    var l, r := Silu(ops, a0 + a1, b0 + b1), Silu(ops, a0, b0) + Silu(ops, a1, b1);
    forall i | 0 <= i < |l| ensures l[i] == r[i] {
      if i < |a0| {
        assert (a0 + a1)[i] == a0[i] && (b0 + b1)[i] == b0[i];
      } else {
        assert (a0 + a1)[i] == a1[i - |a0|] && (b0 + b1)[i] == b1[i - |a0|];
      }
    }
  }

  lemma MlpBranchSplits<KV(!new)>(ops: Ops<KV>, l: Layer<KV>, l0: Layer<KV>, l1: Layer<KV>, s: Shape, x: Vec)
    requires s.Splits() && |x| > 0 && Sharded(l, s, l0, l1)
    requires Fits(l, s, |x|) && Fits(l0, s.Rank(), |x|) && Fits(l1, s.Rank(), |x|)
    ensures MlpBranch(ops, l, s, x) == Plus(MlpBranch(ops, l0, s.Rank(), x), MlpBranch(ops, l1, s.Rank(), x))
  {
    RankShape(s);
    var f, g := s.Rank().ffn, RmsNorm(ops, x, l.norm2);
    ApplySideBySide(g, l.wg, l0.wg, f, l1.wg, f);
    ApplySideBySide(g, l.wu, l0.wu, f, l1.wu, f);
    SiluAppend(ops, Apply(g, l0.wg, f), Apply(g, l1.wg, f), Apply(g, l0.wu, f), Apply(g, l1.wu, f));
    ApplyStacked(Silu(ops, Apply(g, l0.wg, f), Apply(g, l0.wu, f)),
                 Silu(ops, Apply(g, l1.wg, f), Apply(g, l1.wu, f)), l0.wd, l1.wd, |x|);
  }

  /** After one sharded layer both ranks hold what the single GPU holds. */
  lemma LayerAgrees<KV(!new)>(ops: Ops<KV>, l: Layer<KV>, l0: Layer<KV>, l1: Layer<KV>, s: Shape, x: Vec)
    requires ops.Valid() && s.Splits() && |x| > 0 && Sharded(l, s, l0, l1)
    requires Fits(l, s, |x|) && Fits(l0, s.Rank(), |x|) && Fits(l1, s.Rank(), |x|)
    ensures s.Rank().Valid()
    ensures var y := SingleLayer(ops, l, s, x); ShardedLayer(ops, l0, l1, s.Rank(), x, x) == (y, y)
  {
    AttentionBranchSplits(ops, l, l0, l1, s, x);
    MlpBranchSplits(ops, l, l0, l1, s, Plus(x, AttentionBranch(ops, l, s, x)));
  }

  // ---------------------------------------------------------------- any depth

  predicate AllFit<KV(!new)>(ls: seq<Layer<KV>>, s: Shape, dm: nat) {
    forall i | 0 <= i < |ls| :: Fits(ls[i], s, dm)
  }

  function SingleDeep<KV(!new)>(ops: Ops<KV>, ls: seq<Layer<KV>>, s: Shape, x: Vec): (y: Vec)
    requires ops.Valid() && s.Valid() && |x| > 0 && AllFit(ls, s, |x|)
    ensures |y| == |x|
  {
    if ls == [] then x
    else SingleLayer(ops, ls[|ls| - 1], s, SingleDeep(ops, ls[..|ls| - 1], s, x))
  }

  method SgToken<KV(!new)>(ops: Ops<KV>, ls: seq<Layer<KV>>, s: Shape, x0: Vec) returns (x: Vec)
    requires ops.Valid() && s.Valid() && |x0| > 0 && AllFit(ls, s, |x0|)
    ensures x == SingleDeep(ops, ls, s, x0)
  {
    x := x0;
    for i := 0 to |ls|
      invariant |x| == |x0| && x == SingleDeep(ops, ls[..i], s, x0)
    {
      assert ls[..i + 1][..i] == ls[..i];
      var l := ls[i];
      x := Plus(x, AttentionBranch(ops, l, s, x));
      x := Plus(x, MlpBranch(ops, l, s, x));
    }
    assert ls[..|ls|] == ls;
  }

  /** Both ranks, layer after layer, from the same embedding: at every depth each holds exactly the
      single-GPU activation. */
  method TpToken<KV(!new)>(ops: Ops<KV>, ls0: seq<Layer<KV>>, ls1: seq<Layer<KV>>, x: Vec, s: Shape,
                           ghost ls: seq<Layer<KV>>) returns (y0: Vec, y1: Vec)
    requires ops.Valid() && s.Splits() && |x| > 0 && |ls0| == |ls1| == |ls| && AllFit(ls, s, |x|)
    requires AllFit(ls0, s.Rank(), |x|) && AllFit(ls1, s.Rank(), |x|)
    requires forall i | 0 <= i < |ls| :: Sharded(ls[i], s, ls0[i], ls1[i])
    ensures y0 == y1 == SingleDeep(ops, ls, s, x)
  {
    RankShape(s);
    y0, y1 := x, x;
    for i := 0 to |ls0|
      invariant y0 == y1 == SingleDeep(ops, ls[..i], s, x)
    {
      assert ls[..i + 1][..i] == ls[..i];
      LayerAgrees(ops, ls[i], ls0[i], ls1[i], s, y0);
      var y := ShardedLayer(ops, ls0[i], ls1[i], s.Rank(), y0, y1);
      y0, y1 := y.0, y.1;
    }
    assert ls[..|ls|] == ls;
  }
}
