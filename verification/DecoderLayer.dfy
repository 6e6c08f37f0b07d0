/** What the parts that the single-GPU and the sharded layer have in common compute: the normalisation,
    the grouped heads, the gated MLP and the order in which a layer puts them together. */
module DecoderLayer {
  import opened Arithmetic
  import opened LinearAlgebra
  import opened TensorParallel

  // ---------------------------------------------------------------- normalisation

  /** A row as a matrix of one column. */
  function Column(x: Vec): (w: Matrix)
    ensures |w| == |x| && forall i | 0 <= i < |x| :: w[i] == [x[i]]
  {
    if x == [] then [] else Column(x[..|x| - 1]) + [[x[|x| - 1]]]
  }

  lemma {:induction false} SquaresAreProduct(x: Vec)
    ensures Covers(Column(x), 1) && SumOfSquares(x) == Entry(x, Column(x), 0)
  {
    if x != [] {
      var n := |x| - 1;
      SquaresAreProduct(x[..n]);
      assert Column(x)[..n] == Column(x[..n]);
    }
  }

  lemma ScaledAt(c: real, x: Vec, y: Vec, i: nat)
    requires Scaled(c, x, y) && i < |x|
    ensures Scaled(c, [x[i]], [y[i]])
  {
  }

  lemma ScaledPlaces(c: real, x: Vec, y: Vec)
    requires |x| == |y| && forall i | 0 <= i < |x| :: Scaled(c, [x[i]], [y[i]])
    ensures ScaledRows(c, Column(x), Column(y))
  {
  }

  lemma ColumnScaled(c: real, x: Vec, y: Vec)
    requires Scaled(c, x, y)
    ensures ScaledRows(c, Column(x), Column(y))
  {
    forall i | 0 <= i < |x| ensures Scaled(c, [x[i]], [y[i]]) {
      ScaledAt(c, x, y, i);
    }
    ScaledPlaces(c, x, y);
  }

  /** Scaling a row by c scales the sum of its squares by c twice. */
  lemma SumOfSquaresScaled(c: real, x: Vec, y: Vec) returns (once: real)
    requires Scaled(c, x, y)
    ensures SumOfSquares(y) == c * once && once == c * SumOfSquares(x)
  {
    SquaresAreProduct(x);
    SquaresAreProduct(y);
    ColumnScaled(c, x, y);
    once := ProductScaledTwice(c, x, y, Column(x), Column(y));
  }

  lemma ProductScaledTwice(c: real, x: Vec, y: Vec, w: Matrix, w': Matrix) returns (once: real)
    requires |x| == |w| && Covers(w, 1) && Covers(w', 1) && Scaled(c, x, y) && ScaledRows(c, w, w')
    ensures Entry(y, w', 0) == c * once && once == c * Entry(x, w, 0)
  {
    once := Entry(x, w', 0);
    EntryScaled(c, x, y, w', 0);
    EntryScaledRows(c, x, w, w', 0);
  }

  lemma {:induction false} SumOfSquaresPositive(x: Vec)
    ensures SumOfSquares(x) >= 0.0
  {
    if x != [] {
      SumOfSquaresPositive(x[..|x| - 1]);
      assert x[|x| - 1] * x[|x| - 1] >= 0.0;
    }
  }

  function MeanSquare(x: Vec): real
    requires x != []
  {
    SumOfSquares(x) / |x| as real
  }

  /** The normalised row is linear in the gain. */
  lemma NormIsLinearInGain<KV(!new)>(ops: Ops<KV>, x: Vec, c: real, a: Vec, a': Vec, b: Vec)
    requires |x| == |a| == |b| > 0 && Scaled(c, a, a')
    ensures Scaled(c, RmsNorm(ops, x, a), RmsNorm(ops, x, a'))
    ensures RmsNorm(ops, x, Plus(a, b)) == Plus(RmsNorm(ops, x, a), RmsNorm(ops, x, b))
  {
    var scale := ops.rsqrt(MeanSquare(x) + 0.00001);
    forall i | 0 <= i < |x|
      ensures RmsNorm(ops, x, a')[i] == c * RmsNorm(ops, x, a)[i]
      ensures RmsNorm(ops, x, Plus(a, b))[i] == RmsNorm(ops, x, a)[i] + RmsNorm(ops, x, b)[i]
    {
      Regroup(x[i] * scale, c, a[i], b[i]);
    }
  }

  lemma Regroup(k: real, c: real, a: real, b: real)
    ensures k * (c * a) == c * (k * a)
    ensures k * (a + b) == k * a + k * b
    ensures c * k * a == c * (k * a)
  {
  }

  /** What makes `rsqrt` the reciprocal of the square root. */
  ghost predicate IsRsqrt(rsqrt: real -> real) {
    forall t :: t > 0.0 ==> RsqrtAt(rsqrt, t)
  }

  predicate RsqrtAt(rsqrt: real -> real, t: real) {
    rsqrt(t) > 0.0 && rsqrt(t) * rsqrt(t) * t == 1.0
  }

  lemma NormScales<KV(!new)>(ops: Ops<KV>, x: Vec, ones: Vec, t: real) returns (c: real)
    requires IsRsqrt(ops.rsqrt) && |x| == |ones| > 0 && forall i | 0 <= i < |x| :: ones[i] == 1.0
    requires t == MeanSquare(x) + 0.00001
    ensures c > 0.0 && c * c * t == 1.0 && Scaled(c, x, RmsNorm(ops, x, ones))
  {
    MeanSquarePositive(x);
    assert RsqrtAt(ops.rsqrt, t);
    c := ops.rsqrt(t);
  }

  /** With unit gains the row keeps its direction, and its mean square becomes that of the input over
      that of the input plus 1e-5: one, but for the regularisation. */
  lemma NormHasUnitMeanSquare<KV(!new)>(ops: Ops<KV>, x: Vec, ones: Vec)
    requires IsRsqrt(ops.rsqrt) && |x| == |ones| > 0 && forall i | 0 <= i < |x| :: ones[i] == 1.0
    ensures var r := RmsNorm(ops, x, ones);
      && MeanSquare(r) * (MeanSquare(x) + 0.00001) == MeanSquare(x)
      && exists c: real :: c > 0.0 && Scaled(c, x, r)
  {
    var t, r := MeanSquare(x) + 0.00001, RmsNorm(ops, x, ones);
    var c := NormScales(ops, x, ones, t);
    var once := SumOfSquaresScaled(c, x, r);
    CancelSquare(c, t, SumOfSquares(x), once, SumOfSquares(r), |x| as real);
  }

  lemma MeanSquarePositive(x: Vec)
    ensures x != [] ==> MeanSquare(x) >= 0.0
  {
    SumOfSquaresPositive(x);
  }

  lemma CancelSquare(c: real, t: real, total: real, once: real, twice: real, n: real)
    requires n > 0.0 && c * c * t == 1.0 && once == c * total && twice == c * once
    ensures twice / n * t == total / n
  {
    assert twice == (c * c) * total;
    assert twice * t == (c * c * t) * total;
    assert twice / n * t == twice * t / n;
  }

  // ---------------------------------------------------------------- heads

  /** Head h's columns of a flat row. */
  function Slice(q: Vec, h: nat, width: nat): (r: Vec)
    requires (h + 1) * width <= |q|
    ensures |r| == width
  {
    Distribute(h, 1, width);
    q[h * width..h * width + width]
  }

  lemma HeadFits(h: nat, n: nat, width: nat)
    ensures h < n ==> (h + 1) * width <= n * width
  {
    MulMono(h + 1, n, width);
  }

  lemma {:induction false} ViewAt(q: Vec, n: nat, width: nat, h: nat)
    requires n * width <= |q| && h < n
    ensures (h + 1) * width <= |q| && View(q, n, width)[h] == Slice(q, h, width)
  {
    HeadFits(h, n, width);
    Distribute(n - 1, 1, width);
    if h < n - 1 {
      ViewAt(q, n - 1, width, h);
    }
  }

  lemma {:induction false} RepeatAt<T>(x: T, n: nat, i: nat)
    requires i < n
    ensures Repeat(x, n)[i] == x
  {
    if i < n - 1 {
      RepeatAt(x, n - 1, i);
    }
  }

  /** All query heads of group g read KV head g. */
  lemma {:induction false} ExpandAt<T>(kv: seq<T>, group: nat, g: nat, at: nat, i: nat)
    requires g < |kv| && at == g * group && i < group
    ensures at + i < |Expand(kv, group)| && Expand(kv, group)[at + i] == kv[g]
  {
    var n := |kv| - 1;
    Distribute(n, 1, group);
    if g < n {
      ExpandAt(kv[..n], group, g, at, i);
    } else {
      RepeatAt(kv[n], group, i);
    }
  }

  /** Query head h is one of group h / (heads per KV head). */
  lemma GroupOf(h: nat, group: nat, kvHeads: nat) returns (g: nat, at: nat, i: nat)
    requires group > 0 && h < group * kvHeads
    ensures g == h / group < kvHeads && at == g * group && i < group && h == at + i
  {
    g, at, i := h / group, (h / group) * group, h % group;
    assert h == group * g + i;
    if kvHeads <= g {
      MulMono(kvHeads, g, group);
    }
  }

  lemma {:induction false} AttendAt<KV(!new)>(ops: Ops<KV>, qs: seq<Vec>, kv: seq<KV>, width: nat, h: nat)
    requires ops.Valid() && |qs| == |kv| && h < |qs| && forall i | 0 <= i < |qs| :: |qs[i]| == width
    ensures (h + 1) * width <= |Attend(ops, qs, kv)|
    ensures Slice(Attend(ops, qs, kv), h, width) == ops.attend(qs[h], kv[h])
  {
    var n := |qs| - 1;
    var front, last := Attend(ops, qs[..n], kv[..n]), ops.attend(qs[n], kv[n]);
    AttendWidth(ops, qs, kv, width);
    AttendWidth(ops, qs[..n], kv[..n], width);
    HeadFits(h, |qs|, width);
    assert ops.KeepsWidth(qs[n], kv[n]);
    if h < n {
      AttendAt(ops, qs[..n], kv[..n], width, h);
      Distribute(h, 1, width);
      LeftHead(front, last, h * width, width);
    } else {
      assert (front + last)[n * width..n * width + width] == last;
    }
  }

  /** Output head h is attention of query head h over KV head h / (heads per KV head). */
  lemma HeadReadsItsGroup<KV(!new)>(ops: Ops<KV>, q: Vec, s: Shape, kv: seq<KV>, h: nat)
    requires ops.Valid() && s.Valid() && |q| == s.heads * s.headDim && |kv| == s.kvHeads && h < s.heads
    ensures (h + 1) * s.headDim <= |q| && h / s.Group() < |kv|
    ensures Slice(Mix(ops, q, s, kv), h, s.headDim) == ops.attend(Slice(q, h, s.headDim), kv[h / s.Group()])
  {
    WholeGroups(s);
    var g, at, i := GroupOf(h, s.Group(), s.kvHeads);
    HeadOfMix(ops, q, s.heads, s.headDim, kv, s.Group(), h, g, at, i);
  }

  lemma HeadOfMix<KV(!new)>(ops: Ops<KV>, q: Vec, n: nat, width: nat, kv: seq<KV>, group: nat,
                              h: nat, g: nat, at: nat, i: nat)
    requires ops.Valid() && |q| == n * width && |kv| * group == n && h < n
    requires g < |kv| && at == g * group && i < group && h == at + i
    ensures (h + 1) * width <= |q|
    ensures Slice(MixHeads(ops, q, n, width, kv, group), h, width) == ops.attend(Slice(q, h, width), kv[g])
  {
    ViewAt(q, n, width, h);
    ExpandAt(kv, group, g, at, i);
    AttendAt(ops, View(q, n, width), Expand(kv, group), width, h);
  }

  lemma HeadInRange(s: Shape, h: nat)
    requires s.Valid() && h < s.heads
    ensures (h + 1) * s.headDim <= s.heads * s.headDim && h / s.Group() < s.kvHeads
  {
    WholeGroups(s);
    HeadFits(h, s.heads, s.headDim);
    var g, at, i := GroupOf(h, s.Group(), s.kvHeads);
  }

  /** What head h adds to entry j of the output: its own attention, through its own rows of the output
      projection. */
  function HeadTerm<KV(!new)>(ops: Ops<KV>, q: Vec, s: Shape, kv: seq<KV>, wo: Matrix, h: nat, j: nat): real
    requires ops.Valid() && s.Valid() && |q| == |wo| == s.heads * s.headDim && |kv| == s.kvHeads && h < s.heads
    requires Covers(wo, j + 1)
  {
    HeadInRange(s, h);
    var o := ops.attend(Slice(q, h, s.headDim), kv[h / s.Group()]);
    assert ops.KeepsWidth(Slice(q, h, s.headDim), kv[h / s.Group()]);
    Entry(o, Rows(wo, h, s.headDim), j)
  }

  /** Head h's rows of the output projection. */
  function Rows(wo: Matrix, h: nat, width: nat): (r: Matrix)
    requires (h + 1) * width <= |wo|
    ensures |r| == width && forall cols | Covers(wo, cols) :: Covers(r, cols)
  {
    Distribute(h, 1, width);
    wo[h * width..h * width + width]
  }

  function HeadSum<KV(!new)>(ops: Ops<KV>, q: Vec, s: Shape, kv: seq<KV>, wo: Matrix, n: nat, j: nat): real
    requires ops.Valid() && s.Valid() && |q| == |wo| == s.heads * s.headDim && |kv| == s.kvHeads && n <= s.heads
    requires Covers(wo, j + 1)
  {
    if n == 0 then 0.0 else HeadSum(ops, q, s, kv, wo, n - 1, j) + HeadTerm(ops, q, s, kv, wo, n - 1, j)
  }

  lemma EntryOneMoreHead(m: Vec, wo: Matrix, n: nat, width: nat, at: nat, j: nat)
    requires |m| == |wo| && Covers(wo, j + 1) && (n + 1) * width <= |m| && at == n * width
    ensures at + width <= |m|
    ensures Entry(m[..at + width], wo[..at + width], j)
         == Entry(m[..at], wo[..at], j) + Entry(Slice(m, n, width), Rows(wo, n, width), j)
  {
    Distribute(n, 1, width);
    assert m[..at + width] == m[..at] + Slice(m, n, width);
    assert wo[..at + width] == wo[..at] + Rows(wo, n, width);
    EntryStacked(m[..at], Slice(m, n, width), wo[..at], Rows(wo, n, width), j);
  }

  lemma OneMoreHead<KV(!new)>(ops: Ops<KV>, q: Vec, s: Shape, kv: seq<KV>, wo: Matrix, m: Vec, h: nat, at: nat, j: nat)
    requires ops.Valid() && s.Valid() && |q| == |wo| == s.heads * s.headDim && |kv| == s.kvHeads && h < s.heads
    requires Covers(wo, j + 1) && m == Mix(ops, q, s, kv) && at == h * s.headDim
    ensures at + s.headDim == (h + 1) * s.headDim <= |wo|
    ensures Entry(m[..at + s.headDim], wo[..at + s.headDim], j)
         == Entry(m[..at], wo[..at], j) + HeadTerm(ops, q, s, kv, wo, h, j)
  {
    Distribute(h, 1, s.headDim);
    HeadFits(h, s.heads, s.headDim);
    HeadReadsItsGroup(ops, q, s, kv, h);
    EntryOneMoreHead(m, wo, h, s.headDim, at, j);
  }

  lemma {:induction false} HeadsUpTo<KV(!new)>(ops: Ops<KV>, q: Vec, s: Shape, kv: seq<KV>, wo: Matrix,
                                                 m: Vec, n: nat, j: nat)
    returns (at: nat)
    requires ops.Valid() && s.Valid() && |q| == |wo| == s.heads * s.headDim && |kv| == s.kvHeads && n <= s.heads
    requires Covers(wo, j + 1) && m == Mix(ops, q, s, kv)
    ensures at == n * s.headDim && at <= |q|
    ensures Entry(m[..at], wo[..at], j) == HeadSum(ops, q, s, kv, wo, n, j)
  {
    if n == 0 {
      at := 0;
    } else {
      at := HeadsUpTo(ops, q, s, kv, wo, m, n - 1, j);
      OneMoreHead(ops, q, s, kv, wo, m, n - 1, at, j);
      at := at + s.headDim;
    }
  }

  /** The attention branch, entry by entry, is the sum over the query heads. */
  lemma AttentionIsSumOfHeads<KV(!new)>(ops: Ops<KV>, l: Layer<KV>, s: Shape, x: Vec, j: nat)
    requires ops.Valid() && s.Valid() && |x| > 0 && Fits(l, s, |x|) && j < |x|
    ensures var q := Apply(RmsNorm(ops, x, l.norm1), l.wqkv, s.heads * s.headDim);
      AttentionBranch(ops, l, s, x)[j] == HeadSum(ops, q, s, l.kv, l.wo, s.heads, j)
  {
    WholeGroups(s);
    var q := Apply(RmsNorm(ops, x, l.norm1), l.wqkv, s.heads * s.headDim);
    var m := Mix(ops, q, s, l.kv);
    var at := HeadsUpTo(ops, q, s, l.kv, l.wo, m, s.heads, j);
    assert m[..|q|] == m && l.wo[..|q|] == l.wo;
  }

  // ---------------------------------------------------------------- the gated MLP

  /** What MLP column f adds to entry j of the output: the activated gate times the up projection, times
      its weight. */
  function ColumnTerm<KV(!new)>(ops: Ops<KV>, l: Layer<KV>, g: Vec, f: nat, j: nat): real
    requires |g| == |l.wg| == |l.wu| && Covers(l.wg, f + 1) && Covers(l.wu, f + 1)
    requires f < |l.wd| && j < |l.wd[f]|
  {
    ops.silu(Entry(g, l.wg, f)) * Entry(g, l.wu, f) * l.wd[f][j]
  }

  function ColumnSum<KV(!new)>(ops: Ops<KV>, l: Layer<KV>, g: Vec, n: nat, j: nat): real
    requires |g| == |l.wg| == |l.wu| && Covers(l.wg, n) && Covers(l.wu, n)
    requires n <= |l.wd| && Covers(l.wd, j + 1)
  {
    if n == 0 then 0.0 else ColumnSum(ops, l, g, n - 1, j) + ColumnTerm(ops, l, g, n - 1, j)
  }

  lemma {:induction false} ColumnsUpTo<KV(!new)>(ops: Ops<KV>, l: Layer<KV>, g: Vec, ffn: nat, n: nat, j: nat)
    requires |g| == |l.wg| == |l.wu| && Covers(l.wg, ffn) && Covers(l.wu, ffn)
    requires n <= ffn == |l.wd| && Covers(l.wd, j + 1)
    ensures Entry(Silu(ops, Apply(g, l.wg, ffn), Apply(g, l.wu, ffn))[..n], l.wd[..n], j) == ColumnSum(ops, l, g, n, j)
  {
    if n > 0 {
      var act := Silu(ops, Apply(g, l.wg, ffn), Apply(g, l.wu, ffn));
      ColumnsUpTo(ops, l, g, ffn, n - 1, j);
      assert act[..n][..n - 1] == act[..n - 1] && l.wd[..n][..n - 1] == l.wd[..n - 1];
    }
  }

  /** The MLP branch, entry by entry, is the sum over the MLP columns. */
  lemma MlpIsSumOfColumns<KV(!new)>(ops: Ops<KV>, l: Layer<KV>, s: Shape, x: Vec, j: nat)
    requires |x| > 0 && Fits(l, s, |x|) && j < |x|
    ensures MlpBranch(ops, l, s, x)[j] == ColumnSum(ops, l, RmsNorm(ops, x, l.norm2), s.ffn, j)
  {
    var g := RmsNorm(ops, x, l.norm2);
    var act := Silu(ops, Apply(g, l.wg, s.ffn), Apply(g, l.wu, s.ffn));
    ColumnsUpTo(ops, l, g, s.ffn, s.ffn, j);
    assert act[..s.ffn] == act && l.wd[..s.ffn] == l.wd;
  }

  lemma SiluInUp<KV(!new)>(ops: Ops<KV>, c: real, a: Vec, b: Vec, b': Vec)
    requires |a| == |b| && Scaled(c, b, b')
    ensures Scaled(c, Silu(ops, a, b), Silu(ops, a, b'))
  {
    forall i | 0 <= i < |a| ensures Gated(ops, a[i], b'[i]) == c * Gated(ops, a[i], b[i]) {
      Regroup(ops.silu(a[i]), c, b[i], 0.0);
    }
  }

  /** The branch is linear in the up projection: it is the gate that is activated. */
  lemma MlpIsLinearInUp<KV(!new)>(ops: Ops<KV>, l: Layer<KV>, l': Layer<KV>, c: real, s: Shape, x: Vec)
    requires |x| > 0 && Fits(l, s, |x|) && l' == l.(wu := l'.wu) && ScaledRows(c, l.wu, l'.wu)
    ensures Fits(l', s, |x|) && Scaled(c, MlpBranch(ops, l, s, x), MlpBranch(ops, l', s, x))
  {
    assert forall i | 0 <= i < |l.wu| :: Scaled(c, l.wu[i], l'.wu[i]);
    var g := RmsNorm(ops, x, l.norm2);
    var gate, up, up' := Apply(g, l.wg, s.ffn), Apply(g, l.wu, s.ffn), Apply(g, l'.wu, s.ffn);
    ApplyScaledRows(c, g, l.wu, l'.wu, s.ffn);
    SiluInUp(ops, c, gate, up, up');
    ApplyScaled(c, Silu(ops, gate, up), Silu(ops, gate, up'), l.wd, |x|);
  }

  /** And it is linear in the activation function: every column passes it exactly once. */
  lemma MlpIsLinearInSilu<KV(!new)>(ops: Ops<KV>, ops': Ops<KV>, l: Layer<KV>, c: real, s: Shape, x: Vec)
    requires |x| > 0 && Fits(l, s, |x|)
    requires ops'.rsqrt == ops.rsqrt && forall a :: ops'.silu(a) == c * ops.silu(a)
    ensures Scaled(c, MlpBranch(ops, l, s, x), MlpBranch(ops', l, s, x))
  {
    var g := RmsNorm(ops, x, l.norm2);
    assert RmsNorm(ops', x, l.norm2) == g;
    var gate, up := Apply(g, l.wg, s.ffn), Apply(g, l.wu, s.ffn);
    SiluInSilu(ops, ops', c, gate, up);
    ApplyScaled(c, Silu(ops, gate, up), Silu(ops', gate, up), l.wd, |x|);
  }

  lemma SiluInSilu<KV(!new)>(ops: Ops<KV>, ops': Ops<KV>, c: real, a: Vec, b: Vec)
    requires |a| == |b| && forall v :: ops'.silu(v) == c * ops.silu(v)
    ensures Scaled(c, Silu(ops, a, b), Silu(ops', a, b))
  {
    forall i | 0 <= i < |a| ensures Gated(ops', a[i], b[i]) == c * Gated(ops, a[i], b[i]) {
      Regroup(ops.silu(a[i]), c, b[i], 1.0);
    }
  }

  lemma EntryOfOne(g: real, w: Matrix, a: real)
    requires w == [[a]]
    ensures Entry([g], w, 0) == g * a
  {
    assert Entry([g][..0], w[..0], 0) == 0.0;
  }

  /** A layer of width one with one MLP column, written out. */
  lemma OneColumnMlp<KV(!new)>(ops: Ops<KV>, l: Layer<KV>, s: Shape, v: real, gain: real, g: real,
                                 gate: real, up: real, down: real)
    requires s.ffn == 1 && Fits(l, s, 1) && g == v * ops.rsqrt(v * v + 0.00001) * gain
    requires l.norm2 == [gain] && l.wg == [[gate]] && l.wu == [[up]] && l.wd == [[down]]
    ensures MlpBranch(ops, l, s, [v]) == [ops.silu(g * gate) * (g * up) * down]
  {
    assert [v][..0] == [];
    assert SumOfSquares([v]) == v * v;
    assert MeanSquare([v]) == v * v;
    assert ops.rsqrt(MeanSquare([v]) + 0.00001) == ops.rsqrt(v * v + 0.00001);
    var r := RmsNorm(ops, [v], [gain]);
    assert r[0] == [v][0] * ops.rsqrt(MeanSquare([v]) + 0.00001) * [gain][0];
    assert r[0] == g;
    assert RmsNorm(ops, [v], l.norm2) == [g];
    MlpIsSumOfColumns(ops, l, s, [v], 0);
    EntryOfOne(g, l.wg, gate);
    EntryOfOne(g, l.wu, up);
    assert ColumnSum(ops, l, [g], 1, 0) == ColumnTerm(ops, l, [g], 0, 0);
    var m := MlpBranch(ops, l, s, [v]);
    assert m[0] == ops.silu(g * gate) * (g * up) * down;
    assert m == [m[0]];
  }

  // ---------------------------------------------------------------- the two halves of a layer

  lemma {:induction false} EntryOfZeroMatrix(h: Vec, w: Matrix, j: nat)
    requires |h| == |w| && Covers(w, j + 1) && forall i | 0 <= i < |w| :: IsZero(w[i])
    ensures Entry(h, w, j) == 0.0
  {
    if h != [] {
      assert IsZero(w[|h| - 1]);
      EntryOfZeroMatrix(h[..|h| - 1], w[..|h| - 1], j);
    }
  }

  predicate ZeroRows(w: Matrix) {
    forall i | 0 <= i < |w| :: IsZero(w[i])
  }

  lemma NoOutput(h: Vec, w: Matrix, cols: nat, x: Vec)
    requires |h| == |w| && Covers(w, cols) && ZeroRows(w) && |x| == cols
    ensures Plus(x, Apply(h, w, cols)) == x
  {
    forall j | 0 <= j < cols ensures Entry(h, w, j) == 0.0 {
      EntryOfZeroMatrix(h, w, j);
    }
  }

  /** A layer is its attention half followed by its MLP half: silencing the down projection leaves
      x + attention(x), silencing the output projection leaves x + mlp(x), and the whole layer is the
      second after the first. */
  lemma LayerIsTwoHalves<KV(!new)>(ops: Ops<KV>, l: Layer<KV>, s: Shape, x: Vec, noOut: Matrix, noDown: Matrix)
    requires ops.Valid() && s.Valid() && |x| > 0 && Fits(l, s, |x|)
    requires IsMatrix(noOut, s.heads * s.headDim, |x|) && ZeroRows(noOut)
    requires IsMatrix(noDown, s.ffn, |x|) && ZeroRows(noDown)
    ensures var la, lm := l.(wd := noDown), l.(wo := noOut);
      && SingleLayer(ops, la, s, x) == Plus(x, AttentionBranch(ops, l, s, x))
      && SingleLayer(ops, lm, s, x) == Plus(x, MlpBranch(ops, l, s, x))
      && SingleLayer(ops, l, s, x) == SingleLayer(ops, lm, s, SingleLayer(ops, la, s, x))
  {
    AttentionHalf(ops, l, s, x, noDown);
    MlpHalf(ops, l, s, x, noOut);
    MlpHalf(ops, l, s, Plus(x, AttentionBranch(ops, l, s, x)), noOut);
  }

  lemma AttentionHalf<KV(!new)>(ops: Ops<KV>, l: Layer<KV>, s: Shape, x: Vec, noDown: Matrix)
    requires ops.Valid() && s.Valid() && |x| > 0 && Fits(l, s, |x|)
    requires IsMatrix(noDown, s.ffn, |x|) && ZeroRows(noDown)
    ensures SingleLayer(ops, l.(wd := noDown), s, x) == Plus(x, AttentionBranch(ops, l, s, x))
  {
    var la := l.(wd := noDown);
    var x1 := Plus(x, AttentionBranch(ops, l, s, x));
    var g := RmsNorm(ops, x1, l.norm2);
    NoOutput(Silu(ops, Apply(g, l.wg, s.ffn), Apply(g, l.wu, s.ffn)), noDown, |x|, x1);
    assert AttentionBranch(ops, la, s, x) == AttentionBranch(ops, l, s, x);
  }

  lemma MlpHalf<KV(!new)>(ops: Ops<KV>, l: Layer<KV>, s: Shape, x: Vec, noOut: Matrix)
    requires ops.Valid() && s.Valid() && |x| > 0 && Fits(l, s, |x|)
    requires IsMatrix(noOut, s.heads * s.headDim, |x|) && ZeroRows(noOut)
    ensures SingleLayer(ops, l.(wo := noOut), s, x) == Plus(x, MlpBranch(ops, l, s, x))
  {
    var lm := l.(wo := noOut);
    WholeGroups(s);
    var q := Apply(RmsNorm(ops, x, l.norm1), l.wqkv, s.heads * s.headDim);
    NoOutput(Mix(ops, q, s, l.kv), noOut, |x|, x);
    assert MlpBranch(ops, lm, s, x) == MlpBranch(ops, l, s, x);
  }
}
