/** Scaled dot-product attention for one query row of one head: the dense reference, and the
    streaming (m, l, o) fold that must reproduce it chunk by chunk.

    Batch, head and query axes only repeat this computation side by side, so one row of one head
    carries the whole argument. */
module Attention {
  import opened Arithmetic
  import opened Options
  import opened Exponential
  import LinearAlgebra

  type Vec = seq<real>

  /** One row of K together with the same row of V. */
  datatype Token = Token(k: Vec, v: Vec)

  /** Everything a chunk is scored against: the query row, the softmax scale and the value width. */
  datatype Head = Head(math: ExpLog, q: Vec, scale: real, dim: nat) {

    ghost predicate Valid() {
      math.Valid()
    }

    /** The shapes a matrix product accepts. */
    predicate FitsToken(t: Token) {
      |t.k| == |q| && |t.v| == dim
    }

    predicate Fits(ts: seq<Token>) {
      forall i | 0 <= i < |ts| :: FitsToken(ts[i])
    }
  }

  function Scaled(q: Vec, scale: real): (r: Vec)
    ensures |r| == |q|
  {
    seq(|q|, i requires 0 <= i < |q| => q[i] * scale)
  }

  function Dot(a: Vec, b: Vec): real
    requires |a| == |b|
  {
    if a == [] then 0.0 else a[0] * b[0] + Dot(a[1..], b[1..])
  }

  function Score(h: Head, t: Token): real
    requires h.FitsToken(t)
  {
    Dot(Scaled(h.q, h.scale), t.k)
  }

  /** s is the sum of a and b, place by place. */
  predicate SumOf(s: Vec, a: Vec, b: Vec) {
    |s| == |a| == |b| && forall i | 0 <= i < |s| :: s[i] == a[i] + b[i]
  }

  /** Rows whose products are c times those of two others. */
  predicate ProductsScale(c: real, a: Vec, b: Vec, a': Vec, b': Vec) {
    |a| == |b| == |a'| == |b'| && forall i | 0 <= i < |a| :: a'[i] * b'[i] == c * (a[i] * b[i])
  }

  lemma {:induction false} DotScales(c: real, a: Vec, b: Vec, a': Vec, b': Vec)
    requires ProductsScale(c, a, b, a', b')
    ensures Dot(a', b') == c * Dot(a, b)
  {
    if a != [] {
      DotScales(c, a[1..], b[1..], a'[1..], b'[1..]);
    }
  }

  lemma {:induction false} DotAdds(q: Vec, a: Vec, b: Vec, s: Vec)
    requires |q| == |s| && SumOf(s, a, b)
    ensures Dot(q, s) == Dot(q, a) + Dot(q, b)
  {
    if q != [] {
      DotAdds(q[1..], a[1..], b[1..], s[1..]);
      assert q[0] * s[0] == q[0] * a[0] + q[0] * b[0];
    }
  }

  lemma {:induction false} DotOfZero(q: Vec, k: Vec)
    requires |q| == |k| && forall j | 0 <= j < |k| :: k[j] == 0.0
    ensures Dot(q, k) == 0.0
  {
    if q != [] {
      DotOfZero(q[1..], k[1..]);
    }
  }

  lemma {:induction false} DotOfUnit(q: Vec, k: Vec, i: nat)
    requires |q| == |k| && LinearAlgebra.IsUnit(k, i)
    ensures Dot(q, k) == q[i]
  {
    if i == 0 {
      DotOfZero(q[1..], k[1..]);
    } else {
      DotOfUnit(q[1..], k[1..], i - 1);
    }
  }

  lemma Exchange(a: real, b: real, c: real)
    ensures a * (c * b) == c * (a * b) && (c * a) * b == c * (a * b)
  {
  }

  lemma ScaledProduct(a: real, b: real, a': real, b': real, c: real)
    ensures b' == c * b ==> a * b' == c * (a * b)
    ensures a' == c * a ==> a' * b == c * (a * b)
  {
    Exchange(a, b, c);
  }

  lemma KeyProducts(c: real, q: Vec, k: Vec, k': Vec)
    requires |q| == |k| && LinearAlgebra.Scaled(c, k, k')
    ensures ProductsScale(c, q, k, q, k') && ProductsScale(c, k, q, k', q)
  {
    forall i | 0 <= i < |q| ensures q[i] * k'[i] == c * (q[i] * k[i]) && k'[i] * q[i] == c * (k[i] * q[i]) {
      ScaledProduct(q[i], k[i], q[i], k'[i], c);
      ScaledProduct(k[i], q[i], k'[i], q[i], c);
    }
  }

  lemma KeyScaled(c: real, q: Vec, k: Vec, k': Vec)
    requires |q| == |k| && LinearAlgebra.Scaled(c, k, k')
    ensures Dot(q, k') == c * Dot(q, k)
  {
    KeyProducts(c, q, k, k');
    DotScales(c, q, k, q, k');
  }

  lemma QueryScaled(c: real, q: Vec, q': Vec, k: Vec)
    requires |q| == |k| && LinearAlgebra.Scaled(c, q, q')
    ensures Dot(q', k) == c * Dot(q, k)
  {
    KeyProducts(c, k, q, q');
    DotScales(c, q, k, q', k);
  }

  /** The score at the i-th unit key is q[i] * scale. */
  lemma ScoreAtUnitKey(h: Head, t: Token, i: nat)
    requires h.FitsToken(t) && LinearAlgebra.IsUnit(t.k, i)
    ensures Score(h, t) == h.q[i] * h.scale
  {
    DotOfUnit(Scaled(h.q, h.scale), t.k, i);
  }

  /** And it is linear in the key, so those values determine it. */
  lemma ScoreIsLinearInKey(h: Head, t: Token, c: real, scaled: Token, other: Token, sum: Token)
    requires h.FitsToken(t) && h.FitsToken(scaled) && h.FitsToken(other) && h.FitsToken(sum)
    requires LinearAlgebra.Scaled(c, t.k, scaled.k) && SumOf(sum.k, t.k, other.k)
    ensures Score(h, scaled) == c * Score(h, t)
    ensures Score(h, sum) == Score(h, t) + Score(h, other)
  {
    var q := Scaled(h.q, h.scale);
    KeyScaled(c, q, t.k, scaled.k);
    DotAdds(q, t.k, other.k, sum.k);
  }

  lemma ScaledScales(q: Vec, q': Vec, scale: real, c: real)
    requires LinearAlgebra.Scaled(c, q, q')
    ensures LinearAlgebra.Scaled(c, Scaled(q, scale), Scaled(q', scale))
    ensures LinearAlgebra.Scaled(c, Scaled(q, scale), Scaled(q, c * scale))
  {
    forall i | 0 <= i < |q| ensures q'[i] * scale == c * (q[i] * scale) == q[i] * (c * scale) {
      Exchange(q[i], scale, c);
    }
  }

  /** It is homogeneous in the query and in the scale. */
  lemma ScoreScales(h: Head, q': Vec, c: real, t: Token)
    requires h.FitsToken(t) && LinearAlgebra.Scaled(c, h.q, q')
    ensures Score(h.(q := q'), t) == c * Score(h, t)
    ensures Score(h.(scale := c * h.scale), t) == c * Score(h, t)
  {
    ScaledScales(h.q, q', h.scale, c);
    QueryScaled(c, Scaled(h.q, h.scale), Scaled(q', h.scale), t.k);
    QueryScaled(c, Scaled(h.q, h.scale), Scaled(h.q, c * h.scale), t.k);
  }

  function Zeros(n: nat): Vec {
    seq(n, _ => 0.0)
  }

  // ---------------------------------------------------------------- dense reference

  /** The softmax denominator. */
  function Normaliser(h: Head, ts: seq<Token>): (z: real)
    requires h.Fits(ts)
  {
    if ts == [] then 0.0
    else Normaliser(h, ts[..|ts| - 1]) + h.math.exp(Score(h, ts[|ts| - 1]))
  }

  /** Coordinate j of softmax(s) @ V, with the denominator already known. */
  function Mixed(h: Head, ts: seq<Token>, z: real, j: nat): real
    requires h.Fits(ts) && j < h.dim && z != 0.0
  {
    if ts == [] then 0.0
    else
      var last := ts[|ts| - 1];
      Mixed(h, ts[..|ts| - 1], z, j) + h.math.exp(Score(h, last)) / z * last.v[j]
  }

  /** Textbook dense attention: every value row weighted by its softmax probability. */
  function Dense(h: Head, ts: seq<Token>): (r: Vec)
    requires h.Valid() && h.Fits(ts) && ts != []
    ensures |r| == h.dim
  {
    NormaliserPositive(h, ts);
    var z := Normaliser(h, ts);
    seq(h.dim, j requires 0 <= j < h.dim => Mixed(h, ts, z, j))
  }

  lemma {:induction false} NormaliserPositive(h: Head, ts: seq<Token>)
    requires h.Valid() && h.Fits(ts)
    ensures ts != [] ==> Normaliser(h, ts) > 0.0
  {
    if ts != [] {
      NormaliserPositive(h, ts[..|ts| - 1]);
      assert h.math.Positive(Score(h, ts[|ts| - 1]));
    }
  }

  // ---------------------------------------------------------------- referenced sums

  /** A column of [1 | V]: the normaliser is the sum against the column of ones. */
  datatype Column = Ones | Coord(j: nat)

  function Entry(h: Head, t: Token, c: Column): real
    requires h.FitsToken(t) && (c.Coord? ==> c.j < h.dim)
  {
    match c
    case Ones => 1.0
    case Coord(j) => t.v[j]
  }

  function Term(h: Head, t: Token, m: real, c: Column): real
    requires h.FitsToken(t) && (c.Coord? ==> c.j < h.dim)
  {
    h.math.exp(Score(h, t) - m) * Entry(h, t, c)
  }

  /** Sum of exp(s - m) times one column: what `p.sum()` and `p @ V` compute for p = exp(s - m). */
  function WSum(h: Head, ts: seq<Token>, m: real, c: Column): real
    requires h.Fits(ts) && (c.Coord? ==> c.j < h.dim)
  {
    if ts == [] then 0.0
    else WSum(h, ts[..|ts| - 1], m, c) + Term(h, ts[|ts| - 1], m, c)
  }

  lemma {:induction false} WSumAppend(h: Head, a: seq<Token>, b: seq<Token>, m: real, c: Column)
    requires h.Fits(a) && h.Fits(b) && (c.Coord? ==> c.j < h.dim)
    ensures h.Fits(a + b)
    ensures WSum(h, a + b, m, c) == WSum(h, a, m, c) + WSum(h, b, m, c)
  {
    if b == [] {
      assert a + b == a;
    } else {
      var n := |b| - 1;
      WSumAppend(h, a, b[..n], m, c);
      assert (a + b)[..|a + b| - 1] == a + b[..n];
    }
  }

  /** Changing the reference point rescales the whole sum: the correction factor of the fold. */
  lemma {:induction false} WSumRebase(h: Head, ts: seq<Token>, m: real, m': real, c: Column)
    requires h.Valid() && h.Fits(ts) && (c.Coord? ==> c.j < h.dim)
    ensures WSum(h, ts, m', c) == WSum(h, ts, m, c) * h.math.exp(m - m')
  {
    if ts != [] {
      var n := |ts| - 1;
      WSumRebase(h, ts[..n], m, m', c);
      TermRebase(h, ts[n], m, m', c);
      var f, w, t := h.math.exp(m - m'), WSum(h, ts[..n], m, c), Term(h, ts[n], m, c);
      assert w * f + t * f == (w + t) * f;
    }
  }

  lemma TermRebase(h: Head, t: Token, m: real, m': real, c: Column)
    requires h.Valid() && h.FitsToken(t) && (c.Coord? ==> c.j < h.dim)
    ensures Term(h, t, m', c) == Term(h, t, m, c) * h.math.exp(m - m')
  {
    h.math.Rebase(Score(h, t), m, m');
  }

  lemma {:induction false} WSumPositive(h: Head, ts: seq<Token>, m: real)
    requires h.Valid() && h.Fits(ts)
    ensures ts != [] ==> WSum(h, ts, m, Ones) > 0.0
  {
    if ts != [] {
      WSumPositive(h, ts[..|ts| - 1], m);
      assert h.math.Positive(Score(h, ts[|ts| - 1]) - m);
    }
  }

  lemma {:induction false} NormaliserIsWSum(h: Head, ts: seq<Token>)
    requires h.Fits(ts)
    ensures Normaliser(h, ts) == WSum(h, ts, 0.0, Ones)
  {
    if ts != [] {
      NormaliserIsWSum(h, ts[..|ts| - 1]);
    }
  }

  lemma {:induction false} MixedIsWSum(h: Head, ts: seq<Token>, z: real, j: nat)
    requires h.Fits(ts) && j < h.dim && z != 0.0
    ensures Mixed(h, ts, z, j) == WSum(h, ts, 0.0, Coord(j)) / z
  {
    if ts != [] {
      var n := |ts| - 1;
      MixedIsWSum(h, ts[..n], z, j);
      var e, v, w := h.math.exp(Score(h, ts[n])), ts[n].v[j], WSum(h, ts[..n], 0.0, Coord(j));
      assert e / z * v == e * v / z;
      assert w / z + e * v / z == (w + e * v) / z;
    }
  }

  /** Dense attention is numerator over denominator for whichever reference point is used. */
  lemma DenseAnyReference(h: Head, ts: seq<Token>, m: real, j: nat)
    requires h.Valid() && h.Fits(ts) && ts != [] && j < h.dim
    ensures WSum(h, ts, m, Ones) > 0.0
    ensures Dense(h, ts)[j] == WSum(h, ts, m, Coord(j)) / WSum(h, ts, m, Ones)
  {
    NormaliserPositive(h, ts);
    NormaliserIsWSum(h, ts);
    MixedIsWSum(h, ts, Normaliser(h, ts), j);
    WSumPositive(h, ts, m);
    WSumRebase(h, ts, m, 0.0, Ones);
    WSumRebase(h, ts, m, 0.0, Coord(j));
    assert h.math.Positive(m - 0.0);
    CommonFactor(h.math.exp(m - 0.0), WSum(h, ts, m, Coord(j)), WSum(h, ts, m, Ones));
  }

  lemma CommonFactor(f: real, a: real, b: real)
    requires f != 0.0 && b != 0.0
    ensures b * f != 0.0
    ensures (a * f) / (b * f) == a / b
  {
    var r := a / b;
    assert a == r * b;
    assert a * f == r * (b * f);
  }

  /** Attention reads its KV as a bag: the order of the rows is irrelevant. */
  lemma DensePermutation(h: Head, a: seq<Token>, b: seq<Token>)
    requires h.Valid() && h.Fits(a) && a != [] && multiset(a) == multiset(b)
    ensures h.Fits(b) && b != [] && Dense(h, a) == Dense(h, b)
  {
    FitsPermutation(h, a, b);
    assert |multiset(a)| == |a| && |multiset(b)| == |b|;
    WSumPermutation(h, a, b, 0.0, Ones);
    forall j | 0 <= j < h.dim ensures Dense(h, a)[j] == Dense(h, b)[j] {
      WSumPermutation(h, a, b, 0.0, Coord(j));
      DenseAnyReference(h, a, 0.0, j);
      DenseAnyReference(h, b, 0.0, j);
    }
  }

  lemma FitsPermutation(h: Head, a: seq<Token>, b: seq<Token>)
    requires h.Fits(a) && multiset(a) == multiset(b)
    ensures h.Fits(b)
  {
    forall i | 0 <= i < |b| ensures h.FitsToken(b[i]) {
      assert b[i] in multiset(b);
      assert b[i] in multiset(a);
    }
  }

  /** Taking one row out of the middle takes exactly its term out of the sum. */
  lemma WSumRemove(h: Head, ts: seq<Token>, i: nat, m: real, c: Column)
    requires h.Fits(ts) && i < |ts| && (c.Coord? ==> c.j < h.dim)
    ensures h.Fits(ts[..i] + ts[i + 1..])
    ensures WSum(h, ts, m, c)
         == WSum(h, ts[..i] + ts[i + 1..], m, c) + Term(h, ts[i], m, c)
  {
    var a, b := ts[..i + 1], ts[i + 1..];
    assert ts == a + b && a[..i] == ts[..i] && a[i] == ts[i];
    WSumAppend(h, a, b, m, c);
    WSumAppend(h, a[..i], b, m, c);
    assert WSum(h, a, m, c) == WSum(h, a[..i], m, c) + Term(h, a[i], m, c);
  }

  lemma {:induction false} WSumPermutation(h: Head, a: seq<Token>, b: seq<Token>, m: real, c: Column)
    requires h.Fits(a) && h.Fits(b) && (c.Coord? ==> c.j < h.dim)
    requires multiset(a) == multiset(b)
    ensures WSum(h, a, m, c) == WSum(h, b, m, c)
  {
    assert |multiset(a)| == |a| && |multiset(b)| == |b|;
    if a != [] {
      var n := |a| - 1;
      var i := RemoveSame(a, b);
      WSumRemove(h, b, i, m, c);
      WSumPermutation(h, a[..n], b[..i] + b[i + 1..], m, c);
    }
  }

  lemma SameBagLessOne<T>(x: multiset<T>, y: multiset<T>, t: T)
    requires x + multiset{t} == y + multiset{t}
    ensures x == y
  {
    assert x == (x + multiset{t}) - multiset{t};
    assert y == (y + multiset{t}) - multiset{t};
  }

  /** The last element of one arrangement sits somewhere in the other; both shrink to the same bag. */
  lemma RemoveSame<T>(a: seq<T>, b: seq<T>) returns (i: nat)
    requires multiset(a) == multiset(b) && a != []
    ensures i < |b| && b[i] == a[|a| - 1]
    ensures multiset(a[..|a| - 1]) == multiset(b[..i] + b[i + 1..])
  {
    var n := |a| - 1;
    assert a == a[..n] + [a[n]];
    assert multiset(a) == multiset(a[..n]) + multiset{a[n]};
    assert a[n] in multiset(b);
    var p :| 0 <= p < |b| && b[p] == a[n];
    i := p;
    assert b == b[..i] + [b[i]] + b[i + 1..];
    assert multiset(b) == multiset(b[..i] + b[i + 1..]) + multiset{b[i]};
    SameBagLessOne(multiset(a[..n]), multiset(b[..i] + b[i + 1..]), a[n]);
  }

  // ---------------------------------------------------------------- streaming fold

  /** Running maximum, normaliser and unnormalised output; the initial -inf maximum is None. */
  datatype State = State(m: Option<real>, l: real, o: Vec)

  function Max(a: real, b: real): real {
    if a < b then b else a
  }

  /** `s.amax()`, which torch refuses on an empty axis. */
  function MaxScore(h: Head, ts: seq<Token>): real
    requires h.Fits(ts) && ts != []
  {
    var s := Score(h, ts[|ts| - 1]);
    if |ts| == 1 then s else Max(MaxScore(h, ts[..|ts| - 1]), s)
  }

  function Fresh(h: Head): State {
    State(None, 0.0, Zeros(h.dim))
  }

  /** exp(m - mNew), which is zero for the initial m = -inf. */
  function Correction(h: Head, m: Option<real>, mNew: real): real {
    match m
    case None => 0.0
    case Some(x) => h.math.exp(x - mNew)
  }

  /** One accumulator after a chunk: corrected to the new maximum, plus the chunk's own sum. */
  function Updated(h: Head, x: real, m: Option<real>, ts: seq<Token>, mNew: real, c: Column): real
    requires h.Fits(ts) && (c.Coord? ==> c.j < h.dim)
  {
    x * Correction(h, m, mNew) + WSum(h, ts, mNew, c)
  }

  function Merge(h: Head, st: State, ts: seq<Token>): State
    requires h.Fits(ts) && ts != [] && |st.o| == h.dim
  {
    var top := MaxScore(h, ts);
    var mNew := if st.m.None? then top else Max(st.m.value, top);
    State(Some(mNew),
          Updated(h, st.l, st.m, ts, mNew, Ones),
          seq(h.dim, j requires 0 <= j < h.dim => Updated(h, st.o[j], st.m, ts, mNew, Coord(j))))
  }

  /** o / l. */
  function Finish(h: Head, st: State): Vec
    requires st.l != 0.0 && |st.o| == h.dim
  {
    seq(h.dim, j requires 0 <= j < h.dim => st.o[j] / st.l)
  }

  /** The highest score: attained, and above every other. */
  ghost predicate IsMaxScore(h: Head, ts: seq<Token>, m: real)
    requires h.Fits(ts)
  {
    && (exists i | 0 <= i < |ts| :: Score(h, ts[i]) == m)
    && (forall i | 0 <= i < |ts| :: Score(h, ts[i]) <= m)
  }

  /** l and o are the sums over `ts` taken relative to the reference `m`. */
  ghost predicate SumsAt(h: Head, ts: seq<Token>, m: real, l: real, o: Vec)
    requires h.Fits(ts)
  {
    && l == WSum(h, ts, m, Ones)
    && |o| == h.dim
    && forall j | 0 <= j < h.dim :: o[j] == WSum(h, ts, m, Coord(j))
  }

  /** What the fold promises after having consumed `ts`, stated without mentioning the fold. */
  ghost predicate Summarises(h: Head, st: State, ts: seq<Token>)
    requires h.Fits(ts)
  {
    if ts == [] then st == Fresh(h)
    else
      && st.m.Some?
      && IsMaxScore(h, ts, st.m.value)
      && SumsAt(h, ts, st.m.value, st.l, st.o)
      && st.l > 0.0
  }

  lemma MaxScoreAppend(h: Head, a: seq<Token>, b: seq<Token>, ma: real, mb: real)
    requires h.Fits(a) && h.Fits(b) && IsMaxScore(h, a, ma) && IsMaxScore(h, b, mb)
    ensures h.Fits(a + b) && IsMaxScore(h, a + b, Max(ma, mb))
  {
    var i :| 0 <= i < |a| && Score(h, a[i]) == ma;
    var k :| 0 <= k < |b| && Score(h, b[k]) == mb;
    assert (a + b)[i] == a[i] && (a + b)[|a| + k] == b[k];
  }

  lemma OnlyScore(h: Head, t: Token)
    requires h.FitsToken(t)
    ensures h.Fits([t]) && IsMaxScore(h, [t], Score(h, t))
  {
    assert [t][0] == t;
  }

  lemma {:induction false} MaxScoreIsMax(h: Head, ts: seq<Token>)
    requires h.Fits(ts) && ts != []
    ensures IsMaxScore(h, ts, MaxScore(h, ts))
  {
    var n := |ts| - 1;
    if n > 0 {
      MaxScoreIsMax(h, ts[..n]);
      OnlyScore(h, ts[n]);
      MaxScoreAppend(h, ts[..n], [ts[n]], MaxScore(h, ts[..n]), Score(h, ts[n]));
      assert ts == ts[..n] + [ts[n]];
    } else {
      OnlyScore(h, ts[0]);
      assert ts == [ts[0]];
    }
  }

  /** The accumulator before the chunk is added: what was summed, now relative to the new maximum. */
  lemma CorrectedColumn(h: Head, a: seq<Token>, m: Option<real>, mNew: real, x: real, c: Column)
    requires h.Valid() && h.Fits(a) && (c.Coord? ==> c.j < h.dim)
    requires m.None? ==> a == []
    requires m.Some? ==> x == WSum(h, a, m.value, c)
    ensures Updated(h, x, m, [], mNew, c) == WSum(h, a, mNew, c)
  {
    if m.Some? {
      WSumRebase(h, a, m.value, mNew, c);
    } else {
      assert x * 0.0 == 0.0;
    }
  }

  lemma UpdatedAdds(h: Head, x: real, m: Option<real>, ts: seq<Token>, mNew: real, c: Column)
    requires h.Fits(ts) && (c.Coord? ==> c.j < h.dim)
    ensures Updated(h, x, m, ts, mNew, c) == Updated(h, x, m, [], mNew, c) + WSum(h, ts, mNew, c)
  {
  }

  /** One column of a merge: correct the old sum to the new reference, then add the chunk's. */
  lemma MergeColumn(h: Head, a: seq<Token>, b: seq<Token>, m: Option<real>, mNew: real, x: real, c: Column)
    requires h.Valid() && h.Fits(a) && h.Fits(b) && (c.Coord? ==> c.j < h.dim)
    requires m.None? ==> a == []
    requires m.Some? ==> x == WSum(h, a, m.value, c)
    ensures h.Fits(a + b)
    ensures Updated(h, x, m, b, mNew, c) == WSum(h, a + b, mNew, c)
  {
    CorrectedColumn(h, a, m, mNew, x, c);
    UpdatedAdds(h, x, m, b, mNew, c);
    WSumAppend(h, a, b, mNew, c);
  }

  lemma MergeMax(h: Head, st: State, a: seq<Token>, b: seq<Token>)
    requires h.Fits(a) && h.Fits(b) && b != [] && |st.o| == h.dim
    requires st.m.None? ==> a == []
    requires st.m.Some? ==> IsMaxScore(h, a, st.m.value)
    ensures h.Fits(a + b) && IsMaxScore(h, a + b, Merge(h, st, b).m.value)
  {
    MaxScoreIsMax(h, b);
    if st.m.None? {
      assert a + b == b;
    } else {
      MaxScoreAppend(h, a, b, st.m.value, MaxScore(h, b));
    }
  }

  lemma MergeSums(h: Head, st: State, a: seq<Token>, b: seq<Token>, r: State)
    requires h.Valid() && h.Fits(a) && h.Fits(b) && b != [] && |st.o| == h.dim
    requires st.m.None? ==> a == []
    requires st.m.Some? ==> SumsAt(h, a, st.m.value, st.l, st.o)
    requires r == Merge(h, st, b)
    ensures h.Fits(a + b) && SumsAt(h, a + b, r.m.value, r.l, r.o)
  {
    MergeColumn(h, a, b, st.m, r.m.value, st.l, Ones);
    forall j | 0 <= j < h.dim ensures r.o[j] == WSum(h, a + b, r.m.value, Coord(j)) {
      MergeColumn(h, a, b, st.m, r.m.value, st.o[j], Coord(j));
    }
  }

  /** One merge extends the summary by exactly the merged chunk. */
  lemma MergeSummarises(h: Head, st: State, a: seq<Token>, b: seq<Token>)
    requires h.Valid() && h.Fits(a) && h.Fits(b) && b != []
    requires Summarises(h, st, a)
    ensures |st.o| == h.dim && h.Fits(a + b)
    ensures Summarises(h, Merge(h, st, b), a + b)
  {
    MergeMax(h, st, a, b);
    MergeSums(h, st, a, b, Merge(h, st, b));
    WSumPositive(h, a + b, Merge(h, st, b).m.value);
  }

  /** Dividing a summary out gives dense attention over everything summarised. */
  lemma FinishIsDense(h: Head, st: State, ts: seq<Token>)
    requires h.Valid() && h.Fits(ts) && ts != []
    requires Summarises(h, st, ts)
    ensures Finish(h, st) == Dense(h, ts)
  {
    forall j | 0 <= j < h.dim ensures Finish(h, st)[j] == Dense(h, ts)[j] {
      DenseAnyReference(h, ts, st.m.value, j);
    }
  }

  // ---------------------------------------------------------------- sequences of chunks

  function Concat<T>(xs: seq<seq<T>>): seq<T> {
    if xs == [] then [] else Concat(xs[..|xs| - 1]) + xs[|xs| - 1]
  }

  /** Chunks `merge` accepts: of the right shape, and none of them empty. */
  predicate Chunked(h: Head, chunks: seq<seq<Token>>) {
    forall i | 0 <= i < |chunks| :: h.Fits(chunks[i]) && chunks[i] != []
  }

  predicate AllFit(h: Head, chunks: seq<seq<Token>>) {
    forall i | 0 <= i < |chunks| :: h.Fits(chunks[i])
  }

  lemma {:induction false} ConcatFits(h: Head, chunks: seq<seq<Token>>)
    requires AllFit(h, chunks)
    ensures h.Fits(Concat(chunks))
  {
    if chunks != [] {
      ConcatFits(h, chunks[..|chunks| - 1]);
    }
  }

  lemma ConcatSnoc<T>(xs: seq<seq<T>>, x: seq<T>)
    ensures Concat(xs + [x]) == Concat(xs) + x
  {
    assert (xs + [x])[..|xs + [x]| - 1] == xs;
  }

  /** The fold of the sequential step: the local KV first, then the first `n` spilled chunks. */
  function Streamed(h: Head, local: seq<Token>, chunks: seq<seq<Token>>): (st: State)
    requires h.Fits(local) && local != [] && Chunked(h, chunks)
    ensures |st.o| == h.dim
  {
    if chunks == [] then Merge(h, Fresh(h), local)
    else Merge(h, Streamed(h, local, chunks[..|chunks| - 1]), chunks[|chunks| - 1])
  }

  lemma {:induction false} StreamedSummarises(h: Head, local: seq<Token>, chunks: seq<seq<Token>>)
    requires h.Valid() && h.Fits(local) && local != [] && Chunked(h, chunks)
    ensures h.Fits(local + Concat(chunks))
    ensures Summarises(h, Streamed(h, local, chunks), local + Concat(chunks))
  {
    if chunks == [] {
      MergeSummarises(h, Fresh(h), [], local);
      assert [] + local == local == local + Concat(chunks);
    } else {
      var n := |chunks| - 1;
      StreamedSummarises(h, local, chunks[..n]);
      ConcatFits(h, chunks[..n]);
      MergeSummarises(h, Streamed(h, local, chunks[..n]), local + Concat(chunks[..n]), chunks[n]);
      AppendAssoc(local, Concat(chunks[..n]), chunks[n]);
    }
  }

  /** Every split of the spilled KV into nonempty chunks gives dense attention over all of it. */
  lemma StreamedIsDense(h: Head, local: seq<Token>, chunks: seq<seq<Token>>)
    requires h.Valid() && h.Fits(local) && local != [] && Chunked(h, chunks)
    ensures Streamed(h, local, chunks).l > 0.0
    ensures h.Fits(local + Concat(chunks))
    ensures Finish(h, Streamed(h, local, chunks)) == Dense(h, local + Concat(chunks))
  {
    StreamedSummarises(h, local, chunks);
    FinishIsDense(h, Streamed(h, local, chunks), local + Concat(chunks));
  }

  /** The sequential decode step: local KV, then chunk after chunk, then o / l. */
  method StepNoPrefetch(h: Head, local: seq<Token>, chunks: seq<seq<Token>>) returns (out: Vec)
    requires h.Valid() && h.Fits(local) && local != [] && Chunked(h, chunks)
    ensures h.Fits(local + Concat(chunks))
    ensures out == Dense(h, local + Concat(chunks))
  {
    var st := Fresh(h);
    st := Merge(h, st, local);
    for i := 0 to |chunks|
      invariant st == Streamed(h, local, chunks[..i])
    {
      assert chunks[..i + 1][..i] == chunks[..i];
      st := Merge(h, st, chunks[i]);
    }
    assert chunks[..|chunks|] == chunks;
    StreamedIsDense(h, local, chunks);
    out := Finish(h, st);
  }

  /** Cut the spilled rows into slices of `size` rows, the last one possibly shorter. */
  method MakeChunks<T>(rows: seq<T>, size: nat) returns (chunks: seq<seq<T>>)
    requires size >= 1
    ensures Concat(chunks) == rows
    ensures forall i | 0 <= i < |chunks| :: 1 <= |chunks[i]| <= size
    ensures forall i | 0 <= i < |chunks| - 1 :: |chunks[i]| == size
  {
    chunks := [];
    var s := 0;
    while s < |rows|
      invariant 0 <= s
      invariant Concat(chunks) == rows[..if s < |rows| then s else |rows|]
      invariant forall i | 0 <= i < |chunks| :: 1 <= |chunks[i]| <= size
      invariant s < |rows| ==> forall i | 0 <= i < |chunks| :: |chunks[i]| == size
      invariant forall i | 0 <= i < |chunks| - 1 :: |chunks[i]| == size
    {
      var n := if size < |rows| - s then size else |rows| - s;
      ConcatSnoc(chunks, rows[s..s + n]);
      assert rows[..s] + rows[s..s + n] == rows[..s + n];
      chunks := chunks + [rows[s..s + n]];
      s := s + size;
    }
  }
}
