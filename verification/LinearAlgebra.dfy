/** Row vectors, matrices as lists of rows, and the two ways of cutting a product in half. */
module LinearAlgebra {
  type Vec = seq<real>
  type Matrix = seq<Vec>

  predicate IsMatrix(w: Matrix, rows: nat, cols: nat) {
    |w| == rows && forall i | 0 <= i < rows :: |w[i]| == cols
  }

  /** Every row reaches column `cols`. */
  predicate Covers(w: Matrix, cols: nat) {
    forall i | 0 <= i < |w| :: cols <= |w[i]|
  }

  function Plus(a: Vec, b: Vec): (r: Vec)
    requires |a| == |b|
    ensures |r| == |a|
  {
    seq(|a|, i requires 0 <= i < |a| => a[i] + b[i])
  }

  /** Entry j of h @ w. */
  function Entry(h: Vec, w: Matrix, j: nat): real
    requires |h| == |w| && Covers(w, j + 1)
  {
    if h == [] then 0.0
    else
      var n := |h| - 1;
      Entry(h[..n], w[..n], j) + h[n] * w[n][j]
  }

  /** The first `cols` entries of h @ w. */
  function Apply(h: Vec, w: Matrix, cols: nat): (r: Vec)
    requires |h| == |w| && Covers(w, cols)
    ensures |r| == cols
  {
    seq(cols, j requires 0 <= j < cols => Entry(h, w, j))
  }

  lemma {:induction false} EntrySameColumn(h: Vec, w: Matrix, j: nat, w': Matrix, j': nat)
    requires |h| == |w| == |w'| && Covers(w, j + 1) && Covers(w', j' + 1)
    requires forall i | 0 <= i < |h| :: w[i][j] == w'[i][j']
    ensures Entry(h, w, j) == Entry(h, w', j')
  {
    if h != [] {
      var n := |h| - 1;
      EntrySameColumn(h[..n], w[..n], j, w'[..n], j');
    }
  }

  lemma {:induction false} EntryStacked(a: Vec, b: Vec, wa: Matrix, wb: Matrix, j: nat)
    requires |a| == |wa| && |b| == |wb| && Covers(wa, j + 1) && Covers(wb, j + 1)
    ensures Covers(wa + wb, j + 1)
    ensures Entry(a + b, wa + wb, j) == Entry(a, wa, j) + Entry(b, wb, j)
  {
    if b == [] {
      assert a + b == a && wa + wb == wa;
    } else {
      var n := |b| - 1;
      EntryStacked(a, b[..n], wa, wb[..n], j);
      assert (a + b)[..|a| + n] == a + b[..n];
      assert (wa + wb)[..|a| + n] == wa + wb[..n];
    }
  }

  /** Column parallelism: the first columns of `w` are those of `wa`, the next those of `wb`. */
  predicate SideBySide(w: Matrix, wa: Matrix, ca: nat, wb: Matrix, cb: nat) {
    && |w| == |wa| == |wb| && Covers(w, ca + cb) && Covers(wa, ca) && Covers(wb, cb)
    && (forall i, j | 0 <= i < |w| && 0 <= j < ca :: w[i][j] == wa[i][j])
    && (forall i, j | 0 <= i < |w| && 0 <= j < cb :: w[i][ca + j] == wb[i][j])
  }

  /** A column-cut product is the concatenation of the two halves' products. */
  lemma ApplySideBySide(h: Vec, w: Matrix, wa: Matrix, ca: nat, wb: Matrix, cb: nat)
    requires |h| == |w| && SideBySide(w, wa, ca, wb, cb)
    ensures Apply(h, w, ca + cb) == Apply(h, wa, ca) + Apply(h, wb, cb)
  {
    forall j | 0 <= j < ca ensures Entry(h, w, j) == Entry(h, wa, j) {
      EntrySameColumn(h, w, j, wa, j);
    }
    forall j | ca <= j < ca + cb ensures Entry(h, w, j) == Entry(h, wb, j - ca) {
      assert forall i | 0 <= i < |h| :: w[i][ca + (j - ca)] == wb[i][j - ca];
      EntrySameColumn(h, w, j, wb, j - ca);
    }
  }

  /** Row parallelism: a row-cut product is the sum of the two halves' partial products. */
  lemma ApplyStacked(a: Vec, b: Vec, wa: Matrix, wb: Matrix, cols: nat)
    requires |a| == |wa| && |b| == |wb| && Covers(wa, cols) && Covers(wb, cols)
    ensures Covers(wa + wb, cols)
    ensures Apply(a + b, wa + wb, cols) == Plus(Apply(a, wa, cols), Apply(b, wb, cols))
  {
    forall j | 0 <= j < cols ensures Entry(a + b, wa + wb, j) == Entry(a, wa, j) + Entry(b, wb, j) {
      EntryStacked(a, b, wa, wb, j);
    }
  }

  // ---------------------------------------------------------------- what a product is

  /** v' is c times v. */
  predicate Scaled(c: real, v: Vec, v': Vec) {
    |v'| == |v| && forall i | 0 <= i < |v| :: v'[i] == c * v[i]
  }

  predicate ScaledRows(c: real, w: Matrix, w': Matrix) {
    |w'| == |w| && forall i | 0 <= i < |w| :: Scaled(c, w[i], w'[i])
  }

  /** 1 at i and 0 elsewhere. */
  predicate IsUnit(v: Vec, i: nat) {
    i < |v| && v[i] == 1.0 && forall k | 0 <= k < |v| && k != i :: v[k] == 0.0
  }

  predicate IsZero(v: Vec) {
    forall k | 0 <= k < |v| :: v[k] == 0.0
  }

  lemma {:induction false} EntryOfZero(h: Vec, w: Matrix, j: nat)
    requires |h| == |w| && Covers(w, j + 1) && IsZero(h)
    ensures Entry(h, w, j) == 0.0
  {
    if h != [] {
      EntryOfZero(h[..|h| - 1], w[..|h| - 1], j);
    }
  }

  /** A unit row picks its row of the matrix. */
  lemma {:induction false} EntryOfUnit(h: Vec, w: Matrix, i: nat, j: nat)
    requires |h| == |w| && Covers(w, j + 1) && IsUnit(h, i)
    ensures Entry(h, w, j) == w[i][j]
  {
    var n := |h| - 1;
    if i == n {
      EntryOfZero(h[..n], w[..n], j);
    } else {
      EntryOfUnit(h[..n], w[..n], i, j);
    }
  }

  lemma {:induction false} EntryScaled(c: real, h: Vec, h': Vec, w: Matrix, j: nat)
    requires |h| == |w| && Covers(w, j + 1) && Scaled(c, h, h')
    ensures Entry(h', w, j) == c * Entry(h, w, j)
  {
    if h != [] {
      var n := |h| - 1;
      EntryScaled(c, h[..n], h'[..n], w[..n], j);
      assert (c * h[n]) * w[n][j] == c * (h[n] * w[n][j]);
    }
  }

  lemma {:induction false} EntryScaledRows(c: real, h: Vec, w: Matrix, w': Matrix, j: nat)
    requires |h| == |w| && Covers(w, j + 1) && ScaledRows(c, w, w')
    ensures Covers(w', j + 1) && Entry(h, w', j) == c * Entry(h, w, j)
  {
    if h != [] {
      var n := |h| - 1;
      EntryScaledRows(c, h[..n], w[..n], w'[..n], j);
      assert Scaled(c, w[n], w'[n]);
      assert h[n] * (c * w[n][j]) == c * (h[n] * w[n][j]);
    }
  }

  lemma {:induction false} EntryAdds(a: Vec, b: Vec, w: Matrix, j: nat)
    requires |a| == |b| == |w| && Covers(w, j + 1)
    ensures Entry(Plus(a, b), w, j) == Entry(a, w, j) + Entry(b, w, j)
  {
    if a != [] {
      var n := |a| - 1;
      EntryAdds(a[..n], b[..n], w[..n], j);
      assert Plus(a, b)[..n] == Plus(a[..n], b[..n]);
    }
  }

  lemma ApplyScaled(c: real, h: Vec, h': Vec, w: Matrix, cols: nat)
    requires |h| == |w| && Covers(w, cols) && Scaled(c, h, h')
    ensures Scaled(c, Apply(h, w, cols), Apply(h', w, cols))
  {
    forall j | 0 <= j < cols ensures Entry(h', w, j) == c * Entry(h, w, j) {
      EntryScaled(c, h, h', w, j);
    }
  }

  lemma ApplyScaledRows(c: real, h: Vec, w: Matrix, w': Matrix, cols: nat)
    requires |h| == |w| && Covers(w, cols) && Covers(w', cols) && ScaledRows(c, w, w')
    ensures Scaled(c, Apply(h, w, cols), Apply(h, w', cols))
  {
    forall j | 0 <= j < cols ensures Entry(h, w', j) == c * Entry(h, w, j) {
      EntryScaledRows(c, h, w, w', j);
    }
  }

  /** The product is the one linear map that takes the i-th unit row to row i of the matrix. */
  lemma ApplyIsLinear(c: real, a: Vec, a': Vec, b: Vec, w: Matrix, cols: nat)
    requires |a| == |b| == |w| && Covers(w, cols) && Scaled(c, a, a')
    ensures Scaled(c, Apply(a, w, cols), Apply(a', w, cols))
    ensures Apply(Plus(a, b), w, cols) == Plus(Apply(a, w, cols), Apply(b, w, cols))
    ensures forall i: nat | IsUnit(a, i) :: Apply(a, w, cols) == w[i][..cols]
  {
    ApplyScaled(c, a, a', w, cols);
    forall j | 0 <= j < cols ensures Entry(Plus(a, b), w, j) == Entry(a, w, j) + Entry(b, w, j) {
      EntryAdds(a, b, w, j);
    }
    forall i: nat | IsUnit(a, i) ensures Apply(a, w, cols) == w[i][..cols] {
      forall j | 0 <= j < cols ensures Entry(a, w, j) == w[i][j] {
        EntryOfUnit(a, w, i, j);
      }
    }
  }
}
