/** Reading a measured slowdown curve at any footprint: linear between knots, constant above the last,
    and on the line through the origin below the first. */
module KnotCurve {
  datatype Knot = Knot(x: real, y: real)

  datatype Reading = NoData | ZeroDivision | Value(v: real)

  /** The bracket's line, read at frac. */
  function Between(a: Knot, b: Knot, frac: real): Reading {
    if b.x == a.x then ZeroDivision else Value(a.y + (frac - a.x) / (b.x - a.x) * (b.y - a.y))
  }

  /** The first bracket from i on that holds frac, else what lies outside all of them. */
  function Scan(pts: seq<Knot>, frac: real, i: nat): Reading
    requires i < |pts|
    decreases |pts| - i
  {
    if i + 1 < |pts| then
      if pts[i].x <= frac <= pts[i + 1].x then Between(pts[i], pts[i + 1], frac) else Scan(pts, frac, i + 1)
    else if frac < pts[0].x then
      if pts[0].x == 0.0 then ZeroDivision else Value(pts[0].y * frac / pts[0].x)
    else Value(pts[|pts| - 1].y)
  }

  function Prediction(pts: seq<Knot>, frac: real): Reading {
    if pts == [] then NoData else Scan(pts, frac, 0)
  }

  /** Measured footprints are positive and, for distinct rates, distinct. */
  ghost predicate Knots(pts: seq<Knot>) {
    pts != [] && 0.0 < pts[0].x && forall i, j :: 0 <= i < j < |pts| ==> pts[i].x < pts[j].x
  }

  ghost predicate Sorted(pts: seq<Knot>) {
    forall i, j :: 0 <= i < j < |pts| ==> pts[i].x <= pts[j].x
  }

  lemma {:induction false} LaterBracketsAreSafe(pts: seq<Knot>, frac: real, i: nat)
    requires Sorted(pts) && 0 < i < |pts| && !(pts[i - 1].x <= frac <= pts[i].x)
    ensures Scan(pts, frac, i) == ZeroDivision <==> frac < pts[0].x == 0.0
    decreases |pts| - i
  {
    if i + 1 < |pts| && !(pts[i].x <= frac <= pts[i + 1].x) {
      LaterBracketsAreSafe(pts, frac, i + 1);
    }
  }

  /** Over any sorted knots, repeated footprints included, the reading divides by zero only when the
      first two knots share exactly the footprint asked for, or below a first knot at zero. */
  lemma DividesByZeroExactly(pts: seq<Knot>, frac: real)
    requires Sorted(pts) && pts != []
    ensures Prediction(pts, frac) == ZeroDivision
        <==> (|pts| > 1 && pts[0].x == pts[1].x == frac) || frac < pts[0].x == 0.0
  {
    if |pts| > 1 && !(pts[0].x <= frac <= pts[1].x) {
      LaterBracketsAreSafe(pts, frac, 1);
    }
  }

  // ---------------------------------------------------------------- the curve as one polyline

  /** The same curve with the origin as a first knot: the part below the first measured knot is then a
      bracket like any other. */
  function Corner(pts: seq<Knot>, i: nat): Knot
    requires i <= |pts|
  {
    if i == 0 then Knot(0.0, 0.0) else pts[i - 1]
  }

  lemma CornersIncrease(pts: seq<Knot>, i: nat, j: nat)
    requires Knots(pts) && i <= j <= |pts|
    ensures if i < j then Corner(pts, i).x < Corner(pts, j).x else Corner(pts, i) == Corner(pts, j)
  {
  }

  /** The line of bracket i of the polyline, read at frac. */
  function At(pts: seq<Knot>, i: nat, frac: real): real
    requires Knots(pts) && i < |pts|
  {
    CornersIncrease(pts, i, i + 1);
    var a, b := Corner(pts, i), Corner(pts, i + 1);
    a.y + (frac - a.x) / (b.x - a.x) * (b.y - a.y)
  }

  predicate InBracket(pts: seq<Knot>, i: nat, frac: real)
    requires i < |pts|
  {
    Corner(pts, i).x <= frac <= Corner(pts, i + 1).x
  }

  lemma AtEnds(pts: seq<Knot>, i: nat)
    requires Knots(pts) && i < |pts|
    ensures At(pts, i, Corner(pts, i).x) == Corner(pts, i).y && At(pts, i, Corner(pts, i + 1).x) == Corner(pts, i + 1).y
  {
    CornersIncrease(pts, i, i + 1);
    var a, b := Corner(pts, i), Corner(pts, i + 1);
    assert (b.x - a.x) / (b.x - a.x) == 1.0;
    assert (a.x - a.x) / (b.x - a.x) == 0.0;
  }

  /** Brackets that share a point agree on it, so it does not matter which one the scan finds first. */
  lemma BracketsAgree(pts: seq<Knot>, i: nat, j: nat, frac: real)
    requires Knots(pts) && i <= j < |pts| && InBracket(pts, i, frac) && InBracket(pts, j, frac)
    ensures At(pts, i, frac) == At(pts, j, frac)
  {
    if i < j {
      CornersIncrease(pts, i + 1, j);
      assert j == i + 1 && frac == Corner(pts, j).x;
      AtEnds(pts, i);
      AtEnds(pts, j);
    }
  }

  lemma {:induction false} ScanFinds(pts: seq<Knot>, frac: real, i: nat, j: nat)
    requires Knots(pts) && i < j < |pts| && InBracket(pts, j, frac)
    ensures Scan(pts, frac, i) == Value(At(pts, j, frac))
    decreases j - i
  {
    if InBracket(pts, i + 1, frac) {
      BracketsAgree(pts, i + 1, j, frac);
    } else {
      assert i + 1 < j;
      ScanFinds(pts, frac, i + 1, j);
    }
  }

  lemma {:induction false} ScanLeaves(pts: seq<Knot>, frac: real, i: nat)
    requires Knots(pts) && i < |pts| && (frac < pts[0].x || pts[|pts| - 1].x < frac)
    ensures Scan(pts, frac, i) == Scan(pts, frac, |pts| - 1)
    decreases |pts| - i
  {
    if i + 1 < |pts| {
      ScanLeaves(pts, frac, i + 1);
    }
  }

  /** The code's reading on every bracket of the polyline, shared knots included, and above the last. */
  lemma PredictionIsPolyline(pts: seq<Knot>, frac: real)
    requires Knots(pts) && 0.0 <= frac
    ensures forall j :: 0 <= j < |pts| && InBracket(pts, j, frac) ==> Prediction(pts, frac) == Value(At(pts, j, frac))
    ensures pts[|pts| - 1].x <= frac ==> Prediction(pts, frac) == Value(pts[|pts| - 1].y)
    ensures Prediction(pts, frac).Value?
  {
    forall j | 0 <= j < |pts| && InBracket(pts, j, frac) ensures Prediction(pts, frac) == Value(At(pts, j, frac)) {
      PredictionInBracket(pts, j, frac);
    }
    var n := |pts|;
    if pts[n - 1].x < frac {
      ScanLeaves(pts, frac, 0);
    } else {
      var j := FindBracket(pts, frac, n);
      if pts[n - 1].x == frac {
        PredictionInBracket(pts, n - 1, frac);
        AtEnds(pts, n - 1);
      }
    }
  }

  lemma PredictionInBracket(pts: seq<Knot>, j: nat, frac: real)
    requires Knots(pts) && 0.0 <= frac && j < |pts| && InBracket(pts, j, frac)
    ensures Prediction(pts, frac) == Value(At(pts, j, frac))
  {
    if j > 0 {
      ScanFinds(pts, frac, 0, j);
    } else if frac < pts[0].x {
      ScanLeaves(pts, frac, 0);
      Proportional(pts[0], frac);
    } else {
      AtEnds(pts, 0);
      if |pts| > 1 {
        AtEnds(pts, 1);
        assert InBracket(pts, 1, frac);
      }
    }
  }

  lemma Proportional(k: Knot, frac: real)
    requires k.x > 0.0
    ensures k.y * frac / k.x == 0.0 + (frac - 0.0) / (k.x - 0.0) * (k.y - 0.0)
  {
    var q := frac / k.x;
    assert q * k.x == frac;
    assert k.y * frac == (q * k.y) * k.x;
  }

  lemma {:induction false} FindBracket(pts: seq<Knot>, frac: real, n: nat) returns (j: nat)
    requires 0 < n <= |pts| && Knots(pts) && 0.0 <= frac <= pts[n - 1].x
    ensures j < n && InBracket(pts, j, frac)
  {
    if n == 1 || pts[n - 2].x <= frac {
      j := n - 1;
    } else {
      j := FindBracket(pts, frac, n - 1);
    }
  }

  /** The curve passes through every knot. */
  lemma ThroughKnots(pts: seq<Knot>, i: nat)
    requires Knots(pts) && i < |pts|
    ensures Prediction(pts, pts[i].x) == Value(pts[i].y)
  {
    CornersIncrease(pts, 0, i + 1);
    CornersIncrease(pts, i, i + 1);
    PredictionInBracket(pts, i, pts[i].x);
    AtEnds(pts, i);
  }

  // ---------------------------------------------------------------- how fast it can rise or fall

  ghost predicate RisesBetween(dy: real, lo: real, hi: real, dx: real) {
    lo * dx <= dy <= hi * dx
  }

  ghost predicate BracketSloped(pts: seq<Knot>, i: nat, lo: real, hi: real)
    requires i < |pts|
  {
    var a, b := Corner(pts, i), Corner(pts, i + 1);
    RisesBetween(b.y - a.y, lo, hi, b.x - a.x)
  }

  ghost predicate SlopedUpTo(pts: seq<Knot>, n: nat, lo: real, hi: real)
    requires n <= |pts|
  {
    forall i :: 0 <= i < n ==> BracketSloped(pts, i, lo, hi)
  }

  /** Every bracket rises by at least lo and at most hi per unit. */
  ghost predicate Sloped(pts: seq<Knot>, lo: real, hi: real) {
    SlopedUpTo(pts, |pts|, lo, hi)
  }

  lemma Within(pts: seq<Knot>, i: nat, f: real, g: real, lo: real, hi: real)
    requires Knots(pts) && Sloped(pts, lo, hi) && i < |pts| && f <= g
    ensures RisesBetween(At(pts, i, g) - At(pts, i, f), lo, hi, g - f)
  {
    CornersIncrease(pts, i, i + 1);
    assert BracketSloped(pts, i, lo, hi);
    var a, b := Corner(pts, i), Corner(pts, i + 1);
    Line(f - a.x, g - a.x, b.x - a.x, b.y - a.y, lo, hi);
  }

  lemma Line(f: real, g: real, w: real, h: real, lo: real, hi: real)
    requires w > 0.0 && f <= g && lo * w <= h <= hi * w
    ensures lo * (g - f) <= g / w * h - f / w * h <= hi * (g - f)
  {
    var p, q := f / w, g / w;
    assert p * w == f && q * w == g;
    var d := q - p;
    assert d * w == g - f;
    Sign(d, w);
    assert d * (h - lo * w) >= 0.0 && d * (hi * w - h) >= 0.0;
    assert d * h == q * h - p * h;
    assert lo * (d * w) == d * (lo * w) && hi * (d * w) == d * (hi * w);
  }

  lemma Sign(d: real, w: real)
    requires w > 0.0 && d * w >= 0.0
    ensures d >= 0.0
  {
    assert d == d * w / w;
  }

  lemma {:induction false} Across(pts: seq<Knot>, i: nat, f: real, j: nat, g: real, lo: real, hi: real)
    requires Knots(pts) && Sloped(pts, lo, hi) && i <= j < |pts|
    requires InBracket(pts, i, f) && InBracket(pts, j, g) && f <= g
    ensures RisesBetween(At(pts, j, g) - At(pts, i, f), lo, hi, g - f)
  {
    if i == j {
      Within(pts, i, f, g, lo, hi);
    } else {
      var m := Corner(pts, j).x;
      CornersIncrease(pts, j - 1, j);
      CornersIncrease(pts, i + 1, j);
      Across(pts, i, f, j - 1, m, lo, hi);
      Within(pts, j, m, g, lo, hi);
      AtEnds(pts, j - 1);
      AtEnds(pts, j);
      Chain(At(pts, j, g), At(pts, j, m), At(pts, i, f), lo, hi, g, m, f);
    }
  }

  lemma Chain(yg: real, ym: real, yf: real, lo: real, hi: real, g: real, m: real, f: real)
    requires RisesBetween(ym - yf, lo, hi, m - f) && RisesBetween(yg - ym, lo, hi, g - m)
    ensures RisesBetween(yg - yf, lo, hi, g - f)
  {
    assert lo * (g - f) == lo * (g - m) + lo * (m - f);
    assert hi * (g - f) == hi * (g - m) + hi * (m - f);
  }

  function Curve(pts: seq<Knot>, frac: real): real
    requires Knots(pts) && 0.0 <= frac
  {
    PredictionIsPolyline(pts, frac);
    Prediction(pts, frac).v
  }

  lemma RisesBelowLast(pts: seq<Knot>, f: real, g: real, lo: real, hi: real)
    requires Knots(pts) && Sloped(pts, lo, hi) && 0.0 <= f <= g <= pts[|pts| - 1].x
    ensures RisesBetween(Curve(pts, g) - Curve(pts, f), lo, hi, g - f)
  {
    var j := FindBracket(pts, g, |pts|);
    var i := FindBracket(pts, f, j + 1);
    PredictionIsPolyline(pts, f);
    PredictionIsPolyline(pts, g);
    Across(pts, i, f, j, g, lo, hi);
  }

  /** Slope bounds that hold on every bracket, and allow for standing still, hold for the whole curve. */
  lemma CurveRises(pts: seq<Knot>, f: real, g: real, lo: real, hi: real)
    requires Knots(pts) && Sloped(pts, lo, hi) && lo <= 0.0 <= hi && 0.0 <= f <= g
    ensures RisesBetween(Curve(pts, g) - Curve(pts, f), lo, hi, g - f)
  {
    var last := pts[|pts| - 1].x;
    CornersIncrease(pts, 0, |pts|);
    if g <= last {
      RisesBelowLast(pts, f, g, lo, hi);
    } else {
      PredictionIsPolyline(pts, g);
      PredictionIsPolyline(pts, last);
      if f <= last {
        RisesBelowLast(pts, f, last, lo, hi);
        Still(lo, hi, g - last);
        Chain(Curve(pts, g), Curve(pts, last), Curve(pts, f), lo, hi, g, last, f);
      } else {
        PredictionIsPolyline(pts, f);
        Still(lo, hi, g - f);
      }
    }
  }

  lemma Still(lo: real, hi: real, d: real)
    requires lo <= 0.0 <= hi && d >= 0.0
    ensures RisesBetween(0.0, lo, hi, d)
  {
    assert (0.0 - lo) * d >= 0.0 && hi * d >= 0.0;
  }

  /** The curve is continuous at a known rate: if no bracket is steeper than `steepest`, nearby
      footprints give readings no further apart than that times their distance. */
  lemma Continuous(pts: seq<Knot>, f: real, g: real, steepest: real)
    requires Knots(pts) && steepest >= 0.0 && Sloped(pts, 0.0 - steepest, steepest) && 0.0 <= f <= g
    ensures 0.0 - steepest * (g - f) <= Curve(pts, g) - Curve(pts, f) <= steepest * (g - f)
  {
    CurveRises(pts, f, g, 0.0 - steepest, steepest);
  }

  /** There always is such a rate. */
  lemma {:induction false} SomeSteepest(pts: seq<Knot>, n: nat) returns (s: real)
    requires Knots(pts) && n <= |pts|
    ensures s >= 0.0 && SlopedUpTo(pts, n, 0.0 - s, s)
  {
    if n == 0 {
      s := 0.0;
    } else {
      var t := SomeSteepest(pts, n - 1);
      var r := Steepness(pts, n - 1);
      s := if t > r then t else r;
      var fall := 0.0 - s;
      forall i | 0 <= i < n ensures BracketSloped(pts, i, fall, s) {
        Looser(pts, i, if i == n - 1 then r else t, s);
      }
    }
  }

  lemma Steepness(pts: seq<Knot>, i: nat) returns (s: real)
    requires Knots(pts) && i < |pts|
    ensures s >= 0.0 && BracketSloped(pts, i, 0.0 - s, s)
  {
    CornersIncrease(pts, i, i + 1);
    var w, h := Corner(pts, i + 1).x - Corner(pts, i).x, Corner(pts, i + 1).y - Corner(pts, i).y;
    var q := h / w;
    assert q * w == h;
    s := if q > 0.0 then q else 0.0 - q;
    assert s * w >= 0.0;
  }

  lemma Looser(pts: seq<Knot>, i: nat, r: real, s: real)
    requires Knots(pts) && i < |pts| && BracketSloped(pts, i, 0.0 - r, r) && r <= s
    ensures BracketSloped(pts, i, 0.0 - s, s)
  {
    CornersIncrease(pts, i, i + 1);
    assert (s - r) * (Corner(pts, i + 1).x - Corner(pts, i).x) >= 0.0;
  }

  /** The readings never fall as the footprint grows exactly when the first knot is not below zero and
      the knots never fall. */
  lemma RisingExactly(pts: seq<Knot>)
    requires Knots(pts)
    ensures (forall f, g :: 0.0 <= f <= g ==> Curve(pts, f) <= Curve(pts, g))
        <==> 0.0 <= pts[0].y && forall i :: 0 < i < |pts| ==> pts[i - 1].y <= pts[i].y
  {
    if 0.0 <= pts[0].y && forall i :: 0 < i < |pts| ==> pts[i - 1].y <= pts[i].y {
      forall f, g | 0.0 <= f <= g ensures Curve(pts, f) <= Curve(pts, g) {
        var s := SomeSteepest(pts, |pts|);
        forall i | 0 <= i < |pts| ensures BracketSloped(pts, i, 0.0, s) {
          assert BracketSloped(pts, i, 0.0 - s, s);
          CornersIncrease(pts, i, i + 1);
        }
        CurveRises(pts, f, g, 0.0, s);
      }
    } else if pts[0].y < 0.0 {
      ThroughKnots(pts, 0);
      PredictionInBracket(pts, 0, 0.0);
      AtEnds(pts, 0);
      assert Curve(pts, pts[0].x) < Curve(pts, 0.0);
    } else {
      var i :| 0 < i < |pts| && pts[i].y < pts[i - 1].y;
      ThroughKnots(pts, i - 1);
      ThroughKnots(pts, i);
      CornersIncrease(pts, 0, i);
      assert Curve(pts, pts[i].x) < Curve(pts, pts[i - 1].x);
    }
  }
}
