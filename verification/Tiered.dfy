/** Hot/cold tiered attention: unnormalised partials (o, m, l), each relative to its own reference
    m, merged many ways at once. */
module Tiered {
  import opened Options
  import opened Attention

  datatype Part = Part(o: Vec, m: real, l: real)

  /** The unquantised partial of a tier, relative to the tier's own maximum. */
  function PartialFp16(h: Head, ts: seq<Token>): (p: Part)
    requires h.Fits(ts) && ts != []
    ensures PartOf(h, p, ts)
  {
    var m := MaxScore(h, ts);
    Part(seq(h.dim, j requires 0 <= j < h.dim => WSum(h, ts, m, Coord(j))), m, WSum(h, ts, m, Ones))
  }

  /** Each part holds the sums over its own rows, relative to whatever reference it carries. */
  ghost predicate PartOf(h: Head, p: Part, ts: seq<Token>) {
    h.Fits(ts) && SumsAt(h, ts, p.m, p.l, p.o)
  }

  ghost predicate PartsOf(h: Head, parts: seq<Part>, tss: seq<seq<Token>>) {
    && |parts| == |tss|
    && forall i | 0 <= i < |parts| :: PartOf(h, parts[i], tss[i])
  }

  function Field(p: Part, c: Column): real
    requires c.Coord? ==> c.j < |p.o|
  {
    match c
    case Ones => p.l
    case Coord(j) => p.o[j]
  }

  predicate Wide(parts: seq<Part>, dim: nat) {
    forall i | 0 <= i < |parts| :: |parts[i].o| == dim
  }

  function TopReference(parts: seq<Part>): real
    requires parts != []
  {
    var n := |parts| - 1;
    if n == 0 then parts[0].m else Max(TopReference(parts[..n]), parts[n].m)
  }

  /** The common reference is the largest one stored, so no correction factor is above one. */
  lemma {:induction false} TopReferenceIsLargest(parts: seq<Part>) returns (top: nat)
    requires parts != []
    ensures top < |parts| && parts[top].m == TopReference(parts)
    ensures forall i | 0 <= i < |parts| :: parts[i].m <= parts[top].m
  {
    var n := |parts| - 1;
    top := n;
    if n > 0 {
      var before := TopReferenceIsLargest(parts[..n]);
      assert forall k | 0 <= k < n :: parts[..n][k] == parts[k];
      top := if parts[before].m < parts[n].m then n else before;
    }
  }

  /** One column of the merge: every part moved to the common reference, then added. */
  function Rescaled(h: Head, parts: seq<Part>, m: real, c: Column): real
    requires Wide(parts, h.dim) && (c.Coord? ==> c.j < h.dim)
  {
    if parts == [] then 0.0
    else
      var n := |parts| - 1;
      Rescaled(h, parts[..n], m, c) + Moved(h, parts[n], m, c)
  }

  /** One column of one part, corrected to the reference `m`. */
  function Moved(h: Head, p: Part, m: real, c: Column): real
    requires |p.o| == h.dim && (c.Coord? ==> c.j < h.dim)
  {
    Field(p, c) * h.math.exp(p.m - m)
  }

  lemma FieldIsSum(h: Head, p: Part, ts: seq<Token>, c: Column)
    requires PartOf(h, p, ts) && (c.Coord? ==> c.j < h.dim)
    ensures Field(p, c) == WSum(h, ts, p.m, c)
  {
  }

  /** A part moved to another reference is the sum over its rows relative to that reference. */
  lemma FieldRebased(h: Head, p: Part, ts: seq<Token>, m: real, c: Column)
    requires h.Valid() && PartOf(h, p, ts) && (c.Coord? ==> c.j < h.dim)
    ensures Moved(h, p, m, c) == WSum(h, ts, m, c)
  {
    FieldIsSum(h, p, ts, c);
    WSumRebase(h, ts, p.m, m, c);
  }

  lemma PartsFit(h: Head, parts: seq<Part>, tss: seq<seq<Token>>)
    requires PartsOf(h, parts, tss)
    ensures Wide(parts, h.dim) && h.Fits(Concat(tss))
  {
    forall i | 0 <= i < |tss| ensures h.Fits(tss[i]) && |parts[i].o| == h.dim {
      assert PartOf(h, parts[i], tss[i]);
    }
    ConcatFits(h, tss);
  }

  lemma {:induction false} RescaledIsWSum(h: Head, parts: seq<Part>, tss: seq<seq<Token>>, m: real, c: Column)
    requires h.Valid() && PartsOf(h, parts, tss) && (c.Coord? ==> c.j < h.dim)
    requires Wide(parts, h.dim) && h.Fits(Concat(tss))
    ensures Rescaled(h, parts, m, c) == WSum(h, Concat(tss), m, c)
  {
    if parts != [] {
      var n := |parts| - 1;
      var rest, p, ts := tss[..n], parts[n], tss[n];
      assert PartOf(h, p, ts);
      FieldRebased(h, p, ts, m, c);
      PartsFit(h, parts[..n], rest);
      RescaledIsWSum(h, parts[..n], rest, m, c);
      assert Rescaled(h, parts, m, c) == WSum(h, Concat(rest), m, c) + WSum(h, ts, m, c);
      assert Concat(tss) == Concat(rest) + ts;
      WSumAppend(h, Concat(rest), ts, m, c);
    }
  }

  /** What the merge divides out, relative to the largest stored reference. */
  function Merged(h: Head, parts: seq<Part>): (r: Option<Vec>)
    requires Wide(parts, h.dim) && parts != []
    ensures r.Some? ==> |r.value| == h.dim
  {
    var m := TopReference(parts);
    var den := Rescaled(h, parts, m, Ones);
    if den == 0.0 then None
    else Some(seq(h.dim, j requires 0 <= j < h.dim => Rescaled(h, parts, m, Coord(j)) / den))
  }

  lemma OneMorePart(h: Head, parts: seq<Part>, i: nat, m: real, c: Column)
    requires i < |parts| && Wide(parts, h.dim) && (c.Coord? ==> c.j < h.dim)
    ensures Rescaled(h, parts[..i + 1], m, c) == Rescaled(h, parts[..i], m, c) + Moved(h, parts[i], m, c)
  {
    assert parts[..i + 1][..i] == parts[..i];
  }

  /** Numerator and denominator at a common reference. */
  method Sums(h: Head, parts: seq<Part>, m: real) returns (num: Vec, den: real)
    requires Wide(parts, h.dim)
    ensures |num| == h.dim && den == Rescaled(h, parts, m, Ones)
    ensures forall j | 0 <= j < h.dim :: num[j] == Rescaled(h, parts, m, Coord(j))
  {
    num, den := Zeros(h.dim), 0.0;
    for i := 0 to |parts|
      invariant |num| == h.dim
      invariant den == Rescaled(h, parts[..i], m, Ones)
      invariant forall j | 0 <= j < h.dim :: num[j] == Rescaled(h, parts[..i], m, Coord(j))
    {
      var p := parts[i];
      OneMorePart(h, parts, i, m, Ones);
      forall j | 0 <= j < h.dim
        ensures Rescaled(h, parts[..i + 1], m, Coord(j)) == Rescaled(h, parts[..i], m, Coord(j)) + Moved(h, p, m, Coord(j))
      {
        OneMorePart(h, parts, i, m, Coord(j));
      }
      num := seq(h.dim, j requires 0 <= j < h.dim => num[j] + Moved(h, p, m, Coord(j)));
      den := den + Moved(h, p, m, Ones);
    }
    assert parts[..|parts|] == parts;
  }

  /** The three passes of the merge: the common reference, then numerator and denominator. */
  method Merge(h: Head, parts: seq<Part>) returns (out: Option<Vec>)
    requires Wide(parts, h.dim) && parts != []
    ensures out == Merged(h, parts)
  {
    var mAll := parts[0].m;
    for i := 1 to |parts|
      invariant mAll == TopReference(parts[..i])
    {
      assert parts[..i + 1][..i] == parts[..i];
      mAll := Max(mAll, parts[i].m);
    }
    assert parts[..|parts|] == parts;
    var num, den := Sums(h, parts, mAll);
    if den == 0.0 {
      return None;
    }
    out := Some(seq(h.dim, j requires 0 <= j < h.dim => num[j] / den));
    assert out.value == Merged(h, parts).value;
  }

  /** The merge of partials is dense attention over the union of their rows. */
  lemma MergedIsDense(h: Head, parts: seq<Part>, tss: seq<seq<Token>>)
    requires h.Valid() && PartsOf(h, parts, tss) && Concat(tss) != []
    ensures parts != [] && Wide(parts, h.dim) && h.Fits(Concat(tss))
    ensures Merged(h, parts) == Some(Dense(h, Concat(tss)))
  {
    var ts := Concat(tss);
    PartsFit(h, parts, tss);
    var m := TopReference(parts);
    RescaledIsWSum(h, parts, tss, m, Ones);
    WSumPositive(h, ts, m);
    var v := Merged(h, parts).value;
    forall j | 0 <= j < h.dim ensures v[j] == Dense(h, ts)[j] {
      RescaledIsWSum(h, parts, tss, m, Coord(j));
      DenseAnyReference(h, ts, m, j);
    }
    assert v == Dense(h, ts);
  }

  /** Neither the reference stored in a part, nor the order of the parts, nor where the rows were cut
      matters: only the bag of rows does. */
  lemma MergedDependsOnRowsOnly(h: Head, parts: seq<Part>, tss: seq<seq<Token>>,
                                parts': seq<Part>, tss': seq<seq<Token>>)
    requires h.Valid() && PartsOf(h, parts, tss) && PartsOf(h, parts', tss')
    requires Concat(tss) != [] && multiset(Concat(tss)) == multiset(Concat(tss'))
    ensures parts != [] && parts' != [] && Wide(parts, h.dim) && Wide(parts', h.dim)
    ensures Merged(h, parts) == Merged(h, parts')
  {
    assert |multiset(Concat(tss))| == |Concat(tss)| && |multiset(Concat(tss'))| == |Concat(tss')|;
    MergedIsDense(h, parts, tss);
    MergedIsDense(h, parts', tss');
    DensePermutation(h, Concat(tss), Concat(tss'));
  }

  // ---------------------------------------------------------------- the hot/cold split

  /** rows[i:] with the source language's meaning of a negative index. */
  function SliceFrom<T>(rows: seq<T>, i: int): seq<T> {
    var start := if i < 0 then |rows| + i else i;
    if start < 0 then rows else if start > |rows| then [] else rows[start..]
  }

  /** The rows each tier attends to. An empty hot tier has no maximum, and the reduction raises. */
  function TierRows(rows: seq<Token>, nHot: int): Option<seq<seq<Token>>> {
    var nCold := |rows| - nHot;
    var hot := SliceFrom(rows, nCold);
    if hot == [] then None
    else if nCold > 0 then Some([hot, rows[..nCold]])
    else Some([hot])
  }

  function TieredAttention(h: Head, rows: seq<Token>, nHot: int): Option<Vec>
    requires h.Fits(rows)
  {
    match TierRows(rows, nHot)
    case None => None
    case Some(tss) => Merged(h, Partials(h, tss))
  }

  function Partials(h: Head, tss: seq<seq<Token>>): (parts: seq<Part>)
    requires Chunked(h, tss)
    ensures PartsOf(h, parts, tss)
  {
    seq(|tss|, i requires 0 <= i < |tss| => PartialFp16(h, tss[i]))
  }

  /** The rows the two tiers cover together, in tier order. */
  function Covered(rows: seq<Token>, nHot: int): seq<Token> {
    var nCold := |rows| - nHot;
    if nCold > 0 then SliceFrom(rows, nCold) + rows[..if nHot < 0 then |rows| else nCold]
    else SliceFrom(rows, nCold)
  }

  lemma ConcatOfTiers<T>(a: seq<T>, b: seq<T>)
    ensures Concat([a]) == a && Concat([a, b]) == a + b
  {
    assert [a, b][..1] == [a] && [a][..0] == [];
    assert Concat([a]) == Concat<T>([]) + a == a;
  }

  lemma TiersCover(rows: seq<Token>, nHot: int)
    requires TierRows(rows, nHot).Some?
    ensures Concat(TierRows(rows, nHot).value) == Covered(rows, nHot) != []
  {
    var tss := TierRows(rows, nHot).value;
    ConcatOfTiers(tss[0], tss[|tss| - 1]);
  }

  lemma TieredIsDenseOverCovered(h: Head, rows: seq<Token>, nHot: int)
    requires h.Valid() && h.Fits(rows) && TierRows(rows, nHot).Some?
    ensures var ts := Covered(rows, nHot);
            h.Fits(ts) && ts != [] && TieredAttention(h, rows, nHot) == Some(Dense(h, ts))
  {
    var tss := TierRows(rows, nHot).value;
    TiersCover(rows, nHot);
    MergedIsDense(h, Partials(h, tss), tss);
  }

  /** With a hot tier that fits, the split is invisible. */
  lemma TieredIsDense(h: Head, rows: seq<Token>, nHot: int)
    requires h.Valid() && h.Fits(rows) && rows != []
    requires 1 <= nHot <= |rows| || nHot >= 2 * |rows|
    ensures TieredAttention(h, rows, nHot) == Some(Dense(h, rows))
  {
    var ts := Covered(rows, nHot);
    var nCold := |rows| - nHot;
    TieredIsDenseOverCovered(h, rows, nHot);
    if nCold > 0 {
      assert ts == rows[nCold..] + rows[..nCold];
      assert rows == rows[..nCold] + rows[nCold..];
    } else {
      assert ts == rows;
    }
    DensePermutation(h, ts, rows);
  }

  /** Rows that only the first one distinguishes: value one there, zero everywhere else. */
  function Spike(h: Head, n: nat): (rows: seq<Token>)
    ensures |rows| == n && h.Fits(rows)
  {
    seq(n, i => Token(h.q, seq(h.dim, _ => if i == 0 then 1.0 else 0.0)))
  }

  lemma {:induction false} ZeroColumn(h: Head, ts: seq<Token>, j: nat)
    requires h.Fits(ts) && j < h.dim && forall i | 0 <= i < |ts| :: ts[i].v[j] == 0.0
    ensures WSum(h, ts, 0.0, Coord(j)) == 0.0
  {
    if ts != [] {
      ZeroColumn(h, ts[..|ts| - 1], j);
    }
  }

  /** A hot size between one and two times the context makes the slice start negative: the first
      rows fall out of both tiers, and the result is wrong for some KV. */
  lemma OversizedHotDropsRows(h: Head, n: nat, nHot: int)
    requires h.Valid() && h.dim > 0 && n < nHot < 2 * n
    ensures TieredAttention(h, Spike(h, n), nHot) != Some(Dense(h, Spike(h, n)))
  {
    var rows := Spike(h, n);
    var hot := Covered(rows, nHot);
    assert hot == rows[2 * n - nHot..];
    TieredIsDenseOverCovered(h, rows, nHot);
    ZeroColumn(h, hot, 0);
    DenseAnyReference(h, hot, 0.0, 0);
    assert Dense(h, hot)[0] == 0.0;
    SpikePositive(h, n);
  }

  lemma SpikePositive(h: Head, n: nat)
    requires h.Valid() && h.dim > 0 && n > 0
    ensures Dense(h, Spike(h, n))[0] > 0.0
  {
    var rows := Spike(h, n);
    var first, rest := [rows[0]], rows[1..];
    assert rows == first + rest;
    WSumAppend(h, first, rest, 0.0, Coord(0));
    ZeroColumn(h, rest, 0);
    assert h.math.Positive(Score(h, rows[0]) - 0.0);
    assert first[..0] == [] && WSum(h, first, 0.0, Coord(0)) == Term(h, rows[0], 0.0, Coord(0)) > 0.0;
    DenseAnyReference(h, rows, 0.0, 0);
  }

  /** Tiered attention equals dense attention on every KV of length n exactly when the hot size lies
      in the context, or is at least twice as large. */
  lemma TieredExact(h: Head, n: nat, nHot: int)
    requires h.Valid() && h.dim > 0 && n > 0
    ensures (forall rows | |rows| == n && h.Fits(rows) :: TieredAttention(h, rows, nHot) == Some(Dense(h, rows)))
        <==> 1 <= nHot <= n || nHot >= 2 * n
  {
    if 1 <= nHot <= n || nHot >= 2 * n {
      forall rows | |rows| == n && h.Fits(rows) ensures TieredAttention(h, rows, nHot) == Some(Dense(h, rows)) {
        TieredIsDense(h, rows, nHot);
      }
    } else {
      var rows := Spike(h, n);
      if nHot > n {
        OversizedHotDropsRows(h, n, nHot);
      } else {
        assert SliceFrom(rows, n - nHot) == [];
      }
      assert |rows| == n && h.Fits(rows) && TieredAttention(h, rows, nHot) != Some(Dense(h, rows));
    }
  }
}
