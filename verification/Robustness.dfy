/** Marking a cell of the boundary map as robust: does the chosen corner still win when every predicted
    latency may be off by its corner's error band? */
module Robustness {
  import opened Arithmetic
  import opened ElasticPolicy

  // ---------------------------------------------------------------- the flag

  /** Over capacity the chosen corner is compared with the runner-up, the fastest other legal corner, the
      one pushed to the top of its band and the other to the bottom. */
  predicate Flag(win: real, bandWin: real, runner: real, bandRunner: real) {
    win * (1.0 + bandWin) < runner * (1.0 - bandRunner)
  }

  type Predictions = map<Point, real>

  ghost predicate IsRunnerUp(p: Point, chosen: Point, legal: Predictions) {
    p in legal && p != chosen && forall q :: q in legal && q != chosen ==> legal[p] <= legal[q]
  }

  method LabelCell(fits: bool, chosen: Point, legal: Predictions, bands: Point -> real)
    returns (robust: bool, ghost runner: Point)
    ensures fits || |legal| < 2 || chosen !in legal ==> robust
    ensures !fits && |legal| >= 2 && chosen in legal ==>
      IsRunnerUp(runner, chosen, legal) && (robust <==> Flag(legal[chosen], bands(chosen), legal[runner], bands(runner)))
  {
    robust, runner := true, chosen;
    if !fits && |legal| >= 2 && chosen in legal {
      var others := legal.Keys - {chosen};
      assert |others| == |legal.Keys| - 1;
      var p := ArgMin(others, q => if q in legal then Ms(legal[q]) else Infinite);
      runner := p;
      robust := legal[chosen] * (1.0 + bands(chosen)) < legal[p] * (1.0 - bands(p));
      forall q | q in legal && q != chosen ensures legal[p] <= legal[q] {
        assert q in others;
      }
    }
  }

  // ---------------------------------------------------------------- errors relative to the prediction

  predicate InBand(truth: real, pred: real, band: real) {
    pred * (1.0 - band) <= truth <= pred * (1.0 + band)
  }

  /** win beats other for all true latencies inside the two bands. */
  ghost predicate SurelyBeats(win: real, bandWin: real, other: real, bandOther: real) {
    forall t, u :: InBand(t, win, bandWin) && InBand(u, other, bandOther) ==> t < u
  }

  /** The flag says exactly that the chosen corner beats the runner-up for all true latencies inside the
      two bands. */
  lemma FlagIsExact(win: real, bandWin: real, runner: real, bandRunner: real)
    requires win >= 0.0 && runner >= 0.0 && bandWin >= 0.0 && bandRunner >= 0.0
    ensures Flag(win, bandWin, runner, bandRunner) <==> SurelyBeats(win, bandWin, runner, bandRunner)
  {
    var t, u := win * (1.0 + bandWin), runner * (1.0 - bandRunner);
    assert win * bandWin >= 0.0 && runner * bandRunner >= 0.0;
    assert InBand(t, win, bandWin) && InBand(u, runner, bandRunner);
  }

  /** The chosen corner beats every legal alternative, for all true latencies inside the bands. */
  ghost predicate BeatsAll(chosen: Point, legal: Predictions, bands: Point -> real)
    requires chosen in legal
  {
    forall p :: p in legal && p != chosen ==> SurelyBeats(legal[chosen], bands(chosen), legal[p], bands(p))
  }

  predicate Plausible(legal: Predictions, bands: Point -> real) {
    forall p :: p in legal ==> legal[p] >= 0.0 && bands(p) >= 0.0
  }

  /** Beating every alternative is a flag per alternative, not one flag for the runner-up. */
  lemma BeatsAllExactly(chosen: Point, legal: Predictions, bands: Point -> real)
    requires chosen in legal && Plausible(legal, bands)
    ensures BeatsAll(chosen, legal, bands) <==>
      forall p :: p in legal && p != chosen ==> Flag(legal[chosen], bands(chosen), legal[p], bands(p))
  {
    forall p | p in legal && p != chosen {
      FlagIsExact(legal[chosen], bands(chosen), legal[p], bands(p));
    }
  }

  /** When the alternatives share one band, the flag for the runner-up settles them all. */
  lemma OneBandBeatsAll(chosen: Point, runner: Point, legal: Predictions, bands: Point -> real, band: real)
    requires chosen in legal && Plausible(legal, bands) && IsRunnerUp(runner, chosen, legal)
    requires forall p :: p in legal && p != chosen ==> bands(p) == band
    ensures Flag(legal[chosen], bands(chosen), legal[runner], band) <==> BeatsAll(chosen, legal, bands)
  {
    BeatsAllExactly(chosen, legal, bands);
    var win := legal[chosen];
    if Flag(win, bands(chosen), legal[runner], band) {
      forall p | p in legal && p != chosen ensures Flag(win, bands(chosen), legal[p], bands(p)) {
        SlowerKeepsFlag(win, bands(chosen), legal[runner], legal[p], band);
      }
    }
  }

  lemma SlowerKeepsFlag(win: real, bandWin: real, runner: real, other: real, band: real)
    requires win >= 0.0 && bandWin >= 0.0 && 0.0 <= runner <= other && Flag(win, bandWin, runner, band)
    ensures Flag(win, bandWin, other, band)
  {
    assert win * bandWin >= 0.0;
    assert runner > 0.0 && runner * (1.0 - band) > 0.0;
    CancelFactor(0.0, 1.0 - band, runner);
    MulMonoReal(runner, other, 1.0 - band);
  }

  // ---------------------------------------------------------------- errors relative to the measurement

  /** The bands come from held-out errors, which are relative to what was measured. */
  predicate WithinError(truth: real, pred: real, band: real) {
    truth > 0.0 && (if pred < truth then truth - pred else pred - truth) <= band * truth
  }

  /** win beats other for all true latencies that leave both predictions within their errors. */
  ghost predicate SurelyBeatsMeasured(win: real, bandWin: real, other: real, bandOther: real) {
    forall t, u :: WithinError(t, win, bandWin) && WithinError(u, other, bandOther) ==> t < u
  }

  /** The comparison that measured errors call for: each side takes the other's band. */
  predicate SwappedFlag(win: real, bandWin: real, runner: real, bandRunner: real) {
    Flag(win, bandRunner, runner, bandWin)
  }

  lemma EveryPairWins(win: real, bandWin: real, runner: real, bandRunner: real)
    requires bandWin < 1.0 && 0.0 <= bandRunner && SwappedFlag(win, bandWin, runner, bandRunner)
    ensures SurelyBeatsMeasured(win, bandWin, runner, bandRunner)
  {
    var a, b := 1.0 - bandWin, 1.0 + bandRunner;
    assert win * b < runner * a;
    forall t, u | WithinError(t, win, bandWin) && WithinError(u, runner, bandRunner) ensures t < u {
      assert t * a <= win by { ErrorBounds(t, win, bandWin, a, 1.0 + bandWin); }
      assert runner <= u * b by { ErrorBounds(u, runner, bandRunner, 1.0 - bandRunner, b); }
      WorstCaseOrders(t, u, win, runner, a, b);
    }
  }

  lemma SomePairLoses(win: real, bandWin: real, runner: real, bandRunner: real) returns (t: real, u: real)
    requires win > 0.0 && runner > 0.0 && bandWin >= 0.0 && bandRunner >= 0.0
    requires !SwappedFlag(win, bandWin, runner, bandRunner)
    ensures WithinError(t, win, bandWin) && WithinError(u, runner, bandRunner) && u <= t
  {
    u := Falls(runner, bandRunner);
    if bandWin < 1.0 {
      t := Reaches(win, bandWin);
      NotBelow(t, u, 1.0 - bandWin, 1.0 + bandRunner, win, runner);
    } else {
      t := if win < u then u else win;
      AnyLarger(t, win, bandWin);
    }
  }

  /** A band of one or more sets no upper limit to the true latency. */
  lemma AnyLarger(t: real, pred: real, band: real)
    ensures 0.0 < pred <= t && band >= 1.0 ==> WithinError(t, pred, band)
  {
    MulMonoReal(1.0, band, t);
  }

  /** A comparison that pushes the runner-up down by a band of one or more never holds. */
  lemma WideNeverFlags(win: real, bandWin: real, runner: real, bandRunner: real)
    ensures win >= 0.0 && runner >= 0.0 && bandWin >= 0.0 && bandRunner >= 1.0 ==> !Flag(win, bandWin, runner, bandRunner)
  {
    MulMonoReal(1.0 - bandRunner, 0.0, runner);
    MulMonoReal(0.0, 1.0 + bandWin, win);
  }

  /** Under such errors the chosen corner surely beats the runner-up exactly when the comparison holds
      with the two bands swapped, however wide the bands. */
  lemma MeasuredErrorsExact(win: real, bandWin: real, runner: real, bandRunner: real)
    requires win > 0.0 && runner > 0.0 && bandWin >= 0.0 && bandRunner >= 0.0
    ensures SurelyBeatsMeasured(win, bandWin, runner, bandRunner) <==> SwappedFlag(win, bandWin, runner, bandRunner)
  {
    if SwappedFlag(win, bandWin, runner, bandRunner) {
      if bandWin >= 1.0 {
        WideNeverFlags(win, bandRunner, runner, bandWin);
      }
      EveryPairWins(win, bandWin, runner, bandRunner);
    } else {
      var t, u := SomePairLoses(win, bandWin, runner, bandRunner);
    }
  }

  lemma ErrorBounds(t: real, pred: real, band: real, low: real, high: real)
    requires WithinError(t, pred, band) && low == 1.0 - band && high == 1.0 + band
    ensures t * low <= pred <= t * high
  {
    assert t * low == t - band * t && t * high == t + band * t;
  }

  lemma WorstCaseOrders(t: real, u: real, win: real, runner: real, a: real, b: real)
    requires a > 0.0 && b > 0.0 && t * a <= win && runner <= u * b && win * b < runner * a
    ensures t < u
  {
    MulMonoReal(t * a, win, b);
    MulMonoReal(runner, u * b, a);
    assert t * a * b == t * (a * b) && u * b * a == u * (a * b);
    assert a * b > 0.0;
    CancelFactor(t, u, a * b);
  }

  lemma NotBelow(t: real, u: real, a: real, b: real, win: real, runner: real)
    requires a > 0.0 && b > 0.0 && t * a == win && u * b == runner && win * b >= runner * a
    ensures t >= u
  {
    assert win * b == t * (a * b) && runner * a == u * (a * b);
    assert a * b > 0.0;
    if t < u {
      MulMonoReal(t, u, a * b);
    }
  }

  lemma Reaches(pred: real, band: real) returns (t: real)
    requires pred > 0.0 && 0.0 <= band < 1.0
    ensures WithinError(t, pred, band) && t * (1.0 - band) == pred
  {
    var a := 1.0 - band;
    t := pred / a;
    assert t * a == pred;
    CancelFactor(0.0, t, a);
    assert t - pred == band * t;
    assert band * t >= 0.0;
  }

  lemma Falls(pred: real, band: real) returns (u: real)
    requires pred > 0.0 && band >= 0.0
    ensures WithinError(u, pred, band) && u * (1.0 + band) == pred
  {
    var b := 1.0 + band;
    u := pred / b;
    assert u * b == pred;
    CancelFactor(0.0, u, b);
    assert pred - u == band * u;
    assert band * u >= 0.0;
  }

  /** Predictions that pass one comparison and fail the other, where the runner-up takes the smaller
      band. */
  lemma SwapFails(a: real, b: real) returns (win: real, runner: real)
    requires 0.0 <= b < 1.0 && b < a
    ensures win > 0.0 && runner > 0.0 && Flag(win, a, runner, b) && !Flag(win, b, runner, a)
  {
    if a < 1.0 {
      win, runner := 1.0 - a, 1.0 + b;
      assert Square(a, b) > 0.0 by { SquareGap(a, b); }
    } else {
      var half := (1.0 - b) / 2.0;
      runner := 1.0;
      win := Falls(half, a);
      assert win * (1.0 + a) == half;
      WideNeverFlags(win, b, runner, a);
    }
  }

  /** Of the two comparisons one implies the other for all predictions exactly when the implied one puts
      the larger band on the runner-up, or the implying one never holds. */
  lemma SwapImplies(a: real, b: real)
    requires a >= 0.0 && b >= 0.0
    ensures (forall win, runner :: win > 0.0 && runner > 0.0 && Flag(win, a, runner, b) ==> Flag(win, b, runner, a))
        <==> a <= b || b >= 1.0
  {
    if a <= b || b >= 1.0 {
      forall win, runner | win > 0.0 && runner > 0.0 && Flag(win, a, runner, b) ensures Flag(win, b, runner, a) {
        if b >= 1.0 {
          WideNeverFlags(win, a, runner, b);
        } else {
          LargerOnRunner(win, runner, a, b);
        }
      }
    } else {
      var win, runner := SwapFails(a, b);
    }
  }

  function Square(a: real, b: real): real {
    a * a - b * b
  }

  lemma SquareGap(a: real, b: real)
    requires a >= 0.0 && b >= 0.0
    ensures a > b ==> Square(a, b) > 0.0
    ensures a >= b ==> Square(a, b) >= 0.0
  {
    var d, e := a - b, a + b;
    assert Square(a, b) == d * e;
    if a > b {
      MulMonoReal(0.0, d, e);
    }
  }

  lemma LargerOnRunner(win: real, runner: real, a: real, b: real)
    requires win > 0.0 && runner > 0.0 && 0.0 <= a <= b < 1.0 && win * (1.0 + a) < runner * (1.0 - b)
    ensures win * (1.0 + b) < runner * (1.0 - a)
  {
    var x, y := win * (1.0 + b), runner * (1.0 - a);
    MulMonoReal(win * (1.0 + a), runner * (1.0 - b), 1.0 + b);
    assert x * (1.0 + a) == win * (1.0 + a) * (1.0 + b);
    assert runner * (1.0 - b) * (1.0 + b) == runner * (1.0 - b * b);
    assert y * (1.0 + a) == runner * (1.0 - a * a);
    SquareGap(b, a);
    assert runner * Square(b, a) >= 0.0;
    assert runner * (1.0 - a * a) - runner * (1.0 - b * b) == runner * Square(b, a);
    CancelFactor(x, y, 1.0 + a);
  }

  /** The flag can be trusted, whatever the predictions, exactly when the choice's band is not the larger
      of the two: then a flagged cell is won for all measured errors within the bands. Or else the
      runner-up's band is one or more, and the flag is never set. */
  lemma FlagTrustedExactly(bandWin: real, bandRunner: real)
    requires bandWin >= 0.0 && bandRunner >= 0.0
    ensures (forall win, runner :: win > 0.0 && runner > 0.0 && Flag(win, bandWin, runner, bandRunner)
               ==> SurelyBeatsMeasured(win, bandWin, runner, bandRunner))
        <==> bandWin <= bandRunner || bandRunner >= 1.0
  {
    forall win, runner | win > 0.0 && runner > 0.0
      ensures SurelyBeatsMeasured(win, bandWin, runner, bandRunner) <==> Flag(win, bandRunner, runner, bandWin)
    {
      MeasuredErrorsExact(win, bandWin, runner, bandRunner);
    }
    SwapImplies(bandWin, bandRunner);
  }

  /** The flag marks every cell that is surely won exactly when the choice's band is not the smaller, or
      is one or more, so that no cell is surely won. */
  lemma FlagCompleteExactly(bandWin: real, bandRunner: real)
    requires bandWin >= 0.0 && bandRunner >= 0.0
    ensures (forall win, runner :: win > 0.0 && runner > 0.0 && SurelyBeatsMeasured(win, bandWin, runner, bandRunner)
               ==> Flag(win, bandWin, runner, bandRunner))
        <==> bandRunner <= bandWin || bandWin >= 1.0
  {
    forall win, runner | win > 0.0 && runner > 0.0
      ensures SurelyBeatsMeasured(win, bandWin, runner, bandRunner) <==> Flag(win, bandRunner, runner, bandWin)
    {
      MeasuredErrorsExact(win, bandWin, runner, bandRunner);
    }
    SwapImplies(bandRunner, bandWin);
  }

  /** For equal bands the two comparisons are the same, so there the flag says exactly that the choice is
      sure. */
  lemma EqualBandsAgree(win: real, runner: real, band: real)
    requires win > 0.0 && runner > 0.0 && band >= 0.0
    ensures Flag(win, band, runner, band) <==> SurelyBeatsMeasured(win, band, runner, band)
  {
    MeasuredErrorsExact(win, band, runner, band);
  }

  /** One such cell, for a choice with the larger band: the flag is set, both predictions are within
      their bands of what would be measured, and the chosen corner loses. */
  lemma FlagCanMissMeasuredErrors()
    ensures Flag(70.0, 0.3, 98.0, 0.05)
    ensures WithinError(100.0, 70.0, 0.3) && WithinError(94.0, 98.0, 0.05) && !SurelyBeatsMeasured(70.0, 0.3, 98.0, 0.05)
  {
    assert WithinError(100.0, 70.0, 0.3) && WithinError(94.0, 98.0, 0.05);
  }

  // ---------------------------------------------------------------- the bands

  datatype HeldOut = HeldOut(corner: Point, errorPct: real)

  datatype Bands = Bands(cfk: real, copyback: real) {
    /** The host path streams like the copy-back and takes its band. */
    function Of(p: Point): real {
      match p
      case Cfk => cfk
      case Copyback => copyback
      case Host => copyback
      case _ => 0.05
    }
  }

  /** The worst held-out error of a corner, never below the 5% floor. */
  ghost predicate IsWorst(band: real, held: seq<HeldOut>, corner: Point) {
    && 0.05 <= band && (forall i :: 0 <= i < |held| && held[i].corner == corner ==> held[i].errorPct / 100.0 <= band)
    && (band == 0.05 || exists i :: 0 <= i < |held| && held[i].corner == corner && held[i].errorPct / 100.0 == band)
  }

  /** Each recorded corner's entry is its worst error so far, and every corner seen is recorded. */
  ghost predicate Worst(worst: map<Point, real>, held: seq<HeldOut>) {
    && Cfk in worst && Copyback in worst
    && (forall p :: p in worst ==> IsWorst(worst[p], held, p))
    && (forall i :: 0 <= i < |held| ==> held[i].corner in worst)
  }

  function Update(worst: map<Point, real>, cell: HeldOut): map<Point, real> {
    var err, before := cell.errorPct / 100.0, if cell.corner in worst then worst[cell.corner] else 0.05;
    worst[cell.corner := if err > before then err else before]
  }

  /** A corner not recorded has not been seen, so the floor is its worst so far. */
  lemma EntryAfter(worst: map<Point, real>, held: seq<HeldOut>, k: nat, p: Point)
    requires k < |held| && Worst(worst, held[..k]) && p in Update(worst, held[k])
    ensures IsWorst(Update(worst, held[k])[p], held[..k + 1], p)
  {
    if p == held[k].corner {
      var before := if p in worst then worst[p] else 0.05;
      assert IsWorst(before, held[..k], p);
      WorstGrows(before, held, p, k);
    } else {
      WorstCarries(worst[p], held, p, k);
    }
  }

  lemma UpdateKeepsWorst(worst: map<Point, real>, held: seq<HeldOut>, k: nat)
    requires k < |held| && Worst(worst, held[..k])
    ensures Worst(Update(worst, held[k]), held[..k + 1])
  {
    var after, b := Update(worst, held[k]), held[..k + 1];
    forall p | p in after ensures IsWorst(after[p], b, p) {
      EntryAfter(worst, held, k, p);
    }
    forall i | 0 <= i < |b| ensures b[i].corner in after {
      assert i < k ==> held[..k][i] == b[i];
    }
  }

  method ErrBands(held: seq<HeldOut>) returns (bands: Bands)
    ensures IsWorst(bands.Of(Cfk), held, Cfk) && IsWorst(bands.Of(Copyback), held, Copyback)
    ensures bands.Of(Host) == bands.Of(Copyback) && bands.Of(Single) == bands.Of(Tp) == 0.05
  {
    var worst: map<Point, real> := map[Cfk := 0.05, Copyback := 0.05];
    for k := 0 to |held|
      invariant Worst(worst, held[..k])
    {
      UpdateKeepsWorst(worst, held, k);
      worst := Update(worst, held[k]);
    }
    assert held[..|held|] == held;
    bands := Bands(worst[Cfk], worst[Copyback]);
  }

  lemma WorstCarries(band: real, held: seq<HeldOut>, p: Point, k: nat)
    requires k < |held| && IsWorst(band, held[..k], p) && held[k].corner != p
    ensures IsWorst(band, held[..k + 1], p)
  {
    var a, b := held[..k], held[..k + 1];
    assert forall i :: 0 <= i < k ==> a[i] == b[i];
    if band != 0.05 {
      var i :| 0 <= i < k && a[i].corner == p && a[i].errorPct / 100.0 == band;
      assert b[i].corner == p;
    }
  }

  lemma WorstGrows(band: real, held: seq<HeldOut>, p: Point, k: nat)
    requires k < |held| && IsWorst(band, held[..k], p) && held[k].corner == p
    ensures var err := held[k].errorPct / 100.0;
      IsWorst(if err > band then err else band, held[..k + 1], p)
  {
    var a, b := held[..k], held[..k + 1];
    assert forall i :: 0 <= i < k ==> a[i] == b[i];
    assert b[k] == held[k];
    if band != 0.05 {
      var i :| 0 <= i < k && a[i].corner == p && a[i].errorPct / 100.0 == band;
      assert b[i].corner == p;
    }
  }

  // ---------------------------------------------------------------- the flag on the map's own bands

  /** Without measured tensor parallelism the legal corners over capacity are these, and the flag settles
      every alternative when the choice is remote compute or remote compute is not legal: what is left
      shares the copy-back band. */
  lemma FlagSettlesTheCell(bands: Bands, chosen: Point, runner: Point, legal: Predictions)
    requires chosen in legal && legal.Keys <= {Cfk, Copyback, Host} && (chosen == Cfk || Cfk !in legal)
    requires Plausible(legal, p => bands.Of(p)) && IsRunnerUp(runner, chosen, legal)
    ensures Flag(legal[chosen], bands.Of(chosen), legal[runner], bands.Of(runner)) <==> BeatsAll(chosen, legal, p => bands.Of(p))
  {
    OneBandBeatsAll(chosen, runner, legal, p => bands.Of(p), bands.copyback);
  }

  /** Cells in which all three corners are legal. */
  predicate ThreeCorners(legal: Predictions) {
    legal.Keys == {Cfk, Copyback, Host} && forall p :: p in legal ==> legal[p] >= 0.0
  }

  predicate SaneBands(bands: Bands) {
    bands.cfk >= 0.0 && bands.copyback >= 0.0
  }

  /** In every three-corner cell a set flag means that the choice beats all alternatives. */
  ghost predicate FlagSettlesAll(bands: Bands, chosen: Point) {
    forall legal: Predictions, runner: Point ::
      (ThreeCorners(legal) && chosen in legal && IsRunnerUp(runner, chosen, legal)
       && Flag(legal[chosen], bands.Of(chosen), legal[runner], bands.Of(runner)))
      ==> BeatsAll(chosen, legal, p => bands.Of(p))
  }

  /** A prediction that passes against a prediction of 1 with the tighter band and may lose to one with
      the looser: its upper end meets the lower end of the looser, if that is above zero. */
  lemma AtTheEdge(own: real, tight: real, loose: real) returns (win: real)
    requires own >= 0.0 && 0.0 <= tight < loose && tight < 1.0
    ensures win > 0.0 && Flag(win, own, 1.0, tight) && !SurelyBeats(win, own, 1.0, loose)
  {
    var upper := if loose < 1.0 then 1.0 - loose else (1.0 - tight) / 2.0;
    win := Falls(upper, own);
    assert win * (1.0 + own) == upper;
    FlagIsExact(win, own, 1.0, loose);
  }

  /** A cell in which both alternatives tie, the flag is decided by the surer one, and the other may
      win. */
  lemma SurerRunnerMisleads(bands: Bands, chosen: Point, surer: Point, looser: Point)
    requires SaneBands(bands) && {chosen, surer, looser} == {Cfk, Copyback, Host}
    requires chosen != surer && chosen != looser && surer != looser && bands.Of(surer) < bands.Of(looser)
    requires bands.Of(surer) < 1.0
    ensures !FlagSettlesAll(bands, chosen)
  {
    var win := AtTheEdge(bands.Of(chosen), bands.Of(surer), bands.Of(looser));
    var legal: Predictions := map[chosen := win, surer := 1.0, looser := 1.0];
    assert legal.Keys == {chosen, surer, looser};
    assert ThreeCorners(legal) && IsRunnerUp(surer, chosen, legal);
    var of := p => bands.Of(p);
    assert !SurelyBeats(legal[chosen], of(chosen), legal[looser], of(looser));
    assert !BeatsAll(chosen, legal, of);
  }

  /** With both bands at one or more no flag is set, so none misleads. */
  lemma WideCell(bands: Bands, chosen: Point, runner: Point, legal: Predictions)
    requires bands.cfk >= 1.0 && bands.copyback >= 1.0 && chosen in {Copyback, Host}
    requires ThreeCorners(legal) && chosen in legal && runner in legal
    ensures !Flag(legal[chosen], bands.Of(chosen), legal[runner], bands.Of(runner))
  {
    assert runner in {Cfk, Copyback, Host};
    assert legal[chosen] >= 0.0 && legal[runner] >= 0.0;
    WideNeverFlags(legal[chosen], bands.Of(chosen), legal[runner], bands.Of(runner));
  }

  /** With all three corners legal the flag settles every cell exactly when remote compute is chosen, so
      that the alternatives share the copy-back band, or the two bands are equal anyway, or both are one
      or more and no flag is ever set. */
  lemma FlagSettlesExactly(bands: Bands, chosen: Point)
    requires SaneBands(bands) && chosen in {Cfk, Copyback, Host}
    ensures FlagSettlesAll(bands, chosen)
        <==> chosen == Cfk || bands.cfk == bands.copyback || (bands.cfk >= 1.0 && bands.copyback >= 1.0)
  {
    var wide := bands.cfk >= 1.0 && bands.copyback >= 1.0;
    if chosen == Cfk || bands.cfk == bands.copyback || wide {
      forall legal: Predictions, runner: Point |
        ThreeCorners(legal) && chosen in legal && IsRunnerUp(runner, chosen, legal)
        && Flag(legal[chosen], bands.Of(chosen), legal[runner], bands.Of(runner))
        ensures BeatsAll(chosen, legal, p => bands.Of(p))
      {
        if chosen == Cfk || bands.cfk == bands.copyback {
          OneBandBeatsAll(chosen, runner, legal, p => bands.Of(p), bands.copyback);
        } else {
          WideCell(bands, chosen, runner, legal);
        }
      }
    } else {
      var other := if chosen == Copyback then Host else Copyback;
      if bands.cfk < bands.copyback {
        SurerRunnerMisleads(bands, chosen, Cfk, other);
      } else {
        SurerRunnerMisleads(bands, chosen, other, Cfk);
      }
    }
  }

  /** When copy-back is chosen over a legal remote compute, the flag can be set while the less certain
      host path may still win. */
  lemma FlagCanMissTheHostPath()
    ensures var legal: Predictions := map[Copyback := 100.0, Cfk := 140.0, Host := 145.0];
      var bands := Bands(0.05, 0.3);
      && IsRunnerUp(Cfk, Copyback, legal) && Flag(100.0, bands.Of(Copyback), 140.0, bands.Of(Cfk))
      && !BeatsAll(Copyback, legal, p => bands.Of(p))
  {
    var legal: Predictions := map[Copyback := 100.0, Cfk := 140.0, Host := 145.0];
    assert InBand(130.0, 100.0, 0.3) && InBand(110.0, 145.0, 0.3);
    assert !SurelyBeats(legal[Copyback], 0.3, legal[Host], 0.3);
  }
}
