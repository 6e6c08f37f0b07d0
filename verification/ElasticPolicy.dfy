/** Choosing where one overflowing request decodes: which corners are available now, which of those do
    no harm, which is predicted fastest, and the gate every choice passes before it is used. */
module ElasticPolicy {
  import opened Arithmetic
  import opened Options

  datatype Point = Single | Cfk | Copyback | Tp | Host

  /** A predicted decode-step latency in ms; corners without an honest prediction are Infinite. */
  datatype Cost = Ms(v: real) | Infinite

  predicate Le(a: Cost, b: Cost) {
    b.Infinite? || (a.Ms? && a.v <= b.v)
  }

  /** Every token has some KV: the single-card capacity divides by its size. */
  type Positive = n: int | n > 0 witness 1

  datatype Geometry = Geometry(layers: nat, kvBytesPerToken: Positive)

  datatype Peer = Peer(hbmFreeBytes: int, computeIdle: bool, nvlinkGbps: real)

  datatype Link = Link(nvlinkGbps: real, pcieGbps: real)

  datatype Deployment = Deployment(tpEnabled: bool, singleCapacity: nat, tpCapacity: nat, tpTpot: Option<real>)

  datatype Request = Request(ctx: nat, geom: Geometry, peer: Peer, link: Link, deploy: Deployment)

  const BETA_NVLINK_GBPS := 273.0
  const BETA_PCIE_GBPS := 24.0
  const C_NVLINK_US := 23.6
  const C_PCIE_US := 12.6

  // ---------------------------------------------------------------- the rules

  /** The measured ceiling (524288 bytes per token), rescaled to this geometry. */
  function SingleCapacity(r: Request): nat {
    r.deploy.singleCapacity * 524288 / r.geom.kvBytesPerToken
  }

  predicate FitsSingle(r: Request) {
    r.ctx <= SingleCapacity(r)
  }

  predicate PeerHolds(r: Request) {
    (r.ctx - r.ctx / 2) * r.geom.kvBytesPerToken <= r.peer.hbmFreeBytes
  }

  function Only(p: Point, available: bool): set<Point> {
    if available then {p} else {}
  }

  function Admissible(r: Request): set<Point> {
    var reachable := PeerHolds(r) && r.peer.nvlinkGbps >= BETA_PCIE_GBPS;
    Only(Single, FitsSingle(r)) + Only(Copyback, reachable) + Only(Cfk, reachable && r.peer.computeIdle)
      + {Host} + Only(Tp, r.deploy.tpEnabled && r.ctx <= r.deploy.tpCapacity)
  }

  /** What makes each point available, in bytes. One card must hold the KV of the whole request, the
      capacity being given for 524288 bytes per token. The peer must hold the half that is not kept, the
      larger one if the halves differ, over a link no slower than the host's; to compute there it must be
      idle too. The host is always available. */
  lemma AdmissibleExactly(r: Request, kept: nat, away: nat)
    requires kept + away == r.ctx && kept <= away <= kept + 1
    ensures Single in Admissible(r) <==> r.ctx * r.geom.kvBytesPerToken <= r.deploy.singleCapacity * 524288
    ensures Copyback in Admissible(r)
      <==> away * r.geom.kvBytesPerToken <= r.peer.hbmFreeBytes && r.peer.nvlinkGbps >= BETA_PCIE_GBPS
    ensures Cfk in Admissible(r) <==> Copyback in Admissible(r) && r.peer.computeIdle
    ensures Host in Admissible(r)
    ensures Tp in Admissible(r) <==> r.deploy.tpEnabled && r.ctx <= r.deploy.tpCapacity
  {
    AtMostQuotient(r.ctx, r.deploy.singleCapacity * 524288, r.geom.kvBytesPerToken);
    assert away == r.ctx - r.ctx / 2;
  }

  /** The admissible points less those a do-no-harm rule forbids. */
  function Candidates(r: Request): set<Point> {
    var adm := Admissible(r);
    if FitsSingle(r) then (if Single in adm then {Single} else adm)
    else
      var routed := if r.link.nvlinkGbps < r.link.pcieGbps then adm - {Cfk, Copyback} else adm;
      if r.peer.computeIdle then routed else routed - {Cfk}
  }

  datatype Rule = Fit | Busy | Route | TpOracle

  /** The gate: the first rule the point breaks, if any. */
  function Violation(p: Point, r: Request): Option<Rule> {
    if FitsSingle(r) && p != Single then Some(Fit)
    else if p == Cfk && !r.peer.computeIdle then Some(Busy)
    else if (p == Cfk || p == Copyback) && r.link.nvlinkGbps < r.link.pcieGbps then Some(Route)
    else if p == Tp && r.deploy.tpTpot.None? then Some(TpOracle)
    else None
  }

  /** The promise made to the peer and to the request, rule by rule. */
  predicate DoesNoHarm(p: Point, r: Request) {
    && (FitsSingle(r) ==> p == Single)
    && (p == Cfk ==> r.peer.computeIdle)
    && (p in {Cfk, Copyback} ==> r.link.nvlinkGbps >= r.link.pcieGbps)
    && (p == Tp ==> r.deploy.tpTpot.Some?)
  }

  /** The point breaks this rule. */
  predicate Breaks(rule: Rule, p: Point, r: Request) {
    match rule
    case Fit => FitsSingle(r) && p != Single
    case Busy => p == Cfk && !r.peer.computeIdle
    case Route => p in {Cfk, Copyback} && r.link.nvlinkGbps < r.link.pcieGbps
    case TpOracle => p == Tp && r.deploy.tpTpot.None?
  }

  /** The gate passes exactly the harmless points, and names a rule that the others break. */
  lemma GateIsExact(p: Point, r: Request)
    ensures Violation(p, r).None? <==> DoesNoHarm(p, r)
    ensures Violation(p, r).Some? ==> Breaks(Violation(p, r).value, p, r)
  {
  }

  /** Restricting the candidates leaves the gate one thing to catch: tensor parallelism nobody has
      measured. And there is always a candidate. */
  lemma CandidatesAreLegal(r: Request, p: Point)
    requires p in Candidates(r)
    ensures p in Admissible(r)
    ensures Violation(p, r) == if p == Tp && r.deploy.tpTpot.None? then Some(TpOracle) else None
  {
  }

  /** The admissible points that do no harm. */
  function Harmless(r: Request): set<Point> {
    set p | p in Admissible(r) && DoesNoHarm(p, r)
  }

  /** The candidates are exactly the harmless admissible points, and unmeasured tensor parallelism where
      it is admissible and one card is not enough. */
  lemma CandidatesExactly(r: Request, p: Point)
    ensures p in Candidates(r)
      <==> p in Harmless(r) || (p == Tp && p in Admissible(r) && !FitsSingle(r) && r.deploy.tpTpot.None?)
  {
  }

  /** Taking away the unmeasured tensor parallelism leaves the harmless points. */
  lemma HarmlessAmongCandidates(r: Request)
    ensures Harmless(r) <= Candidates(r) <= Admissible(r)
    ensures r.deploy.tpTpot.None? ==> Harmless(r) == Candidates(r) - {Tp}
  {
    forall p ensures p in Harmless(r) ==> p in Candidates(r) {
      CandidatesExactly(r, p);
    }
    forall p ensures p in Candidates(r) ==> p in Admissible(r) {
      CandidatesExactly(r, p);
    }
    if r.deploy.tpTpot.None? {
      forall p ensures p in Harmless(r) <==> p in Candidates(r) - {Tp} {
        CandidatesExactly(r, p);
      }
    }
  }

  lemma SomeCandidate(r: Request)
    ensures if FitsSingle(r) then Candidates(r) == {Single} else Host in Candidates(r)
  {
  }

  // ---------------------------------------------------------------- the selector

  ghost predicate IsFastest(p: Point, among: set<Point>, predict: Point -> Cost) {
    p in among && forall q :: q in among ==> Le(predict(p), predict(q))
  }

  /** What is fastest among some points is fastest among any of them that still include it. */
  lemma FastestAmongFewer(p: Point, few: set<Point>, many: set<Point>, predict: Point -> Cost)
    requires IsFastest(p, many, predict) && few <= many && p in few
    ensures IsFastest(p, few, predict)
  {
  }

  datatype Decision = Decision(point: Point, predicted: Cost, admissible: set<Point>, meetsDeadline: bool)

  predicate Meets(c: Cost, deadline: Option<real>) {
    deadline.Some? ==> Le(c, Ms(deadline.value))
  }

  /** The least prediction, whatever order the set is visited in: ties go to the first one visited. */
  method ArgMin(among: set<Point>, predict: Point -> Cost) returns (best: Point)
    requires among != {}
    ensures IsFastest(best, among, predict)
  {
    best :| best in among;
    var rest := among - {best};
    while rest != {}
      invariant rest <= among && best in among
      invariant forall q :: q in among - rest ==> Le(predict(best), predict(q))
      decreases |rest|
    {
      var q :| q in rest;
      if !Le(predict(best), predict(q)) {
        best := q;
      }
      rest := rest - {q};
    }
  }

  method SelectPoint(r: Request, predict: Point -> Cost, deadline: Option<real>) returns (d: Decision)
    ensures IsFastest(d.point, Admissible(r), predict) && d.admissible == Admissible(r)
    ensures d.predicted == predict(d.point) && (d.meetsDeadline <==> Meets(d.predicted, deadline))
  {
    var adm := Admissible(r);
    assert Host in adm;
    var best := ArgMin(adm, predict);
    d := Decision(best, predict(best), adm, Meets(predict(best), deadline));
  }

  datatype Selected = Chosen(d: Decision) | Refused(rule: Rule)

  /** Coerce a refused decision to the fastest legal corner. */
  method Repair(r: Request, predict: Point -> Cost, deadline: Option<real>, d: Decision) returns (e: Decision)
    requires d.point in Candidates(r) && Violation(d.point, r).Some?
    ensures d.point == Tp && DoesNoHarm(e.point, r) && IsFastest(e.point, Harmless(r), predict)
    ensures e.predicted == predict(e.point) && (e.meetsDeadline <==> Meets(e.predicted, deadline))
    ensures e.admissible == d.admissible
  {
    CandidatesAreLegal(r, d.point);
    HarmlessAmongCandidates(r);
    SomeCandidate(r);
    var legal := Candidates(r) - {d.point};
    var point;
    if FitsSingle(r) {
      point := Single;
    } else {
      point := ArgMin(legal, predict);
    }
    CandidatesAreLegal(r, point);
    GateIsExact(point, r);
    e := d.(point := point, predicted := predict(point), meetsDeadline := Meets(predict(point), deadline));
  }

  /** The points a decision carries along: all admissible ones if a fastest of them was a candidate, and
      otherwise the candidates it was picked from instead. */
  ghost predicate Shown(points: set<Point>, r: Request, predict: Point -> Cost) {
    exists p :: IsFastest(p, Admissible(r), predict) && points == if p in Candidates(r) then Admissible(r) else Candidates(r)
  }

  /** The single exit of the selector. Whatever the cost model predicts, what is chosen does no harm and
      no admissible point that does no harm is predicted faster. Not strict, something is always chosen.
      Strict, the one thing that can be refused is unmeasured tensor parallelism, and only when the model
      predicts nothing faster than it. */
  method OnlineSelect(r: Request, predict: Point -> Cost, deadline: Option<real>, strict: bool) returns (s: Selected)
    ensures s.Chosen? ==> DoesNoHarm(s.d.point, r) && s.d.point in Candidates(r)
    ensures s.Chosen? ==> IsFastest(s.d.point, Harmless(r), predict)
    ensures s.Chosen? ==> s.d.predicted == predict(s.d.point) && (s.d.meetsDeadline <==> Meets(s.d.predicted, deadline))
    ensures s.Chosen? ==> s.d.point in s.d.admissible || !strict
    ensures s.Chosen? && strict ==> IsFastest(s.d.point, Candidates(r), predict)
    ensures s.Chosen? ==> Shown(s.d.admissible, r, predict)
    ensures s.Refused? ==> strict && s.rule == TpOracle && r.deploy.tpTpot.None? && IsFastest(Tp, Candidates(r), predict)
    ensures Honest(predict, r) ==> s.Chosen? && IsFastest(s.d.point, Candidates(r), predict)
  {
    var candidates := Candidates(r);
    SomeCandidate(r);
    var d := SelectPoint(r, predict, deadline);
    ghost var first := d.point;
    forall q | q in candidates ensures q in Admissible(r) {
      CandidatesAreLegal(r, q);
    }
    if d.point !in candidates {
      var best := ArgMin(candidates, predict);
      d := Decision(best, predict(best), candidates, Meets(predict(best), deadline));
    }
    CandidatesAreLegal(r, d.point);
    HarmlessAmongCandidates(r);
    GateIsExact(d.point, r);
    var v := Violation(d.point, r);
    if v.Some? {
      if Honest(predict, r) {
        HonestIsNeverRefused(r, predict);
        assert false;
      }
      if strict {
        return Refused(v.value);
      }
      d := Repair(r, predict, deadline, d);
    } else {
      FastestAmongFewer(d.point, Harmless(r), candidates, predict);
    }
    assert IsFastest(first, Admissible(r), predict);
    s := Chosen(d);
  }

  /** What any honest model owes the selector: a latency for the host path, and none for tensor
      parallelism that has not been measured. */
  ghost predicate Honest(predict: Point -> Cost, r: Request) {
    predict(Host).Ms? && (r.deploy.tpTpot.None? ==> predict(Tp).Infinite?)
  }

  /** With an honest model the gate never fires: it is a tripwire. */
  lemma HonestIsNeverRefused(r: Request, predict: Point -> Cost)
    requires Honest(predict, r) && r.deploy.tpTpot.None?
    ensures !IsFastest(Tp, Candidates(r), predict)
  {
    SomeCandidate(r);
  }

  // ---------------------------------------------------------------- the cost model

  datatype StepModel = StepModel(geom: Geometry, a: real, betaEff: real, roundtrip: real, copybackEff: real,
                                 devices: nat)

  predicate Physical(m: StepModel) {
    m.betaEff > 0.0 && m.devices > 0
  }

  /** ms to move `tokens` of KV at `gbps`. */
  function MoveMs(tokens: real, geom: Geometry, gbps: real): real
    requires gbps != 0.0
  {
    tokens * geom.kvBytesPerToken as real / (gbps * 1000000000.0) * 1000.0
  }

  function Local(m: StepModel, ctx: nat): real
    requires Physical(m)
  {
    ctx as real / m.devices as real
  }

  function SetupMs(layers: nat, us: real): real {
    layers as real * us / 1000.0
  }

  /** A time made longer by the measured inefficiency. */
  function Stretched(ms: real, factor: real): real {
    factor * ms
  }

  function Predict(m: StepModel, p: Point, ctx: nat, peer: Peer, deploy: Deployment): Cost
    requires Physical(m)
  {
    var local := Local(m, ctx);
    match p
    case Single => Ms(m.a + MoveMs(ctx as real, m.geom, m.betaEff))
    case Cfk => Ms(m.a + MoveMs(local, m.geom, m.betaEff) + m.geom.layers as real * m.roundtrip)
    case Copyback =>
      if peer.nvlinkGbps <= 0.0 then Infinite
      else Ms(m.a + MoveMs(local, m.geom, m.betaEff)
              + Stretched(MoveMs(ctx as real - local, m.geom, peer.nvlinkGbps) + SetupMs(m.geom.layers, C_NVLINK_US), m.copybackEff))
    case Host =>
      Ms(m.a + MoveMs(local, m.geom, m.betaEff)
         + MoveMs(ctx as real - local, m.geom, BETA_PCIE_GBPS) + SetupMs(m.geom.layers, C_PCIE_US))
    case Tp => if deploy.tpTpot.Some? then Ms(deploy.tpTpot.value) else Infinite
  }

  /** The calibrated model is honest, so online selection with it always chooses. */
  lemma StepModelIsHonest(m: StepModel, r: Request)
    requires Physical(m)
    ensures Honest(p => if Physical(m) then Predict(m, p, r.ctx, r.peer, r.deploy) else Infinite, r)
  {
  }

  /** Moving tokens at a rate takes exactly their bytes over the rate. */
  lemma MoveIsAtRate(tokens: real, geom: Geometry, gbps: real)
    requires gbps != 0.0
    ensures MoveMs(tokens, geom, gbps) * (gbps * 1000000.0) == tokens * geom.kvBytesPerToken as real
  {
    var bytes, rate := tokens * geom.kvBytesPerToken as real, gbps * 1000000000.0;
    assert bytes / rate * rate == bytes;
  }

  /** The host path is the copy-back path at the PCIe rate, with its own setup and no inefficiency. */
  lemma HostIsCopybackOverPcie(m: StepModel, ctx: nat, peer: Peer, deploy: Deployment)
    requires Physical(m) && m.copybackEff == 1.0 && peer.nvlinkGbps == BETA_PCIE_GBPS
    ensures Predict(m, Host, ctx, peer, deploy).v - SetupMs(m.geom.layers, C_PCIE_US)
         == Predict(m, Copyback, ctx, peer, deploy).v - SetupMs(m.geom.layers, C_NVLINK_US)
  {
    var move, setup := MoveMs(ctx as real - Local(m, ctx), m.geom, BETA_PCIE_GBPS), SetupMs(m.geom.layers, C_NVLINK_US);
    assert Stretched(move + setup, 1.0) == move + setup;
  }

  /** Remote compute is a single card's step over its share of the context, and one round trip a layer. */
  lemma RemoteIsSingleOverShare(m: StepModel, share: nat, peer: Peer, deploy: Deployment)
    requires Physical(m)
    ensures Predict(m, Cfk, m.devices * share, peer, deploy).v
         == Predict(m, Single, share, peer, deploy).v + m.geom.layers as real * m.roundtrip
  {
    assert Local(m, m.devices * share) == share as real;
  }

  datatype Calibrated = Fitted(m: StepModel) | NonPhysical

  /** Fit the intercept and bandwidth to the two smallest single-GPU anchors, then the round trip to one
      remote-compute anchor and the copy-back efficiency to one copy-back anchor. */
  function Calibrate(geom: Geometry, c1: nat, m1: real, c2: nat, m2: real, cfk: (nat, real), cb: (nat, real),
                     devices: nat): Calibrated
    requires c1 < c2 && geom.layers > 0 && devices > 0
  {
    var s := (m2 - m1) / (c2 - c1) as real;
    if s <= 0.0 then NonPhysical
    else
      var betaEff := geom.kvBytesPerToken as real / (s * 0.001) / 1000000000.0;
      BandwidthPositive(geom, s);
      var base := StepModel(geom, m1 - s * c1 as real, betaEff, 0.0, 1.0, devices);
      var roundtrip := RoundTripOf(base, cfk);
      Fitted(base.(roundtrip := roundtrip, copybackEff := EfficiencyOf(base, cb)))
  }

  function RoundTripOf(base: StepModel, cfk: (nat, real)): real
    requires Physical(base) && base.geom.layers > 0
  {
    var over := (cfk.1 - base.a - MoveMs(Local(base, cfk.0), base.geom, base.betaEff)) / base.geom.layers as real;
    if over > 0.0 then over else 0.0
  }

  /** The read of the local half, and the transfer of the other half with its setup. */
  function ReadMs(base: StepModel, ctx: nat): real
    requires Physical(base)
  {
    MoveMs(Local(base, ctx), base.geom, base.betaEff)
  }

  function TransferMs(base: StepModel, ctx: nat): real
    requires Physical(base)
  {
    MoveMs(ctx as real - Local(base, ctx), base.geom, BETA_NVLINK_GBPS) + SetupMs(base.geom.layers, C_NVLINK_US)
  }

  function EfficiencyOf(base: StepModel, cb: (nat, real)): real
    requires Physical(base)
  {
    var ideal := ReadMs(base, cb.0) + TransferMs(base, cb.0);
    if ideal > 0.0 then
      var ratio := (cb.1 - base.a) / ideal;
      if ratio > 1.0 then ratio else 1.0
    else 1.0
  }

  lemma BandwidthPositive(geom: Geometry, s: real)
    requires s > 0.0
    ensures geom.kvBytesPerToken as real / (s * 0.001) / 1000000000.0 > 0.0
  {
    var d := s * 0.001;
    assert d > 0.0;
    var q := geom.kvBytesPerToken as real / d;
    assert q * d == geom.kvBytesPerToken as real;
    assert q > 0.0;
  }

  // ---------------------------------------------------------------- what calibration reproduces

  lemma MoveAtFit(t: real, geom: Geometry, s: real)
    requires s > 0.0
    ensures var beta := geom.kvBytesPerToken as real / (s * 0.001) / 1000000000.0;
      beta > 0.0 && MoveMs(t, geom, beta) == t * s
  {
    BandwidthPositive(geom, s);
    var k := geom.kvBytesPerToken as real;
    var q := k / (s * 0.001);
    assert q * (s * 0.001) == k;
    assert q > 0.0;
    Quotient(t * k, q, t * (s * 0.001));
  }

  lemma Quotient(x: real, q: real, y: real)
    requires q != 0.0 && y * q == x
    ensures x / q == y
  {
  }

  /** The fitted line through the first anchor. */
  lemma OnTheLine(m: StepModel, c1: nat, m1: real, s: real, c: nat, peer: Peer, deploy: Deployment)
    requires s > 0.0 && Physical(m)
    requires m.a == m1 - s * c1 as real && m.betaEff == m.geom.kvBytesPerToken as real / (s * 0.001) / 1000000000.0
    ensures Predict(m, Single, c, peer, deploy) == Ms(m1 + c as real * s - c1 as real * s)
  {
    MoveAtFit(c as real, m.geom, s);
  }

  /** Both single-GPU anchors are reproduced exactly. */
  lemma SingleAnchorsReproduced(geom: Geometry, c1: nat, m1: real, c2: nat, m2: real, cfk: (nat, real), cb: (nat, real),
                                devices: nat, peer: Peer, deploy: Deployment)
    requires c1 < c2 && geom.layers > 0 && devices > 0
    ensures match Calibrate(geom, c1, m1, c2, m2, cfk, cb, devices)
      case NonPhysical => m2 <= m1
      case Fitted(m) =>
        && Physical(m)
        && Predict(m, Single, c1, peer, deploy) == Ms(m1)
        && Predict(m, Single, c2, peer, deploy) == Ms(m2)
  {
    var d := (c2 - c1) as real;
    var s := (m2 - m1) / d;
    assert s * d == m2 - m1;
    if s > 0.0 {
      var m := Calibrate(geom, c1, m1, c2, m2, cfk, cb, devices).m;
      OnTheLine(m, c1, m1, s, c1, peer, deploy);
      OnTheLine(m, c1, m1, s, c2, peer, deploy);
      assert c2 as real * s - c1 as real * s == s * d;
    }
  }

  /** The remote-compute anchor is reproduced exactly when it was not below intercept plus read. */
  lemma CfkAnchorReproduced(base: StepModel, cfk: (nat, real), peer: Peer, deploy: Deployment)
    requires Physical(base) && base.geom.layers > 0
    ensures var m := base.(roundtrip := RoundTripOf(base, cfk));
      Predict(m, Cfk, cfk.0, peer, deploy) == Ms(cfk.1) <==> base.a + ReadMs(base, cfk.0) <= cfk.1
  {
    var layers := base.geom.layers as real;
    var gap := cfk.1 - base.a - ReadMs(base, cfk.0);
    var over := gap / layers;
    assert over * layers == gap;
  }

  /** The copy-back anchor is not what the fit suggests: the efficiency is taken over read and transfer
      together but later multiplies the transfer alone. At the anchor's own context and link the
      prediction equals the anchor exactly when the copy ran at the ideal time (or there was nothing to
      read), and a slower copy is predicted too fast. */
  /** a is to b as c to d. */
  predicate SameRatio(a: real, b: real, c: real, d: real) {
    a * d == c * b
  }

  lemma EfficiencyIsRatio(ratio: real, k: real, t: real, took: real)
    ensures ratio * (k + t) == took ==> SameRatio(Stretched(t, ratio), t, took, k + t)
  {
    assert ratio * t * (k + t) == ratio * (k + t) * t;
  }

  lemma CopybackAnchorReproduced(base: StepModel, cb: (nat, real), peer: Peer, deploy: Deployment)
    requires Physical(base) && base.geom.layers > 0
    requires peer.nvlinkGbps == BETA_NVLINK_GBPS
    ensures var m := base.(copybackEff := EfficiencyOf(base, cb));
      var ideal := ReadMs(base, cb.0) + TransferMs(base, cb.0);
      && (Predict(m, Copyback, cb.0, peer, deploy) == Ms(cb.1)
          <==> cb.1 - base.a == ideal || (cb.0 == 0 && cb.1 - base.a >= ideal))
      && (cb.0 > 0 && cb.1 - base.a > ideal ==> Predict(m, Copyback, cb.0, peer, deploy).v < cb.1)
      && (cb.1 - base.a <= ideal ==> Predict(m, Copyback, cb.0, peer, deploy) == Ms(base.a + ideal))
      && (cb.1 - base.a > ideal
          ==> SameRatio(Predict(m, Copyback, cb.0, peer, deploy).v - base.a - ReadMs(base, cb.0), TransferMs(base, cb.0),
                        cb.1 - base.a, ideal))
  {
    var k, t := ReadMs(base, cb.0), TransferMs(base, cb.0);
    PartsPositive(base, cb.0);
    var ratio := (cb.1 - base.a) / (k + t);
    assert ratio * (k + t) == cb.1 - base.a;
    EfficiencyMissesRead(ratio, k, t);
    EfficiencyIsRatio(ratio, k, t, cb.1 - base.a);
  }

  lemma EfficiencyMissesRead(ratio: real, k: real, t: real)
    requires k >= 0.0 && t > 0.0
    ensures var eff := if ratio > 1.0 then ratio else 1.0;
      && (k + eff * t == ratio * (k + t) <==> ratio == 1.0 || (k == 0.0 && ratio >= 1.0))
      && (k > 0.0 && ratio > 1.0 ==> k + eff * t < ratio * (k + t))
      && (ratio > 1.0 <==> ratio * (k + t) > k + t) && (ratio == 1.0 <==> ratio * (k + t) == k + t)
  {
    var x := ratio - 1.0;
    assert ratio * (k + t) == k + t + x * k + x * t;
    assert ratio * t == t + x * t;
    assert (ratio * (k + t) - (k + t)) == x * (k + t);
    Sign(x, k);
    Sign(x, t);
  }

  lemma Sign(x: real, k: real)
    requires k >= 0.0
    ensures k > 0.0 ==> (x > 0.0 <==> x * k > 0.0) && (x == 0.0 <==> x * k == 0.0)
    ensures k == 0.0 ==> x * k == 0.0
  {
    if k > 0.0 {
      assert x == x * k / k;
    }
  }

  lemma PartsPositive(base: StepModel, ctx: nat)
    requires Physical(base) && base.geom.layers > 0
    ensures ReadMs(base, ctx) >= 0.0 && TransferMs(base, ctx) > 0.0
    ensures ReadMs(base, ctx) == 0.0 <==> ctx == 0
  {
    var local := Local(base, ctx);
    assert local * base.devices as real == ctx as real;
    MovePositive(local, base.geom, base.betaEff);
    assert ctx as real - local >= 0.0;
    MovePositive(ctx as real - local, base.geom, BETA_NVLINK_GBPS);
  }

  lemma MovePositive(t: real, geom: Geometry, gbps: real)
    requires t >= 0.0 && gbps > 0.0
    ensures MoveMs(t, geom, gbps) >= 0.0 && (MoveMs(t, geom, gbps) == 0.0 <==> t == 0.0)
  {
    var k, q := geom.kvBytesPerToken as real, gbps * 1000000000.0;
    assert t * k >= 0.0 && (t * k == 0.0 <==> t == 0.0);
    var y := t * k / q;
    assert y * q == t * k;
  }

  /** What the fit starts from, before round trip and efficiency are put in. */
  lemma FittedFrom(geom: Geometry, c1: nat, m1: real, c2: nat, m2: real, cfk: (nat, real), cb: (nat, real), devices: nat)
    returns (base: StepModel)
    requires c1 < c2 && geom.layers > 0 && devices > 0
    requires m1 < m2
    ensures Physical(base) && base.geom == geom
    ensures Calibrate(geom, c1, m1, c2, m2, cfk, cb, devices)
         == Fitted(base.(roundtrip := RoundTripOf(base, cfk), copybackEff := EfficiencyOf(base, cb)))
  {
    var d := (c2 - c1) as real;
    var s := (m2 - m1) / d;
    assert s * d == m2 - m1;
    CancelFactor(0.0, s, d);
    BandwidthPositive(geom, s);
    base := Calibrate(geom, c1, m1, c2, m2, cfk, cb, devices).m.(roundtrip := 0.0, copybackEff := 1.0);
  }

  /** The efficiency enters no prediction but the copy-back's, and the round trip none but remote
      compute's. */
  lemma EfficiencyApart(base: StepModel, eff: real, ctx: nat, peer: Peer, deploy: Deployment)
    requires Physical(base)
    ensures var m := base.(copybackEff := eff);
      && Physical(m) && ReadMs(m, ctx) == ReadMs(base, ctx) && TransferMs(m, ctx) == TransferMs(base, ctx)
      && Predict(m, Cfk, ctx, peer, deploy) == Predict(base, Cfk, ctx, peer, deploy)
  {
    assert Local(base.(copybackEff := eff), ctx) == Local(base, ctx);
  }

  lemma RoundTripApart(base: StepModel, roundtrip: real, ctx: nat, peer: Peer, deploy: Deployment)
    requires Physical(base)
    ensures var m := base.(roundtrip := roundtrip);
      && Physical(m) && ReadMs(m, ctx) == ReadMs(base, ctx) && TransferMs(m, ctx) == TransferMs(base, ctx)
      && Predict(m, Copyback, ctx, peer, deploy) == Predict(base, Copyback, ctx, peer, deploy)
  {
    assert Local(base.(roundtrip := roundtrip), ctx) == Local(base, ctx);
  }

  /** Predicting the calibration's own anchors back. The single-GPU anchors always come back; the
      remote-compute anchor exactly when it was not below intercept plus read; the copy-back anchor
      exactly when it ran at the ideal time, and a slower one comes back too fast: the transfer is
      predicted at its ideal time for an anchor that was no slower, and otherwise stretched by the ratio
      of the anchor's time to the ideal one. */
  lemma CalibrationRoundTrip(geom: Geometry, c1: nat, m1: real, c2: nat, m2: real, cfk: (nat, real), cb: (nat, real),
                             devices: nat, peer: Peer, deploy: Deployment)
    requires c1 < c2 && geom.layers > 0 && devices > 0
    requires m1 < m2 && peer.nvlinkGbps == BETA_NVLINK_GBPS && cb.0 > 0
    ensures var c := Calibrate(geom, c1, m1, c2, m2, cfk, cb, devices);
      && c.Fitted? && Physical(c.m)
      && Predict(c.m, Single, c1, peer, deploy) == Ms(m1) && Predict(c.m, Single, c2, peer, deploy) == Ms(m2)
      && (Predict(c.m, Cfk, cfk.0, peer, deploy) == Ms(cfk.1) <==> c.m.a + ReadMs(c.m, cfk.0) <= cfk.1)
      && (Predict(c.m, Copyback, cb.0, peer, deploy) == Ms(cb.1)
          <==> cb.1 - c.m.a == ReadMs(c.m, cb.0) + TransferMs(c.m, cb.0))
      && (cb.1 - c.m.a > ReadMs(c.m, cb.0) + TransferMs(c.m, cb.0)
          ==> Predict(c.m, Copyback, cb.0, peer, deploy).v < cb.1)
      && (var copied := Predict(c.m, Copyback, cb.0, peer, deploy).v - c.m.a - ReadMs(c.m, cb.0);
          var ideal := ReadMs(c.m, cb.0) + TransferMs(c.m, cb.0);
          if cb.1 - c.m.a <= ideal then copied == TransferMs(c.m, cb.0)
          else SameRatio(copied, TransferMs(c.m, cb.0), cb.1 - c.m.a, ideal))
  {
    SingleAnchorsReproduced(geom, c1, m1, c2, m2, cfk, cb, devices, peer, deploy);
    var base := FittedFrom(geom, c1, m1, c2, m2, cfk, cb, devices);
    var roundtrip, eff := RoundTripOf(base, cfk), EfficiencyOf(base, cb);
    var remote, copying := base.(roundtrip := roundtrip), base.(copybackEff := eff);
    assert remote.(copybackEff := eff) == copying.(roundtrip := roundtrip);
    RoundTripApart(base, roundtrip, cfk.0, peer, deploy);
    EfficiencyApart(remote, eff, cfk.0, peer, deploy);
    CfkAnchorReproduced(base, cfk, peer, deploy);
    EfficiencyApart(base, eff, cb.0, peer, deploy);
    RoundTripApart(copying, roundtrip, cb.0, peer, deploy);
    CopybackAnchorReproduced(base, cb, peer, deploy);
  }
}
