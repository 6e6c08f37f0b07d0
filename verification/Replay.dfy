/** Replaying a trace of requests against measured latencies: what the selector's arms cost, what the
    per-request oracle's cost, and who chose what. */
module Replay {
  import opened Arithmetic
  import opened ElasticPolicy
  import opened Options

  /** Measured ms per token of an arm at a context length. */
  type Latency = (nat, Point) -> real

  /** Tensor parallelism is not one of the measured arms; a decision for it is run on the host arm. */
  function ArmOf(p: Point): Point {
    if p == Tp then Host else p
  }

  function Arms(points: set<Point>): set<Point> {
    points - {Tp}
  }

  datatype Entry = Entry(ctx: nat, idle: bool, admissible: set<Point>, selector: Point, oracle: Point,
                         selectorMs: real, oracleMs: real, matched: bool)

  function Cost(latency: Latency, ctx: nat): Point -> Cost {
    p => Ms(latency(ctx, p))
  }

  /** The oracle's arm is a cheapest admissible one, the selector's is an admissible one, and the figures
      are the measured ones. */
  ghost predicate Recorded(e: Entry, latency: Latency) {
    && IsFastest(e.oracle, e.admissible, Cost(latency, e.ctx))
    && e.selector in e.admissible && Tp !in e.admissible
    && e.selectorMs == latency(e.ctx, e.selector) && e.oracleMs == latency(e.ctx, e.oracle)
    && (e.matched <==> e.selector == e.oracle)
  }

  ghost predicate AllRecorded(log: seq<Entry>, latency: Latency) {
    forall i :: 0 <= i < |log| ==> Recorded(log[i], latency)
  }

  // ---------------------------------------------------------------- regret

  function SelectorTotal(log: seq<Entry>): real {
    if log == [] then 0.0 else SelectorTotal(log[..|log| - 1]) + log[|log| - 1].selectorMs
  }

  function OracleTotal(log: seq<Entry>): real {
    if log == [] then 0.0 else OracleTotal(log[..|log| - 1]) + log[|log| - 1].oracleMs
  }

  lemma Logged(log: seq<Entry>, e: Entry, latency: Latency)
    requires AllRecorded(log, latency) && Recorded(e, latency)
    ensures AllRecorded(log + [e], latency)
    ensures SelectorTotal(log + [e]) == SelectorTotal(log) + e.selectorMs
    ensures OracleTotal(log + [e]) == OracleTotal(log) + e.oracleMs
  {
    assert (log + [e])[..|log|] == log;
  }

  predicate Cheapest(e: Entry, latency: Latency) {
    forall p :: p in e.admissible ==> latency(e.ctx, e.selector) <= latency(e.ctx, p)
  }

  lemma EntryRegret(e: Entry, latency: Latency)
    requires Recorded(e, latency)
    ensures e.oracleMs <= e.selectorMs && (e.oracleMs == e.selectorMs <==> Cheapest(e, latency))
  {
    assert Le(Cost(latency, e.ctx)(e.oracle), Cost(latency, e.ctx)(e.selector));
    forall p | p in e.admissible ensures e.oracleMs <= latency(e.ctx, p) {
      assert Le(Cost(latency, e.ctx)(e.oracle), Cost(latency, e.ctx)(p));
    }
  }

  /** The selector never beats the oracle, and equals it exactly when every arm it chose was a cheapest
      one. */
  lemma {:induction false} RegretAtLeastOne(log: seq<Entry>, latency: Latency)
    requires AllRecorded(log, latency)
    ensures OracleTotal(log) <= SelectorTotal(log)
    ensures OracleTotal(log) == SelectorTotal(log) <==> forall i :: 0 <= i < |log| ==> Cheapest(log[i], latency)
  {
    if log != [] {
      var p := log[..|log| - 1];
      RegretAtLeastOne(p, latency);
      EntryRegret(log[|log| - 1], latency);
      assert (forall i :: 0 <= i < |log| ==> Cheapest(log[i], latency))
        <==> (forall i :: 0 <= i < |p| ==> Cheapest(p[i], latency)) && Cheapest(log[|log| - 1], latency);
    }
  }

  // ---------------------------------------------------------------- confusion

  function Get(confusion: map<(Point, Point), nat>, key: (Point, Point)): nat {
    if key in confusion then confusion[key] else 0
  }

  function CountOf(log: seq<Entry>, key: (Point, Point)): nat {
    if log == [] then 0
    else
      var e := log[|log| - 1];
      CountOf(log[..|log| - 1], key) + if (e.selector, e.oracle) == key then 1 else 0
  }

  ghost predicate Tallies(confusion: map<(Point, Point), nat>, log: seq<Entry>) {
    forall key :: Get(confusion, key) == CountOf(log, key)
  }

  lemma Tallied(confusion: map<(Point, Point), nat>, log: seq<Entry>, e: Entry)
    requires Tallies(confusion, log)
    ensures var key := (e.selector, e.oracle);
      Tallies(confusion[key := Get(confusion, key) + 1], log + [e])
  {
    var k := (e.selector, e.oracle);
    var bumped := confusion[k := Get(confusion, k) + 1];
    assert (log + [e])[..|log|] == log;
    forall key ensures Get(bumped, key) == CountOf(log + [e], key) {
      assert Get(confusion, key) == CountOf(log, key);
    }
  }

  function Row(confusion: map<(Point, Point), nat>, a: Point): nat {
    Get(confusion, (a, Single)) + Get(confusion, (a, Cfk)) + Get(confusion, (a, Copyback)) + Get(confusion, (a, Host))
  }

  function Total(confusion: map<(Point, Point), nat>): nat {
    Row(confusion, Single) + Row(confusion, Cfk) + Row(confusion, Copyback) + Row(confusion, Host)
  }

  function Diagonal(confusion: map<(Point, Point), nat>): nat {
    Get(confusion, (Single, Single)) + Get(confusion, (Cfk, Cfk)) + Get(confusion, (Copyback, Copyback))
      + Get(confusion, (Host, Host))
  }

  function Matches(log: seq<Entry>): nat {
    if log == [] then 0 else Matches(log[..|log| - 1]) + if log[|log| - 1].matched then 1 else 0
  }

  function CountRow(log: seq<Entry>, a: Point): nat {
    CountOf(log, (a, Single)) + CountOf(log, (a, Cfk)) + CountOf(log, (a, Copyback)) + CountOf(log, (a, Host))
  }

  lemma {:induction false} RowGrows(log: seq<Entry>, a: Point)
    requires log != [] && log[|log| - 1].oracle != Tp
    ensures CountRow(log, a) == CountRow(log[..|log| - 1], a) + if log[|log| - 1].selector == a then 1 else 0
  {
  }

  lemma {:induction false} CountsAddUp(log: seq<Entry>, latency: Latency)
    requires AllRecorded(log, latency)
    ensures CountRow(log, Single) + CountRow(log, Cfk) + CountRow(log, Copyback) + CountRow(log, Host) == |log|
  {
    if log != [] {
      var e := log[|log| - 1];
      CountsAddUp(log[..|log| - 1], latency);
      assert Recorded(e, latency);
      RowGrows(log, Single);
      RowGrows(log, Cfk);
      RowGrows(log, Copyback);
      RowGrows(log, Host);
    }
  }

  lemma {:induction false} DiagonalCounts(log: seq<Entry>, latency: Latency)
    requires AllRecorded(log, latency)
    ensures CountOf(log, (Single, Single)) + CountOf(log, (Cfk, Cfk)) + CountOf(log, (Copyback, Copyback))
          + CountOf(log, (Host, Host)) == Matches(log)
  {
    if log != [] {
      DiagonalCounts(log[..|log| - 1], latency);
      assert Recorded(log[|log| - 1], latency);
    }
  }

  lemma RowIsCounted(confusion: map<(Point, Point), nat>, log: seq<Entry>, a: Point)
    requires Tallies(confusion, log)
    ensures Row(confusion, a) == CountRow(log, a)
  {
  }

  /** The confusion counts add up to the length of the log, and their diagonal to its matches. */
  lemma ConfusionAddsUp(confusion: map<(Point, Point), nat>, log: seq<Entry>, latency: Latency)
    requires Tallies(confusion, log) && AllRecorded(log, latency)
    ensures Total(confusion) == |log| && Diagonal(confusion) == Matches(log)
  {
    CountsAddUp(log, latency);
    RowIsCounted(confusion, log, Single);
    RowIsCounted(confusion, log, Cfk);
    RowIsCounted(confusion, log, Copyback);
    RowIsCounted(confusion, log, Host);
    DiagonalCounts(log, latency);
  }

  /** The log line for one request: the oracle takes a cheapest of the admissible arms. */
  method Judge(ctx: nat, idle: bool, adm: set<Point>, oracle: Point, selector: Point, latency: Latency) returns (e: Entry)
    requires IsFastest(oracle, adm, Cost(latency, ctx)) && selector in adm && Tp !in adm
    ensures e == Entry(ctx, idle, adm, selector, oracle, latency(ctx, selector), latency(ctx, oracle), selector == oracle)
    ensures Recorded(e, latency)
  {
    e := Entry(ctx, idle, adm, selector, oracle, latency(ctx, selector), latency(ctx, oracle), selector == oracle);
  }

  /** The running totals and the confusion table are those of the log. */
  ghost predicate Booked(log: seq<Entry>, latency: Latency, selTot: real, orcTot: real,
                         confusion: map<(Point, Point), nat>)
  {
    && AllRecorded(log, latency) && selTot == SelectorTotal(log) && orcTot == OracleTotal(log)
    && Tallies(confusion, log)
  }

  /** Add one entry to the totals, the confusion table and the log. */
  method Post(log: seq<Entry>, e: Entry, latency: Latency, selTot: real, orcTot: real,
              confusion: map<(Point, Point), nat>)
    returns (log': seq<Entry>, selTot': real, orcTot': real, confusion': map<(Point, Point), nat>)
    requires Booked(log, latency, selTot, orcTot, confusion) && Recorded(e, latency)
    ensures log' == log + [e] && Booked(log', latency, selTot', orcTot', confusion')
  {
    Tallied(confusion, log, e);
    Logged(log, e, latency);
    selTot', orcTot' := selTot + e.selectorMs, orcTot + e.oracleMs;
    confusion' := confusion[(e.selector, e.oracle) := Get(confusion, (e.selector, e.oracle)) + 1];
    log' := log + [e];
  }

  // ---------------------------------------------------------------- replay of any selector

  /** The arm the replay charges the selector with: an inadmissible choice falls back to the oracle's. */
  function Charged(p: Point, admissible: set<Point>, oracle: Point): Point {
    if ArmOf(p) in admissible then ArmOf(p) else oracle
  }

  ghost predicate ChargedFor(e: Entry, r: Request, p: Point) {
    && e.ctx == r.ctx && e.idle == r.peer.computeIdle
    && e.admissible == Arms(Admissible(r)) && e.selector == Charged(p, e.admissible, e.oracle)
  }

  method JudgeOne(r: Request, latency: Latency, p: Point) returns (e: Entry)
    ensures Recorded(e, latency) && ChargedFor(e, r, p)
  {
    var adm := Arms(Admissible(r));
    assert Host in adm;
    var orcArm := ArgMin(adm, Cost(latency, r.ctx));
    var selArm := ArmOf(p);
    if selArm !in adm {
      selArm := orcArm;
    }
    e := Judge(r.ctx, r.peer.computeIdle, adm, orcArm, selArm, latency);
  }

  method ReplayTrace(trace: seq<Request>, latency: Latency, decide: Request -> Point)
    returns (selTot: real, orcTot: real, confusion: map<(Point, Point), nat>, log: seq<Entry>)
    ensures |log| == |trace| && Booked(log, latency, selTot, orcTot, confusion)
    ensures orcTot <= selTot && Total(confusion) == |trace| && Diagonal(confusion) == Matches(log)
    ensures forall i :: 0 <= i < |trace| ==> ChargedFor(log[i], trace[i], decide(trace[i]))
  {
    selTot, orcTot, confusion, log := 0.0, 0.0, map[], [];
    for k := 0 to |trace|
      invariant |log| == k && Booked(log, latency, selTot, orcTot, confusion)
      invariant forall i :: 0 <= i < k ==> ChargedFor(log[i], trace[i], decide(trace[i]))
    {
      var e := JudgeOne(trace[k], latency, decide(trace[k]));
      log, selTot, orcTot, confusion := Post(log, e, latency, selTot, orcTot, confusion);
    }
    RegretAtLeastOne(log, latency);
    ConfusionAddsUp(confusion, log, latency);
  }

  /** The fallback is dead code for the repository's own selector, whatever its model predicts: the point
      it picks is admissible, and if that is tensor parallelism the host arm stands in, which always is. */
  lemma FallbackNeverTaken(r: Request, p: Point, predict: Point -> Cost, oracle: Point)
    requires IsFastest(p, Admissible(r), predict)
    ensures Charged(p, Arms(Admissible(r)), oracle) == if p == Tp then Host else p
    ensures Charged(p, Arms(Admissible(r)), oracle) in Arms(Admissible(r))
  {
  }

  // ---------------------------------------------------------------- replay of the online selector

  /** The log line of a request the online selector served: the arm of a point that is fastest among the
      harmless ones and among the candidates, judged against the admissible set the decision carries. */
  ghost predicate ServedOnline(e: Entry, r: Request, predict: Point -> Cost) {
    && e.ctx == r.ctx && e.idle == r.peer.computeIdle
    && (exists adm :: Shown(adm, r, predict) && e.admissible == Arms(adm))
    && exists p :: IsFastest(p, Harmless(r), predict) && IsFastest(p, Candidates(r), predict) && e.selector == ArmOf(p)
  }

  /** The gate refuses a request for one reason only: tensor parallelism that nobody has measured is
      fastest among its candidates. */
  ghost predicate RefusedOnline(r: Request, predict: Point -> Cost) {
    && r.deploy.tpTpot.None? && IsFastest(Tp, Candidates(r), predict)
    && r.deploy.tpEnabled && !Honest(predict, r)
  }

  /** A request that fits one card, by the tokens the deployment was measured for, but was not served
      on it. */
  predicate FitsElsewhere(e: Option<Entry>, r: Request) {
    e.Some? && e.value.ctx <= r.deploy.singleCapacity && e.value.selector != Single
  }

  /** The outcome of one request: an entry of the log, or a refusal. With KV no heavier than that of the
      geometry the capacity was measured on, what fits one card is served there. */
  ghost predicate Judged(e: Option<Entry>, r: Request, latency: Latency, predict: Point -> Cost) {
    && (e.None? ==> RefusedOnline(r, predict))
    && (e.Some? ==> Recorded(e.value, latency) && ServedOnline(e.value, r, predict))
    && (r.geom.kvBytesPerToken <= 524288 ==> !FitsElsewhere(e, r))
  }

  ghost predicate AllJudged(judged: seq<Option<Entry>>, trace: seq<Request>, latency: Latency,
                            model: Request -> Point -> Cost)
    requires |judged| <= |trace|
  {
    forall i :: 0 <= i < |judged| ==> Judged(judged[i], trace[i], latency, model(trace[i]))
  }

  lemma JudgedMore(judged: seq<Option<Entry>>, e: Option<Entry>, trace: seq<Request>, latency: Latency,
                   model: Request -> Point -> Cost)
    requires |judged| < |trace|
    requires AllJudged(judged, trace, latency, model)
    requires var r := trace[|judged|]; Judged(e, r, latency, model(r))
    ensures AllJudged(judged + [e], trace, latency, model)
  {
  }

  /** The entries among the outcomes, in order. */
  function Entries(judged: seq<Option<Entry>>): (log: seq<Entry>)
    ensures |log| <= |judged|
  {
    if judged == [] then []
    else
      var e := judged[|judged| - 1];
      Entries(judged[..|judged| - 1]) + if e.Some? then [e.value] else []
  }

  function CountElsewhere(judged: seq<Option<Entry>>, trace: seq<Request>): nat
    requires |judged| <= |trace|
  {
    if judged == [] then 0
    else
      var n := |judged| - 1;
      CountElsewhere(judged[..n], trace) + if FitsElsewhere(judged[n], trace[n]) then 1 else 0
  }

  /** One request through the do-no-harm selector in strict mode; None when it refuses. */
  method JudgeOnline(r: Request, latency: Latency, predict: Point -> Cost) returns (e: Option<Entry>)
    ensures Judged(e, r, latency, predict)
  {
    var s := OnlineSelect(r, predict, None, true);
    match s {
      case Refused(_) =>
        CandidatesAreLegal(r, Tp);
        e := None;
      case Chosen(d) =>
        ChosenArmIsAdmissible(r, d);
        CapacityScales(r);
        var adm := Arms(d.admissible);
        var orcArm := ArgMin(adm, Cost(latency, r.ctx));
        var entry := Judge(r.ctx, r.peer.computeIdle, adm, orcArm, ArmOf(d.point), latency);
        e := Some(entry);
    }
  }

  /** The replay's books after judging some requests: totals, counters, confusion table and log. */
  datatype Books = Books(selTot: real, orcTot: real, violations: nat, fitsNonSingle: nat,
                         confusion: map<(Point, Point), nat>, log: seq<Entry>)

  /** The books are those of the outcomes so far. */
  ghost predicate Kept(b: Books, judged: seq<Option<Entry>>, trace: seq<Request>, latency: Latency) {
    && |judged| <= |trace| && b.log == Entries(judged) && |b.log| + b.violations == |judged|
    && b.fitsNonSingle == CountElsewhere(judged, trace)
    && Booked(b.log, latency, b.selTot, b.orcTot, b.confusion)
  }

  method Record(b: Books, e: Option<Entry>, r: Request, latency: Latency,
                ghost judged: seq<Option<Entry>>, ghost trace: seq<Request>) returns (c: Books)
    requires Kept(b, judged, trace, latency) && |judged| < |trace| && trace[|judged|] == r
    requires e.Some? ==> Recorded(e.value, latency)
    ensures Kept(c, judged + [e], trace, latency)
  {
    assert (judged + [e])[..|judged|] == judged;
    match e {
      case None => c := b.(violations := b.violations + 1);
      case Some(entry) =>
        var extra := if entry.ctx <= r.deploy.singleCapacity && entry.selector != Single then 1 else 0;
        var log, selTot, orcTot, confusion := Post(b.log, entry, latency, b.selTot, b.orcTot, b.confusion);
        c := Books(selTot, orcTot, b.violations, b.fitsNonSingle + extra, confusion, log);
    }
  }

  /** The harder replay. Every request is judged; the log holds the entries in order, a refusal is counted
      and skipped, and requests that fit one card but were served elsewhere are counted. With an honest
      model, or without tensor parallelism, nothing is refused. */
  method ReplayOnline(trace: seq<Request>, latency: Latency, model: Request -> Point -> Cost)
    returns (b: Books, ghost judged: seq<Option<Entry>>)
    ensures |judged| == |trace| && AllJudged(judged, trace, latency, model) && Kept(b, judged, trace, latency)
    ensures b.orcTot <= b.selTot && Total(b.confusion) == |b.log| && Diagonal(b.confusion) == Matches(b.log)
    ensures (forall i :: 0 <= i < |trace| ==> !trace[i].deploy.tpEnabled || Honest(model(trace[i]), trace[i]))
      ==> b.violations == 0
    ensures (forall i :: 0 <= i < |trace| ==> trace[i].geom.kvBytesPerToken <= 524288) ==> b.fitsNonSingle == 0
  {
    b, judged := Books(0.0, 0.0, 0, 0, map[], []), [];
    for k := 0 to |trace|
      invariant |judged| == k && AllJudged(judged, trace, latency, model) && Kept(b, judged, trace, latency)
    {
      var outcome := JudgeOnline(trace[k], latency, model(trace[k]));
      JudgedMore(judged, outcome, trace, latency, model);
      b := Record(b, outcome, trace[k], latency, judged, trace);
      judged := judged + [outcome];
    }
    RegretAtLeastOne(b.log, latency);
    ConfusionAddsUp(b.confusion, b.log, latency);
    ReplayFollows(judged, trace, latency, model);
  }

  /** With an honest model, or without tensor parallelism, nothing was refused; with KV no heavier than
      the measured geometry's, nothing that fits one card went elsewhere. */
  lemma {:induction false} ReplayFollows(judged: seq<Option<Entry>>, trace: seq<Request>, latency: Latency,
                                         model: Request -> Point -> Cost)
    requires |judged| <= |trace|
    requires AllJudged(judged, trace, latency, model)
    ensures (forall i :: 0 <= i < |trace| ==> !trace[i].deploy.tpEnabled || Honest(model(trace[i]), trace[i]))
      ==> |Entries(judged)| == |judged|
    ensures (forall i :: 0 <= i < |trace| ==> trace[i].geom.kvBytesPerToken <= 524288)
      ==> CountElsewhere(judged, trace) == 0
  {
    if judged != [] {
      var n := |judged| - 1;
      ReplayFollows(judged[..n], trace, latency, model);
      assert Judged(judged[n], trace[n], latency, model(trace[n]));
    }
  }

  lemma ChosenArmIsAdmissible(r: Request, d: Decision)
    requires d.point in Candidates(r)
    requires d.admissible in {Admissible(r), Candidates(r)}
    ensures ArmOf(d.point) in Arms(d.admissible)
  {
    CandidatesAreLegal(r, d.point);
    SomeCandidate(r);
  }

  lemma CapacityScales(r: Request)
    ensures r.geom.kvBytesPerToken <= 524288 && r.ctx <= r.deploy.singleCapacity ==> FitsSingle(r)
  {
    var k, n := r.geom.kvBytesPerToken, r.deploy.singleCapacity;
    if k <= 524288 {
      MulMono(k, 524288, n);
      AtMostQuotient(n, n * 524288, k);
    }
  }

  // ---------------------------------------------------------------- fixed policies

  /** The arm a fixed policy ends up running: a busy peer or a full card falls back to copy-back. */
  function FixedArm(policy: Point, fits: bool, idle: bool): Point {
    if policy == Cfk && !idle then Copyback
    else if policy == Single && !fits then Copyback
    else policy
  }

  function Runnable(fits: bool, idle: bool): set<Point> {
    if fits then {Single, Cfk, Copyback, Host}
    else if idle then {Cfk, Copyback, Host}
    else {Copyback, Host}
  }

  /** Each of the four fixed policies always runs an arm its oracle could have chosen: its own, but for
      remote compute on a busy peer and a single card that is full, which run copy-back. The oracle
      chooses among all four arms while the card has room, and otherwise not the single card, nor remote
      compute on a busy peer. */
  lemma FixedArmIsRunnable(policy: Point, fits: bool, idle: bool)
    requires policy != Tp
    ensures FixedArm(policy, fits, idle) in Runnable(fits, idle)
    ensures forall p :: p in Runnable(fits, idle) <==> p != Tp && (p == Single ==> fits) && (p == Cfk ==> fits || idle)
    ensures policy in Runnable(fits, idle) && (policy == Cfk ==> idle) ==> FixedArm(policy, fits, idle) == policy
    ensures policy !in Runnable(fits, idle) || (policy == Cfk && !idle) ==> FixedArm(policy, fits, idle) == Copyback
  {
  }

  /** The log line of a fixed policy on one request. */
  ghost predicate RanFixed(e: Entry, policy: Point, request: (nat, bool), cap: nat) {
    && e.ctx == request.0 && e.idle == request.1
    && e.admissible == Runnable(e.ctx <= cap, e.idle) && e.selector == FixedArm(policy, e.ctx <= cap, e.idle)
  }

  method JudgeFixed(policy: Point, ctx: nat, idle: bool, cap: nat, latency: Latency) returns (e: Entry)
    requires policy != Tp
    ensures Recorded(e, latency) && RanFixed(e, policy, (ctx, idle), cap)
  {
    var arm := policy;
    if arm == Cfk && !idle {
      arm := Copyback;
    }
    if arm == Single && ctx > cap {
      arm := Copyback;
    }
    FixedArmIsRunnable(policy, ctx <= cap, idle);
    var adm := Runnable(ctx <= cap, idle);
    var oracle := ArgMin(adm, Cost(latency, ctx));
    e := Judge(ctx, idle, adm, oracle, arm, latency);
  }

  /** A fixed policy's total against the oracle's on the same trace: its regret is at least one, and one
      exactly when its arm is always a cheapest runnable one. */
  method FixedPolicy(policy: Point, trace: seq<(nat, bool)>, cap: nat, latency: Latency)
    returns (tot: real, orc: real, ghost log: seq<Entry>)
    requires policy != Tp
    ensures |log| == |trace| && AllRecorded(log, latency)
    ensures forall i :: 0 <= i < |trace| ==> RanFixed(log[i], policy, trace[i], cap)
    ensures tot == SelectorTotal(log) && orc == OracleTotal(log) && orc <= tot
    ensures orc == tot <==> forall i :: 0 <= i < |log| ==> Cheapest(log[i], latency)
  {
    tot, orc, log := 0.0, 0.0, [];
    for k := 0 to |trace|
      invariant |log| == k && AllRecorded(log, latency)
      invariant forall i :: 0 <= i < k ==> RanFixed(log[i], policy, trace[i], cap)
      invariant tot == SelectorTotal(log) && orc == OracleTotal(log)
    {
      var (ctx, idle) := trace[k];
      var e := JudgeFixed(policy, ctx, idle, cap, latency);
      Logged(log, e, latency);
      tot, orc, log := tot + e.selectorMs, orc + e.oracleMs, log + [e];
    }
    RegretAtLeastOne(log, latency);
  }
}
