/** A poller of an engine's time-per-output-token histogram. Each call reads the two running counters
    and reports the mean over what happened since an earlier reading. */
module EngineTpot {
  import opened Options

  /** The histogram's running sum (seconds) and count. */
  datatype Sample = Sample(sum: real, count: real)

  datatype Span = Span(from: Sample, to: Sample)

  /** A call with what its reads return; None is a read that raises. */
  datatype Call =
    | Delta(read: Option<Sample>)
    | Window(first: Option<Sample>, second: Option<Sample>)

  /** `Mean` also remembers which observations it averages. */
  datatype Outcome = Raised | Silent | Mean(ms: real, over: Span)

  function MeanMs(from: Sample, to: Sample): real
    requires to.count > from.count
  {
    (to.sum - from.sum) / (to.count - from.count) * 1000.0
  }

  /** A window that saw no tokens raises, but only after the reference reading has moved. */
  function OutcomeOf(last: Sample, call: Call): Outcome {
    match call
    case Delta(Some(s)) => if s.count > last.count then Mean(MeanMs(last, s), Span(last, s)) else Silent
    case Window(Some(s0), Some(s1)) => if s1.count > s0.count then Mean(MeanMs(s0, s1), Span(s0, s1)) else Raised
    case _ => Raised
  }

  function LastAfter(last: Sample, call: Call): Sample {
    match call
    case Delta(Some(s)) => s
    case Window(Some(_), Some(s1)) => s1
    case _ => last
  }

  function After(start: Sample, calls: seq<Call>): Sample {
    if calls == [] then start else LastAfter(After(start, calls[..|calls| - 1]), calls[|calls| - 1])
  }

  function Outcomes(start: Sample, calls: seq<Call>): (rs: seq<Outcome>)
    ensures |rs| == |calls|
  {
    if calls == [] then []
    else var p := calls[..|calls| - 1];
      Outcomes(start, p) + [OutcomeOf(After(start, p), calls[|calls| - 1])]
  }

  // ---------------------------------------------------------------- one report

  lemma MeanTimesWeight(from: Sample, to: Sample)
    requires to.count > from.count
    ensures MeanMs(from, to) * (to.count - from.count) == 1000.0 * (to.sum - from.sum)
  {
    var q := (to.sum - from.sum) / (to.count - from.count);
    assert q * (to.count - from.count) == to.sum - from.sum;
    assert q * 1000.0 * (to.count - from.count) == 1000.0 * (q * (to.count - from.count));
  }

  /** The two readings between which a call may report: the reference left by the calls before it and its
      own for a delta, its own two for a window. None if a read raised. */
  function Readings(last: Sample, call: Call): Option<Span> {
    match call
    case Delta(Some(s)) => Some(Span(last, s))
    case Window(Some(s0), Some(s1)) => Some(Span(s0, s1))
    case _ => None
  }

  /** The span counted something. */
  predicate Counted(o: Option<Span>) {
    o.Some? && o.value.to.count > o.value.from.count
  }

  lemma {:induction false} OutcomeAt(start: Sample, calls: seq<Call>, n: nat)
    requires n < |calls|
    ensures Outcomes(start, calls)[n] == OutcomeOf(After(start, calls[..n]), calls[n])
  {
    if n < |calls| - 1 {
      var p := calls[..|calls| - 1];
      OutcomeAt(start, p, n);
      assert p[..n] == calls[..n];
    }
  }

  /** The call reported what happened between its readings. */
  predicate Reports(r: Outcome, o: Option<Span>, silent: bool) {
    && (r.Mean? <==> Counted(o)) && (r.Silent? <==> silent && o.Some? && !Counted(o))
    && (r.Mean? ==> r.over == o.value)
    && (r.Mean? ==> r.ms * (o.value.to.count - o.value.from.count) == 1000.0 * (o.value.to.sum - o.value.from.sum))
  }

  lemma OneReport(last: Sample, call: Call)
    ensures Reports(OutcomeOf(last, call), Readings(last, call), call.Delta?)
  {
    var o := Readings(last, call);
    if Counted(o) {
      MeanTimesWeight(o.value.from, o.value.to);
    }
  }

  /** In any mix of calls, a call reports exactly when the count moved between its two readings, and then
      its mean times the observations counted is the movement of the sum between them, in ms. */
  lemma ReportedMean(start: Sample, calls: seq<Call>, n: nat)
    requires n < |calls|
    ensures Reports(Outcomes(start, calls)[n], Readings(After(start, calls[..n]), calls[n]), calls[n].Delta?)
  {
    OutcomeAt(start, calls, n);
    OneReport(After(start, calls[..n]), calls[n]);
  }

  // ---------------------------------------------------------------- nothing is counted twice

  /** The most recent reading any call has made. */
  function Seen(start: Sample, calls: seq<Call>): Sample {
    if calls == [] then start
    else
      var before := Seen(start, calls[..|calls| - 1]);
      match calls[|calls| - 1]
      case Delta(Some(s)) => s
      case Window(Some(s0), Some(s1)) => s1
      case Window(Some(s0), None) => s0
      case _ => before
  }

  /** The engine's count never goes back, from reading to reading. */
  predicate Counting(start: Sample, calls: seq<Call>) {
    calls == [] ||
    (var p := calls[..|calls| - 1];
     var seen := Seen(start, p).count;
     Counting(start, p) &&
     match calls[|calls| - 1]
     case Delta(Some(s)) => seen <= s.count
     case Window(Some(s0), Some(s1)) => seen <= s0.count <= s1.count
     case Window(Some(s0), None) => seen <= s0.count
     case _ => true)
  }

  /** Reported spans are nonempty, lie between the given counts and follow one another. */
  ghost predicate Apart(rs: seq<Outcome>, lo: real, hi: real) {
    && (forall i :: 0 <= i < |rs| && rs[i].Mean? ==> lo <= rs[i].over.from.count < rs[i].over.to.count <= hi)
    && (forall i, j :: 0 <= i < j < |rs| && rs[i].Mean? && rs[j].Mean? ==>
          rs[i].over.to.count <= rs[j].over.from.count)
  }

  /** However delta_ms and window_ms calls are mixed, and whichever of them raise, no observation is in
      two reported means. */
  lemma {:induction false} NoObservationTwice(start: Sample, calls: seq<Call>)
    requires Counting(start, calls)
    ensures Apart(Outcomes(start, calls), start.count, After(start, calls).count)
    ensures start.count <= After(start, calls).count <= Seen(start, calls).count
  {
    if calls != [] {
      NoObservationTwice(start, calls[..|calls| - 1]);
    }
  }

  // ---------------------------------------------------------------- delta-only runs

  ghost predicate DeltasOnly(calls: seq<Call>) {
    forall i :: 0 <= i < |calls| ==> calls[i].Delta?
  }

  function Weight(r: Outcome): real {
    if r.Mean? then r.over.to.count - r.over.from.count else 0.0
  }

  function Weights(rs: seq<Outcome>): real {
    if rs == [] then 0.0 else Weights(rs[..|rs| - 1]) + Weight(rs[|rs| - 1])
  }

  function WeightedMs(rs: seq<Outcome>): real {
    if rs == [] then 0.0
    else
      var r := rs[|rs| - 1];
      WeightedMs(rs[..|rs| - 1]) + Total(r)
  }

  /** A report's mean times its count. */
  function Total(r: Outcome): real {
    if r.Mean? then r.ms * Weight(r) else 0.0
  }

  /** Time that passed into the sum while the count stood still: no call ever reports it. */
  function Unreported(start: Sample, calls: seq<Call>): real {
    if calls == [] then 0.0
    else
      var p := calls[..|calls| - 1];
      var last := After(start, p);
      Unreported(start, p) + Left(last, calls[|calls| - 1])
  }

  /** What one delta does not report it leaves silent. */
  function Left(last: Sample, call: Call): real {
    if OutcomeOf(last, call).Silent? then LastAfter(last, call).sum - last.sum else 0.0
  }

  lemma OneDelta(last: Sample, call: Call)
    requires call.Delta? && (call.read.Some? ==> last.count <= call.read.value.count)
    ensures var r, next := OutcomeOf(last, call), LastAfter(last, call);
      Total(r) + 1000.0 * Left(last, call) == 1000.0 * (next.sum - last.sum) && Weight(r) == next.count - last.count
  {
    if call.read.Some? && call.read.value.count > last.count {
      MeanTimesWeight(last, call.read.value);
    }
  }

  lemma OneMoreOutcome(start: Sample, calls: seq<Call>)
    requires calls != []
    ensures var p := calls[..|calls| - 1];
      var r := OutcomeOf(After(start, p), calls[|calls| - 1]);
      && Outcomes(start, calls) == Outcomes(start, p) + [r]
      && WeightedMs(Outcomes(start, calls)) == WeightedMs(Outcomes(start, p)) + Total(r)
      && Weights(Outcomes(start, calls)) == Weights(Outcomes(start, p)) + Weight(r)
  {
    var rs := Outcomes(start, calls[..|calls| - 1]);
    assert Outcomes(start, calls)[..|rs|] == rs;
  }

  /** The reported means, weighted by their counts, account for the whole movement of the sum except
      what moved while the count stood still; and the weights for the whole movement of the count. */
  lemma {:induction false} DeltasTelescope(start: Sample, calls: seq<Call>)
    requires DeltasOnly(calls) && Counting(start, calls)
    ensures WeightedMs(Outcomes(start, calls)) + 1000.0 * Unreported(start, calls)
         == 1000.0 * (After(start, calls).sum - start.sum)
    ensures Weights(Outcomes(start, calls)) == After(start, calls).count - start.count
    ensures Seen(start, calls) == After(start, calls)
  {
    if calls != [] {
      var p, c := calls[..|calls| - 1], calls[|calls| - 1];
      assert c.Delta?;
      DeltasTelescope(start, p);
      OneDelta(After(start, p), c);
      OneMoreOutcome(start, calls);
    }
  }

  lemma SameMean(w: real, from: Sample, to: Sample, u: real, n: real)
    requires n > 0.0 && n == to.count - from.count && w + 1000.0 * u == 1000.0 * (to.sum - from.sum)
    ensures w / n == MeanMs(from, to) <==> u == 0.0
  {
    var s := to.sum - from.sum;
    var a, b := w / n, s / n;
    assert MeanMs(from, to) == b * 1000.0;
    assert a * n == w && b * n == s;
    assert (a - b * 1000.0) * n == w - 1000.0 * s;
    if u == 0.0 {
      Cancel(a - b * 1000.0, n);
    }
  }

  lemma Cancel(x: real, n: real)
    requires n > 0.0 && x * n == 0.0
    ensures x == 0.0
  {
    assert x == x * n / n;
  }

  /** The engine's sum of times never goes back either. */
  predicate SumGrows(start: Sample, calls: seq<Call>) {
    calls == [] ||
    (var p, c := calls[..|calls| - 1], calls[|calls| - 1];
     SumGrows(start, p) && (c.Delta? && c.read.Some? ==> After(start, p).sum <= c.read.value.sum))
  }

  /** The sum stood still over every stretch in which the count did. */
  predicate NothingSilent(start: Sample, calls: seq<Call>) {
    calls == [] ||
    (var p, c := calls[..|calls| - 1], calls[|calls| - 1];
     var last := After(start, p);
     NothingSilent(start, p) && (OutcomeOf(last, c).Silent? ==> LastAfter(last, c).sum == last.sum))
  }

  lemma {:induction false} UnreportedIsNothing(start: Sample, calls: seq<Call>)
    requires DeltasOnly(calls) && SumGrows(start, calls)
    ensures Unreported(start, calls) >= 0.0
    ensures Unreported(start, calls) == 0.0 <==> NothingSilent(start, calls)
  {
    if calls != [] {
      assert calls[|calls| - 1].Delta?;
      UnreportedIsNothing(start, calls[..|calls| - 1]);
    }
  }

  /** In a run of deltas the count-weighted mean of the reports is the overall mean exactly when no time
      was ever added to the sum without a count. */
  lemma WeightedMeanIsOverallMean(start: Sample, calls: seq<Call>)
    requires DeltasOnly(calls) && Counting(start, calls) && SumGrows(start, calls)
    requires start.count < After(start, calls).count
    ensures var n := Weights(Outcomes(start, calls));
      n > 0.0 && (WeightedMs(Outcomes(start, calls)) / n == MeanMs(start, After(start, calls))
                  <==> NothingSilent(start, calls))
  {
    NetMean(start, calls);
    UnreportedIsNothing(start, calls);
  }

  /** Without anything known of the sum, the condition is on what moved silently, net. */
  lemma NetMean(start: Sample, calls: seq<Call>)
    requires DeltasOnly(calls) && Counting(start, calls) && start.count < After(start, calls).count
    ensures var n := Weights(Outcomes(start, calls));
      n > 0.0 && (WeightedMs(Outcomes(start, calls)) / n == MeanMs(start, After(start, calls))
                  <==> Unreported(start, calls) == 0.0)
  {
    DeltasTelescope(start, calls);
    var rs := Outcomes(start, calls);
    SameMean(WeightedMs(rs), start, After(start, calls), Unreported(start, calls), Weights(rs));
  }

  // ---------------------------------------------------------------- the object

  datatype Result<T> = Ok(value: T) | Err

  class Poller {
    var last: Sample

    constructor (first: Sample)
      ensures last == first
    {
      last := first;
    }

    /** Mean ms per token since the previous reading; None when nothing was counted. */
    method DeltaMs(read: Option<Sample>) returns (r: Result<Option<real>>)
      modifies this
      ensures last == LastAfter(old(last), Delta(read))
      ensures r == match OutcomeOf(old(last), Delta(read))
                   case Raised => Err
                   case Silent => Ok(None)
                   case Mean(ms, _) => Ok(Some(ms))
    {
      match read {
        case None => return Err;
        case Some(s) =>
          var ds, dc := s.sum - last.sum, s.count - last.count;
          last := s;
          return if dc > 0.0 then Ok(Some(ds / dc * 1000.0)) else Ok(None);
      }
    }

    /** Mean ms per token, and observations per second, over a window of its own. */
    method WindowMs(first: Option<Sample>, second: Option<Sample>, secs: real) returns (r: Result<(real, real)>)
      requires secs > 0.0
      modifies this
      ensures last == LastAfter(old(last), Window(first, second))
      ensures r.Ok? <==> OutcomeOf(old(last), Window(first, second)).Mean?
      ensures r.Ok? ==>
        var o := OutcomeOf(old(last), Window(first, second));
        r.value.0 == o.ms && r.value.1 * secs == Weight(o)
      ensures r.Ok? ==>
        && first.Some? && second.Some? && r.value.1 * secs == second.value.count - first.value.count
        && r.value.0 * (second.value.count - first.value.count) == 1000.0 * (second.value.sum - first.value.sum)
    {
      if first.None? || second.None? {
        return Err;
      }
      var s0, s1 := first.value, second.value;
      last := s1;
      if s1.count - s0.count <= 0.0 {
        return Err;
      }
      MeanTimesWeight(s0, s1);
      return Ok(((s1.sum - s0.sum) / (s1.count - s0.count) * 1000.0, (s1.count - s0.count) / secs));
    }
  }
}
