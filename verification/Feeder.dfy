/** The telemetry feed between the engine's poller and the governor: real deltas are passed on at once,
    and the last one is fed again while it is fresh, so that clumpy telemetry is not taken for silence. */
module Feeder {
  import opened Options

  datatype Reading = Raised | Silent | Delta(ms: real)

  /** One turn of the loop: the clock after the poll, and what the poll returned. */
  datatype Tick = Tick(now: real, reading: Reading)

  /** The feeder waits a quarter of a second between polls, or longer. */
  ghost predicate Clocked(ticks: seq<Tick>) {
    forall i :: 0 < i < |ticks| ==> ticks[i - 1].now + 0.25 <= ticks[i].now
  }

  /** The last tick before i that carried a real delta. */
  function Latest(ticks: seq<Tick>, i: nat): (j: Option<nat>)
    requires i <= |ticks|
    ensures j.Some? ==> j.value < i && ticks[j.value].reading.Delta?
    ensures j.Some? ==> forall k :: j.value < k < i ==> !ticks[k].reading.Delta?
    ensures j.None? ==> forall k :: 0 <= k < i ==> !ticks[k].reading.Delta?
  {
    if i == 0 then None
    else if ticks[i - 1].reading.Delta? then Some(i - 1)
    else Latest(ticks, i - 1)
  }

  /** What reaches the governor at tick i. A poll that raised feeds nothing, fresh value or not. */
  function Fed(ticks: seq<Tick>, i: nat): Option<real>
    requires i < |ticks|
  {
    match ticks[i].reading
    case Raised => None
    case Delta(ms) => Some(ms)
    case Silent =>
      match Latest(ticks, i)
      case None => None
      case Some(j) => if ticks[i].now - ticks[j].now < 5.0 then Some(ticks[j].reading.ms) else None
  }

  /** The loop itself. */
  method Feed(ticks: seq<Tick>) returns (fed: seq<Option<real>>)
    ensures |fed| == |ticks| && forall i :: 0 <= i < |ticks| ==> fed[i] == Fed(ticks, i)
  {
    var lastV: Option<real>, lastT := None, 0.0;
    fed := [];
    for i := 0 to |ticks|
      invariant |fed| == i && forall k :: 0 <= k < i ==> fed[k] == Fed(ticks, k)
      invariant match Latest(ticks, i)
                case None => lastV == None
                case Some(j) => lastV == Some(ticks[j].reading.ms) && lastT == ticks[j].now
    {
      match ticks[i].reading {
        case Raised => fed := fed + [None];
        case Delta(ms) =>
          lastV, lastT := Some(ms), ticks[i].now;
          fed := fed + [Some(ms)];
        case Silent =>
          if lastV.Some? && ticks[i].now - lastT < 5.0 {
            fed := fed + [lastV];
          } else {
            fed := fed + [None];
          }
      }
    }
  }

  // ---------------------------------------------------------------- freshness

  lemma {:induction false} TicksApart(ticks: seq<Tick>, j: nat, i: nat)
    requires Clocked(ticks) && j <= i < |ticks|
    ensures ticks[j].now + 0.25 * (i - j) as real <= ticks[i].now
  {
    if j < i {
      TicksApart(ticks, j, i - 1);
    }
  }

  /** Every fed value is the most recent real delta, less than five seconds and at most nineteen ticks
      old; and a value that recent is always fed unless the poll raised. */
  lemma FedIsFresh(ticks: seq<Tick>, i: nat)
    requires Clocked(ticks) && i < |ticks|
    ensures match Latest(ticks, i + 1)
      case None => Fed(ticks, i) == None
      case Some(j) =>
        && (Fed(ticks, i) == if ticks[i].reading.Raised? || ticks[i].now - ticks[j].now >= 5.0 then None
                             else Some(ticks[j].reading.ms))
        && (Fed(ticks, i).Some? ==> i - j <= 19)
  {
    var j := Latest(ticks, i + 1);
    if j.Some? {
      TicksApart(ticks, j.value, i);
    }
  }

  /** Feeds at ticks j+1 up to i. */
  function Feeds(ticks: seq<Tick>, j: nat, i: nat): nat
    requires j <= i < |ticks|
  {
    if i == j then 0 else Feeds(ticks, j, i - 1) + if Fed(ticks, i).Some? then 1 else 0
  }

  /** After a real delta at most nineteen keep-alives are fed before the next one, because a keep-alive
      does not refresh the value it repeats; from the twentieth tick on the feed is silent. */
  lemma {:induction false} AtMostNineteenKeepAlives(ticks: seq<Tick>, j: nat, i: nat)
    requires Clocked(ticks) && j <= i < |ticks| && ticks[j].reading.Delta?
    requires forall k :: j < k <= i ==> !ticks[k].reading.Delta?
    ensures Feeds(ticks, j, i) <= if i - j < 19 then i - j else 19
    ensures i - j >= 20 ==> Fed(ticks, i) == None
    ensures Latest(ticks, i + 1) == Some(j)
  {
    if j < i {
      AtMostNineteenKeepAlives(ticks, j, i - 1);
      FedIsFresh(ticks, i);
    }
  }

  /** A delta at tick 0 and silence after it, polled as fast as the feeder can. */
  function Starved(n: nat): (ticks: seq<Tick>)
    ensures |ticks| == n + 1
    ensures forall i :: 0 <= i <= n ==> ticks[i] == Tick(0.25 * i as real, if i == 0 then Delta(1.0) else Silent)
  {
    if n == 0 then [Tick(0.0, Delta(1.0))] else Starved(n - 1) + [Tick(0.25 * n as real, Silent)]
  }

  /** The bound of nineteen is reached. */
  lemma {:induction false} NineteenAreReached(n: nat, i: nat)
    requires i <= n
    ensures Clocked(Starved(n)) && Latest(Starved(n), i + 1) == Some(0)
    ensures Feeds(Starved(n), 0, i) == if i < 19 then i else 19
  {
    if i > 0 {
      NineteenAreReached(n, i - 1);
    }
  }
}
