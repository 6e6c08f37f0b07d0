/** A bisection with a fixed number of rounds: find how many passes make an operation last as long as a
    given time. */
module Bisection {
  import opened Arithmetic

  /** The measured time of an operation of x passes does not fall as x grows. */
  ghost predicate Rising(time: int -> real) {
    forall x, y :: x <= y ==> time(x) <= time(y)
  }

  datatype Window = Window(lo: int, hi: int, best: int)

  function Round(time: int -> real, goal: real, w: Window): Window {
    var passes := (w.lo + w.hi) / 2;
    if time(passes) < goal then w.(lo := passes + 1) else w.(hi := passes - 1, best := passes)
  }

  function Rounds(time: int -> real, goal: real, w: Window, k: nat): Window {
    if k == 0 then w else Round(time, goal, Rounds(time, goal, w, k - 1))
  }

  function Found(time: int -> real, goal: real, n: nat, initial: int, k: nat): int {
    var best := Rounds(time, goal, Window(1, n, initial), k).best;
    if best < 1 then 1 else best
  }

  /** The least pass count in 1..n that reaches the goal, or the default when none does. */
  ghost predicate IsLeast(p: int, time: int -> real, goal: real, n: nat, initial: int) {
    if exists x :: 1 <= x <= n && time(x) >= goal then
      1 <= p <= n && time(p) >= goal && forall x :: 1 <= x < p ==> time(x) < goal
    else p == if initial < 1 then 1 else initial
  }

  /** Everything left of the window is too fast, everything right of it is slow enough, and best is the
      first point right of it. A probe at zero passes can push the window below zero once. */
  ghost predicate Bracketed(w: Window, time: int -> real, goal: real, n: nat, initial: int) {
    && 1 <= w.lo <= n + 1 && -1 <= w.hi <= n && w.lo - w.hi <= 2
    && (w.lo > 1 ==> time(w.lo - 1) < goal)
    && (if w.hi == n then w.best == initial else w.best == w.hi + 1 && time(w.best) >= goal)
    && (w.lo - w.hi == 2 ==> w.hi == -1)
  }

  lemma RoundKeepsBracket(w: Window, time: int -> real, goal: real, n: nat, initial: int)
    requires n > 0 && Rising(time) && Bracketed(w, time, goal, n, initial)
    ensures Bracketed(Round(time, goal, w), time, goal, n, initial)
  {
    var passes := (w.lo + w.hi) / 2;
    if w.lo > w.hi && w.hi >= 1 {
      assert passes == w.hi == w.lo - 1;
    }
  }

  function Size(w: Window): int {
    w.hi - w.lo + 1
  }

  function Pow2(k: nat): nat {
    if k == 0 then 1 else 2 * Pow2(k - 1)
  }

  /** How many points of the original range a window of size s stands for after k halvings. */
  function Span(s: int, k: nat): int {
    s * Pow2(k)
  }

  lemma SpanHalves(a: int, b: int, k: nat)
    requires k > 0
    ensures 2 * a <= b ==> Span(a, k) <= Span(b, k - 1)
    ensures b <= 2 * a ==> Span(b, k - 1) <= Span(a, k)
  {
    var p := Pow2(k - 1);
    assert Span(a, k) == 2 * a * p;
    MulMono(2 * a, b, p);
    MulMono(b, 2 * a, p);
  }

  /** Each round at least halves what is left. */
  lemma {:induction false} RoundsShrink(time: int -> real, goal: real, n: nat, initial: int, k: nat)
    requires n > 0 && Rising(time)
    ensures var w := Rounds(time, goal, Window(1, n, initial), k);
      Bracketed(w, time, goal, n, initial) && (Size(w) <= 0 || Span(Size(w), k) <= n)
  {
    if k > 0 {
      RoundsShrink(time, goal, n, initial, k - 1);
      var w := Rounds(time, goal, Window(1, n, initial), k - 1);
      RoundKeepsBracket(w, time, goal, n, initial);
      var v := Round(time, goal, w);
      SpanHalves(Size(v), Size(w), k);
    }
  }

  /** With enough rounds for the range the answer is the least pass count that reaches the goal; any
      further rounds change nothing. */
  lemma EnoughRounds(time: int -> real, goal: real, n: nat, initial: int, k: nat)
    requires n > 0 && Rising(time) && Pow2(k) > n
    ensures IsLeast(Found(time, goal, n, initial, k), time, goal, n, initial)
  {
    RoundsShrink(time, goal, n, initial, k);
    var w := Rounds(time, goal, Window(1, n, initial), k);
    MulMono(1, Size(w), Pow2(k));
    assert Size(w) <= 0;
    if w.hi < n {
      assert time(Found(time, goal, n, initial, k)) >= goal;
      if w.lo > 1 {
        assert w.best == w.lo;
      }
    }
  }

  // ---------------------------------------------------------------- too few rounds

  function OnlyLast(n: nat): int -> real {
    x => if x >= n then 1.0 else 0.0
  }

  /** When only n passes are enough every probe moves the window right, and n itself is not reached until
      the range has been halved away. */
  lemma {:induction false} OnlyLastIsMissed(n: nat, initial: int, k: nat)
    requires Pow2(k) <= n
    ensures var w := Rounds(OnlyLast(n), 1.0, Window(1, n, initial), k);
      w.hi == n && w.best == initial && n < Span(Size(w) + 1, k) && 1 <= w.lo
  {
    if k > 0 {
      OnlyLastIsMissed(n, initial, k - 1);
      var w := Rounds(OnlyLast(n), 1.0, Window(1, n, initial), k - 1);
      var s := Size(w);
      MulMono(s + 1, 2, Pow2(k - 1));
      assert s >= 2;
      SpanHalves(s / 2 + 1, s + 1, k);
      assert (w.lo + w.hi) / 2 < n;
      assert Size(Round(OnlyLast(n), 1.0, w)) == s / 2;
    }
  }

  /** The answer is right for every rising timing exactly when the rounds cover the range. */
  lemma RightForAllExactly(n: nat, initial: int, k: nat)
    requires initial < n && n > 1
    ensures Pow2(k) > n <==>
      forall time: int -> real, goal: real :: Rising(time) ==> IsLeast(Found(time, goal, n, initial, k), time, goal, n, initial)
  {
    if Pow2(k) > n {
      forall time: int -> real, goal: real | Rising(time)
        ensures IsLeast(Found(time, goal, n, initial, k), time, goal, n, initial)
      {
        EnoughRounds(time, goal, n, initial, k);
      }
    } else {
      OnlyLastIsMissed(n, initial, k);
      var time := OnlyLast(n);
      assert Rising(time) && time(n) >= 1.0;
      assert !IsLeast(Found(time, 1.0, n, initial, k), time, 1.0, n, initial);
    }
  }

  /** The search itself. */
  method Calibrate(time: int -> real, goal: real, n: nat, initial: int, k: nat) returns (passes: int)
    ensures passes == Found(time, goal, n, initial, k)
    ensures n > 0 && Rising(time) && Pow2(k) > n ==> IsLeast(passes, time, goal, n, initial)
  {
    var lo: int, hi: int, best: int := 1, n, initial;
    for i := 0 to k
      invariant Window(lo, hi, best) == Rounds(time, goal, Window(1, n, initial), i)
    {
      var probe := (lo + hi) / 2;
      if time(probe) < goal {
        lo := probe + 1;
      } else {
        hi := probe - 1;
        best := probe;
      }
    }
    passes := if best < 1 then 1 else best;
    if n > 0 && Rising(time) && Pow2(k) > n {
      EnoughRounds(time, goal, n, initial, k);
    }
  }

  /** The repository's search: 1 to 32 passes, twelve rounds, eight by default, 95% of the peer copy. */
  method CalibratePaced(time: int -> real, peerMs: real) returns (passes: int)
    ensures Rising(time) ==> IsLeast(passes, time, peerMs * 0.95, 32, 8)
  {
    passes := Calibrate(time, peerMs * 0.95, 32, 8, 12);
    assert Pow2(12) == 4096 by {
      assert Pow2(3) == 8;
      assert Pow2(6) == 64;
      assert Pow2(9) == 512;
    }
  }
}
