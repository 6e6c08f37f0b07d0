/** Exponential and logarithm as a pair of function values.

    Nothing is assumed about them globally: every result that needs their laws asks for `Valid()`.
    Each law is wrapped in a predicate so that it is instantiated only where a proof names it. */
module Exponential {

  datatype ExpLog = ExpLog(exp: real -> real, log: real -> real) {

    predicate AddLaw(x: real, y: real) {
      exp(x + y) == exp(x) * exp(y)
    }

    predicate Positive(x: real) {
      exp(x) > 0.0
    }

    predicate ExpOfLog(y: real) {
      y > 0.0 ==> exp(log(y)) == y
    }

    predicate LogOfExp(x: real) {
      log(exp(x)) == x
    }

    ghost predicate Valid() {
      && (forall x, y :: AddLaw(x, y))
      && (forall x :: Positive(x))
      && (forall y :: ExpOfLog(y))
      && (forall x :: LogOfExp(x))
    }

    /** The one addition law both lemmas below use, as a plain equation. */
    lemma Sum(x: real, y: real, s: real)
      requires Valid() && s == x + y
      ensures exp(s) == exp(x) * exp(y) && exp(x) > 0.0 && exp(y) > 0.0
    {
      assert AddLaw(x, y) && Positive(x) && Positive(y);
    }

    lemma ExpZero()
      requires Valid()
      ensures exp(0.0) == 1.0
    {
      Sum(0.0, 0.0, 0.0);
      Cancel(exp(0.0), 1.0, exp(0.0));
    }

    /** Moving a reference point from `m` to `m'` is multiplication by one factor. */
    lemma Rebase(x: real, m: real, m': real)
      requires Valid()
      ensures exp(x - m') == exp(m - m') * exp(x - m)
    {
      assert AddLaw(m - m', x - m);
      assert (m - m') + (x - m) == x - m';
    }

    lemma LogUnique(y: real, x: real)
      requires Valid() && y == exp(x)
      ensures log(y) == x
    {
      assert LogOfExp(x);
    }

    /** The logarithm turns a positive factor into a shift. */
    lemma LogScaled(m: real, l: real, y: real)
      requires Valid() && l > 0.0 && y == exp(m) * l
      ensures log(y) == m + log(l)
    {
      assert ExpOfLog(l);
      Sum(m, log(l), m + log(l));
      LogUnique(y, m + log(l));
    }
  }

  lemma Cancel(x: real, y: real, f: real)
    requires f != 0.0 && x * f == y * f
    ensures x == y
  {
    assert x == (x * f) / f;
  }
}
