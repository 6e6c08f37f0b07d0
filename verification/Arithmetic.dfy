/** The few facts about products and concatenations that several of the models need. */
module Arithmetic {
  lemma MulMono(a: int, b: int, k: nat)
    ensures a <= b ==> a * k <= b * k
  {
  }

  lemma MulMonoReal(x: real, y: real, k: real)
    ensures k >= 0.0 ==> (x <= y ==> x * k <= y * k)
    ensures k > 0.0 ==> (x < y ==> x * k < y * k)
  {
    var d := y - x;
    assert d >= 0.0 && k >= 0.0 ==> d * k >= 0.0;
    assert d > 0.0 && k > 0.0 ==> d * k > 0.0;
    assert d * k == y * k - x * k;
  }

  lemma CancelFactor(x: real, y: real, k: real)
    ensures k > 0.0 && x * k < y * k ==> x < y
  {
    if k > 0.0 && x * k < y * k {
      assert (y - x) * k > 0.0;
      assert y - x == (y - x) * k / k;
    }
  }

  lemma AtMostQuotient(n: nat, x: nat, k: nat)
    requires k > 0
    ensures n <= x / k <==> n * k <= x
  {
    var q := x / k;
    assert x == q * k + x % k;
    MulMono(n, q, k);
    MulMono(q + 1, n, k);
    assert (q + 1) * k == q * k + k;
  }

  lemma AppendAssoc<T>(a: seq<T>, b: seq<T>, c: seq<T>)
    ensures a + b + c == a + (b + c)
  {
  }
}
