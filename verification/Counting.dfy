/** Repeated addition: products taken one step at a time keep loop arithmetic linear. */
module Counting {

  /** n copies of k, for arithmetic one step at a time. */
  function Times(n: nat, k: nat): nat {
    if n == 0 then 0 else Times(n - 1, k) + k
  }

  lemma {:induction false} TimesStep(n: nat, k: nat)
    ensures Times(n + 1, k) == Times(n, k) + k && Times(0, k) == 0
  {
  }

  lemma {:induction false} TimesIs(n: nat, k: nat)
    ensures Times(n, k) == n * k
    decreases n
  {
    if n > 0 {
      TimesIs(n - 1, k);
      assert (n - 1) * k + k == n * k;
    }
  }

  lemma {:induction false} TimesAdds(a: nat, b: nat, k: nat)
    ensures Times(a + b, k) == Times(a, k) + Times(b, k)
    decreases b
  {
    if b > 0 {
      TimesAdds(a, b - 1, k);
    }
  }

  lemma {:induction false} SlotBound(new_: nat, stale: nat, depth: nat, K: nat)
    requires new_ + stale <= depth
    ensures Times(new_, K) <= depth * K
  {
    TimesAdds(new_, depth - new_, K);
    TimesIs(depth, K);
  }

  /** Rounding to the nearest integer, halves to even. */
  function Round(x: real): (n: int)
    ensures x - 0.5 <= n as real <= x + 0.5
    ensures x - 0.5 == n as real || x + 0.5 == n as real ==> n % 2 == 0
  {
    var f := x.Floor;
    var d := x - f as real;
    if d < 0.5 || (d == 0.5 && f % 2 == 0) then f else f + 1
  }

  /** A quotient and a remainder are the only ones. */
  lemma {:induction false} DivisionIs(x: nat, q: nat, r: nat, n: nat)
    requires r < n && x == q * n + r
    ensures x / n == q && x % n == r
  {
    var d := x / n - q;
    assert d * n == r - x % n;
    if d > 0 {
      Multiple(d, n);
    } else if d < 0 {
      Multiple(-d, n);
    }
  }

  lemma {:induction false} Multiple(d: int, n: nat)
    requires d >= 1
    ensures d * n >= n
  {
    assert (d - 1) * n >= 0;
  }
}
