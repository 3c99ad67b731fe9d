/** Uniqueness of quotient and remainder for a variable divisor. */
module Remainders {

  lemma MulAtLeast(k: int, d: nat)
    requires k >= 1
    ensures k * d >= d
  {
    assert k * d == (k - 1) * d + d;
  }

  lemma RemaindersAgree(q: int, r: int, q': int, r': int, d: nat)
    requires 0 <= r < d && 0 <= r' < d && q * d + r == q' * d + r'
    ensures r == r'
  {
    assert (q - q') * d == r' - r;
    if q > q' {
      MulAtLeast(q - q', d);
    } else if q < q' {
      MulAtLeast(q' - q, d);
    }
  }

  lemma RemainderIs(x: nat, q: int, r: int, d: nat)
    requires d > 0 && x == q * d + r && 0 <= r < d
    ensures x % d == r
  {
    var q', r' := x / d, x % d;
    assert x == q' * d + r';
    RemaindersAgree(q, r, q', r', d);
  }

  /** Counting up modulo `d` goes round. */
  lemma RemainderNext(i: nat, d: nat)
    requires d > 0
    ensures (i + 1) % d == if i % d + 1 == d then 0 else i % d + 1
  {
    var q, r := i / d, i % d;
    assert i == q * d + r;
    if r + 1 == d {
      assert (q + 1) * d == q * d + d;
      RemainderIs(i + 1, q + 1, 0, d);
    } else {
      RemainderIs(i + 1, q, r + 1, d);
    }
  }
}
