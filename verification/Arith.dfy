/** Small arithmetic. Facts about products and quotients are kept apart so that the proofs that use them stay linear. */
module Arith {
  function Min(a: int, b: int): int {
    if a < b then a else b
  }

  function NotNegative(d: int): int {
    if d < 0 then 0 else d
  }

  lemma Distribute(a: int, b: int, c: int)
    ensures (a + b) * c == a * c + b * c
    ensures (a - b) * c == a * c - b * c
  {
  }

  lemma MulMonotone(a: int, b: int, c: int)
    requires a <= b && c >= 0
    ensures a * c <= b * c
  {
    Distribute(b, a, c);
    assert (b - a) * c >= 0;
  }

  lemma MulOrder(a: int, b: int, c: int)
    requires c > 0
    ensures a <= b <==> a * c <= b * c
  {
    if a <= b {
      MulMonotone(a, b, c);
    } else {
      MulMonotone(b + 1, a, c);
      Distribute(b, 1, c);
    }
  }

  /** Floor division by a positive number: `k` whole steps fit in `room` exactly when `k` is at most the quotient. */
  lemma DivOrder(k: int, room: int, step: int)
    requires step > 0
    ensures k * step <= room <==> k <= room / step
  {
    var q := room / step;
    assert room == q * step + room % step;
    if k <= q {
      MulMonotone(k, q, step);
    } else {
      MulMonotone(q + 1, k, step);
      Distribute(q, 1, step);
    }
  }

  /** `part` is how much of `whole` falls to each of `n`, in whole units, but never less than one. */
  predicate Share(part: int, whole: int, n: int) {
    part >= 1 && if whole >= n then part * n <= whole < (part + 1) * n else part == 1
  }

  lemma ShareOf(whole: int, n: int)
    requires n > 0 && whole > 0
    ensures Share(if whole / n <= 0 then 1 else whole / n, whole, n)
  {
    DivOrder(1, whole, n);
    DivOrder(whole / n, whole, n);
    DivOrder(whole / n + 1, whole, n);
  }
}
