/** Facts about integer multiplication and division the models rely on. */
module Arith {

  lemma MulMono(a: int, b: int, step: int)
    requires a <= b && step > 0
    ensures a * step <= b * step
  {
    assert b * step - a * step == (b - a) * step;
  }

  lemma MulNonZero(a: int, b: int)
    requires a > 0 && b != 0
    ensures a * b != 0
  {
    if b > 0 {
      MulMono(1, a, b);
    } else {
      MulMono(1, a, -b);
      assert a * b == -(a * -b);
    }
  }

  /** `n` is the number of steps of size `step` needed to reach `total`. */
  lemma CeilDiv(n: int, step: int, total: int)
    requires step > 0 && n >= 0
    requires (n - 1) * step < total <= n * step
    ensures n == (total + step - 1) / step
  {
    var q := (total + step - 1) / step;
    var r := (total + step - 1) % step;
    assert q * step + r == total + step - 1 && 0 <= r < step;
    if q < n {
      MulMono(q, n - 1, step);
    } else if q > n {
      MulMono(n + 1, q, step);
    }
  }

  lemma DivExact(a: int, w: int)
    requires w > 0
    ensures (a * w) / w == a
  {
    var q := (a * w) / w;
    var r := (a * w) % w;
    assert q * w + r == a * w && 0 <= r < w;
    if q < a {
      MulMono(q + 1, a, w);
    } else if q > a {
      MulMono(a + 1, q, w);
    }
  }
}
