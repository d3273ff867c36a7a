/** Facts about integer multiplication and division that the solver does not find inside larger proofs. */
module Arith {

  lemma MulLe(a: int, b: int, c: int)
    requires a <= b && c >= 0
    ensures a * c <= b * c
  {
    assert (b - a) * c >= 0;
  }

  lemma MulSucc(a: int, n: int)
    ensures a * (n + 1) == a * n + a
  {
  }

  lemma DivMod(a: int, b: int)
    requires b > 0
    ensures (a / b) * b <= a < (a / b) * b + b
  {
    assert a == (a / b) * b + a % b;
  }

  lemma DivAtMost(a: int, b: int, hi: int)
    requires b > 0 && a < (hi + 1) * b
    ensures a / b <= hi
  {
    DivMod(a, b);
    if a / b >= hi + 1 {
      MulLe(hi + 1, a / b, b);
    }
  }

  lemma DivAtLeast(a: int, b: int, lo: int)
    requires b > 0 && lo * b <= a
    ensures lo <= a / b
  {
    DivMod(a, b);
    if a / b + 1 <= lo {
      MulLe(a / b + 1, lo, b);
    }
  }

  lemma ModShift(x: int, k: int, m: int)
    requires m > 0
    ensures (x + k * m) % m == x % m
  {
    var q, r := x / m, x % m;
    assert x + k * m == (q + k) * m + r by {
      assert (q + k) * m == q * m + k * m;
    }
    UniqueMod(x + k * m, q + k, r, m);
  }

  lemma UniqueMod(x: int, q: int, r: int, m: int)
    requires m > 0 && 0 <= r < m && x == q * m + r
    ensures x % m == r
  {
    DivMod(x, m);
    var p := x / m;
    if p < q {
      MulLe(p + 1, q, m);
    } else if p > q {
      MulLe(q + 1, p, m);
    }
  }

  lemma NegMod(x: int, m: int)
    requires m > 0
    ensures (0 - x) % m == 0 <==> x % m == 0
  {
    if x % m == 0 {
      UniqueMod(0 - x, 0 - x / m, 0, m);
    } else if (0 - x) % m == 0 {
      UniqueMod(x, 0 - (0 - x) / m, 0, m);
    }
  }
}
