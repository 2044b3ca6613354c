/** Quotients and remainders. */
module Arithmetic {
  lemma {:induction false} Times(d: nat, a: nat, b: nat)
    requires a < b
    ensures d * a + d <= d * b
    decreases b
  {
    assert d * b == d * (b - 1) + d;
    if a < b - 1 { Times(d, a, b - 1); }
  }

  lemma QuotientIs(x: nat, d: nat, q: nat, r: nat)
    requires d > 0 && x == d * q + r && r < d
    ensures x / d == q && x % d == r
  {
    var z := x / d;
    assert x == d * z + x % d;
    if z < q {
      Times(d, z, q);
    } else if q < z {
      Times(d, q, z);
    }
  }

  lemma DivDiv(x: nat, a: nat, b: nat)
    requires a > 0 && b > 0
    ensures a * b > 0 && x / a / b == x / (a * b)
  {
    var q, r := x / a / b, x / a % b;
    assert x == a * (b * q + r) + x % a;
    assert a * r + x % a < a * b by { assert a * r <= a * (b - 1); }
    assert x == (a * b) * q + (a * r + x % a);
    QuotientIs(x, a * b, q, a * r + x % a);
  }

  lemma {:induction false} ModShift(r: nat, d: nat, q: nat)
    requires d > 0
    ensures (d * q + r) % d == r % d
  {
    var z := r / d;
    assert d * q + r == d * (q + z) + r % d;
    QuotientIs(d * q + r, d, q + z, r % d);
  }

  lemma ModAgain(a: nat, x: nat, s: nat, d: nat)
    requires d > 0
    ensures ((a + x) % d + s) % d == (a + x + s) % d
  {
    var q, r := (a + x) / d, (a + x) % d;
    assert a + x + s == d * q + (r + s);
    ModShift(r + s, d, q);
  }

  lemma SmallChange(s: nat, k: nat, d: nat)
    requires 0 < k < d
    ensures s % d != (s + k) % d
  {
    var q, r := s / d, s % d;
    if r + k < d {
      QuotientIs(s + k, d, q, r + k);
    } else {
      assert s + k == d * (q + 1) + (r + k - d);
      QuotientIs(s + k, d, q + 1, r + k - d);
    }
  }

  /** Counting on by one, in rounds of `d`. */
  lemma NextRound(t: nat, d: nat)
    requires d > 0
    ensures if t % d + 1 < d then (t + 1) / d == t / d && (t + 1) % d == t % d + 1
            else (t + 1) / d == t / d + 1 && (t + 1) % d == 0
  {
    var q, r := t / d, t % d;
    if r + 1 < d {
      QuotientIs(t + 1, d, q, r + 1);
    } else {
      assert t + 1 == d * (q + 1);
      QuotientIs(t + 1, d, q + 1, 0);
    }
  }
}
