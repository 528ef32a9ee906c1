/** Facts about multiplication, division and remainder on naturals that the
    allocators' offset arithmetic relies on. */
module Arithmetic {
  /** One more than the largest `u32`: the source's 32-bit counters stay below it. */
  const U32_LIMIT: nat := 0x1_0000_0000

  /** Euclidean division is determined by quotient and remainder. */
  lemma DivisionIsUnique(x: int, d: int, q: int, r: int)
    requires d > 0 && 0 <= r < d && x == q * d + r
    ensures x / d == q && x % d == r
  {
    var q', r' := x / d, x % d;
    assert x == q' * d + r';
    if q > q' {
      MultipleGap(q, q', d);
      assert false;
    } else if q < q' {
      MultipleGap(q', q, d);
      assert false;
    }
  }

  /** Multiples of `d` with different factors are at least `d` apart. */
  lemma {:induction false} MultipleGap(a: int, b: int, d: int)
    requires a > b && d > 0
    ensures a * d >= b * d + d
    decreases a - b
  {
    if a > b + 1 {
      MultipleGap(a - 1, b, d);
      assert a * d == (a - 1) * d + d;
    } else {
      assert a * d == b * d + d;
    }
  }

  /** Multiplying by a natural keeps the order of the factors. */
  lemma MultiplyIsMonotonic(a: int, b: int, d: nat)
    requires a <= b
    ensures a * d <= b * d
  {
    if a < b && d > 0 {
      MultipleGap(b, a, d);
    }
  }

  /** A multiple of `d` plus a multiple of `d` is a multiple of `d`. */
  lemma MultiplesAdd(x: nat, y: nat, d: nat)
    requires d > 0 && x % d == 0 && y % d == 0
    ensures (x + y) % d == 0
  {
    assert x == (x / d) * d && y == (y / d) * d;
    DivisionIsUnique(x + y, d, x / d + y / d, 0);
  }

  /** `k * m` is a multiple of `d` whenever `m` is. */
  lemma MultipleOfMultiple(k: nat, m: nat, d: nat)
    requires d > 0 && m % d == 0
    ensures (k * m) % d == 0
  {
    assert m == (m / d) * d;
    assert k * m == (k * (m / d)) * d;
    DivisionIsUnique(k * m, d, k * (m / d), 0);
  }
}
