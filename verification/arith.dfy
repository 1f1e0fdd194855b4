/** The few facts about multiplication, division and remainder by a variable that the
    other modules need, each proved once. */
module Arith {

  lemma ModSmall(v: int, q: nat)
    requires 0 <= v < q
    ensures v % q == v
  {
  }

  lemma ModUnique(d: nat, r: nat, q: nat)
    requires r < q
    ensures (q * d + r) % q == r && (q * d + r) / q == d
  {
    var v := q * d + r;
    var d', r' := v / q, v % q;
    assert q * (d - d') == r' - r;
    if d > d' {
      MulAtLeast(q, d - d');
    } else if d < d' {
      MulAtLeast(q, d' - d);
    }
  }

  lemma MulAtLeast(q: nat, k: nat)
    requires k >= 1
    ensures q * k >= q
  {
  }

  lemma ModOnce(v: int, q: nat)
    requires 0 < q <= v < 2 * q
    ensures v % q == v - q
  {
    ModUnique(1, v - q, q);
  }

  lemma ModNegative(v: int, q: nat)
    requires v < 0 <= v + q
    ensures v % q == v + q
  {
    var d', r' := v / q, v % q;
    assert q * (-1 - d') == r' - (v + q);
    if d' < -1 {
      MulAtLeast(q, -1 - d');
    } else if d' > -1 {
      MulAtLeast(q, d' + 1);
    }
  }

  lemma MulMonotone(a: nat, b: nat, k: nat)
    requires a <= b
    ensures a * k <= b * k
  {
  }

  lemma MulSucc(a: nat, k: nat)
    ensures (a + 1) * k == a * k + k
  {
  }

  lemma ModIs(v: int, d: int, r: nat, q: nat)
    requires r < q && v == q * d + r
    ensures v % q == r
  {
    var d', r' := v / q, v % q;
    assert q * (d - d') == r' - r;
    if d > d' {
      MulAtLeast(q, d - d');
    } else if d < d' {
      MulAtLeast(q, d' - d);
    }
  }

  lemma Distribute(a: int, b: int, c: int)
    ensures a * (b + c) == a * b + a * c
  {
  }

  /** A summand may be reduced first. */
  lemma ModAdd(v: int, n: int, q: nat)
    requires q > 0
    ensures (v % q + n) % q == (v + n) % q
  {
    var d, m := v / q, v % q + n;
    Distribute(q, d, m / q);
    ModIs(v + n, d + m / q, m % q, q);
  }

  /** Both sides of a difference may be reduced first. */
  lemma ModDiff(x: int, y: int, q: nat)
    requires q > 0
    ensures (x % q - y % q) % q == (x - y) % q
  {
    var d, m := x / q - y / q, x % q - y % q;
    Distribute(q, x / q, -(y / q));
    Distribute(q, d, m / q);
    ModIs(x - y, d + m / q, m % q, q);
  }
}
