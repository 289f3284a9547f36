/** Products, quotients and remainders: the few nonlinear facts the other modules build on. */
module Arith {
  lemma MulNonNegative(x: int, y: int)
    requires 0 <= x && 0 <= y
    ensures 0 <= x * y
  {}

  lemma MulAdd(x: int, y: int, z: int)
    ensures x * (y + z) == x * y + x * z
  {}

  lemma MulLe(x: int, y: int, z: int)
    requires 0 <= x && y <= z
    ensures x * y <= x * z
  {
    MulNonNegative(x, z - y);
    assert x * (z - y) == x * z - x * y;
  }

  lemma MulLess(x: int, y: int, u: int, v: int)
    requires 0 <= x < u && 0 <= y < v
    ensures 0 <= x * y <= (u - 1) * (v - 1) < u * v
  {
    MulNonNegative(x, y);
    MulLe(x, y, v - 1);
    MulLe(v - 1, x, u - 1);
    assert (u - 1) * (v - 1) == u * v - u - v + 1;
  }

  lemma DivMod(x: int, m: int)
    requires m > 0
    ensures x == m * (x / m) + x % m && 0 <= x % m < m
  {}

  lemma Unique(m: int, q: int, r: int, q': int, r': int)
    requires m > 0 && m * q + r == m * q' + r'
    requires 0 <= r < m && 0 <= r' < m
    ensures q == q' && r == r'
  {
    assert m * (q - q') == m * q - m * q';
    assert m * (q' - q) == m * q' - m * q;
    if q > q' { MulLe(m, 1, q - q'); }
    if q < q' { MulLe(m, 1, q' - q); }
  }

  lemma DivModUnique(x: int, m: int, q: int, r: int)
    requires m > 0 && x == m * q + r && 0 <= r < m
    ensures x / m == q && x % m == r
  {
    DivMod(x, m);
    Unique(m, q, r, x / m, x % m);
  }

  lemma ModShift(x: int, k: int, m: int)
    requires m > 0
    ensures (x + m * k) % m == x % m
  {
    DivMod(x, m);
    assert m * (x / m) + m * k == m * (x / m + k);
    DivModUnique(x + m * k, m, x / m + k, x % m);
  }

  lemma ModAdd(x: int, y: int, m: int)
    requires m > 0
    ensures (x % m + y) % m == (x + y) % m
  {
    DivMod(x, m);
    ModShift(x % m + y, x / m, m);
  }

  lemma ModMul(x: int, y: int, m: int)
    requires m > 0
    ensures (x % m * y) % m == (x * y) % m
  {
    DivMod(x, m);
    assert x * y == x % m * y + m * (x / m * y) by {
      assert m * (x / m) * y == m * (x / m * y);
    }
    ModShift(x % m * y, x / m * y, m);
  }

  lemma ModSmall(x: int, m: int)
    requires 0 <= x < m
    ensures x % m == x
  {
    DivModUnique(x, m, 0, x);
  }

  lemma DivBelow(x: int, m: int, bound: int)
    requires m > 0 && 0 <= x < m * bound
    ensures 0 <= x / m < bound
  {
    DivMod(x, m);
    if x / m >= bound { MulLe(m, bound, x / m); }
    if x / m < 0 { MulLe(m, x / m, -1); }
  }

  // ---------- Congruences ----------

  predicate Cong(m: int, x: int, y: int)
    requires m > 0
  {
    x % m == y % m
  }

  // A multiple of m apart, and back.
  lemma CongFrom(m: int, x: int, y: int, k: int)
    requires m > 0 && x == y + m * k
    ensures Cong(m, x, y)
  {
    ModShift(y, k, m);
  }

  lemma CongDiff(m: int, x: int, y: int) returns (k: int)
    requires m > 0 && Cong(m, x, y)
    ensures x == y + m * k
  {
    DivMod(x, m);
    DivMod(y, m);
    k := x / m - y / m;
    MulAdd(m, y / m, k);
  }

  lemma CongAdd(m: int, x: int, x': int, y: int, y': int)
    requires m > 0 && Cong(m, x, x') && Cong(m, y, y')
    ensures Cong(m, x + y, x' + y')
  {
    var k := CongDiff(m, x, x');
    var l := CongDiff(m, y, y');
    MulAdd(m, k, l);
    CongFrom(m, x + y, x' + y', k + l);
  }

  lemma CongSub(m: int, x: int, x': int, y: int, y': int)
    requires m > 0 && Cong(m, x, x') && Cong(m, y, y')
    ensures Cong(m, x - y, x' - y')
  {
    var k := CongDiff(m, x, x');
    var l := CongDiff(m, y, y');
    assert m * (k - l) == m * k - m * l;
    CongFrom(m, x - y, x' - y', k - l);
  }

  lemma CongNeg(m: int, x: int, y: int)
    requires m > 0 && Cong(m, x, y)
    ensures Cong(m, -x, -y)
  {
    CongSub(m, 0, 0, x, y);
  }

  lemma CongMul(m: int, x: int, x': int, y: int, y': int)
    requires m > 0 && Cong(m, x, x') && Cong(m, y, y')
    ensures Cong(m, x * y, x' * y')
  {
    ModMul(x, y, m);
    ModMul(x', y, m);
    ModMul(y, x', m);
    ModMul(y', x', m);
    assert x' * y == y * x' && x' * y' == y' * x';
  }

  function Pow2(k: nat): (p: nat)
    ensures p > 0
  {
    if k == 0 then 1 else 2 * Pow2(k - 1)
  }
}
