/**
 What the fused point formulas mean. Everything is modulo an odd m; a Jacobian
 triple (X, Y, Z) stands for the affine point (X / Z^2, Y / Z^3) of y^2 = x^3 + 7.
 */
module CurveFormulas {
  import opened Arith

  function Sq(x: int): int { x * x }
  function Cube(x: int): int { x * x * x }
  function Sixth(x: int): int { Cube(x) * Cube(x) }

  ghost predicate OnCurve(m: int, x: int, y: int, z: int)
    requires m > 0
  {
    Cong(m, Sq(y), Cube(x) + 7 * Sixth(z))
  }

  // (x, y, z) stands for the affine (ax, ay).
  ghost predicate StandsFor(m: int, x: int, y: int, z: int, ax: int, ay: int)
    requires m > 0
  {
    Cong(m, x, ax * Sq(z)) && Cong(m, y, ay * Cube(z))
  }

  /** The doubling the code computes, l being half of 3x^2. */
  ghost predicate Doubled(m: int, x: int, y: int, z: int, l: int, x3: int, y3: int, z3: int)
    requires m > 0
  {
    && Cong(m, 2 * l, 3 * Sq(x))
    && Cong(m, x3, Sq(l) - 2 * (x * Sq(y)))
    && Cong(m, y3, -(l * (x3 - x * Sq(y)) + Sq(Sq(y))))
    && Cong(m, z3, y * z)
  }

  /** The mixed addition the code computes. */
  ghost predicate Added(m: int, x: int, y: int, z: int, gx: int, gy: int, h: int, i: int, x3: int, y3: int, z3: int)
    requires m > 0
  {
    && Cong(m, h, gx * Sq(z) - x)
    && Cong(m, i, y - gy * Cube(z))
    && Cong(m, x3, Sq(i) - Cube(h) - 2 * (x * Sq(h)))
    && Cong(m, y3, i * (x3 - x * Sq(h)) - y * Cube(h))
    && Cong(m, z3, z * h)
  }

  // ---------- Congruence closure of the powers ----------

  lemma CongSq(m: int, x: int, y: int)
    requires m > 0 && Cong(m, x, y)
    ensures Cong(m, Sq(x), Sq(y))
  {
    CongMul(m, x, y, x, y);
  }

  lemma CongCube(m: int, x: int, y: int)
    requires m > 0 && Cong(m, x, y)
    ensures Cong(m, Cube(x), Cube(y))
  {
    CongSq(m, x, y);
    CongMul(m, Sq(x), Sq(y), x, y);
  }

  lemma CongScale(m: int, k: int, x: int, y: int)
    requires m > 0 && Cong(m, x, y)
    ensures Cong(m, k * x, k * y)
  {
    CongMul(m, k, k, x, y);
  }

  /** Two cancels from a congruence with an odd modulus. */
  lemma CancelTwo(m: int, x: int, y: int)
    requires m > 0 && m % 2 == 1 && Cong(m, 2 * x, 2 * y)
    ensures Cong(m, x, y)
  {
    var h := (m + 1) / 2;
    CongScale(m, h, 2 * x, 2 * y);
    assert h * (2 * x) == x + m * x && h * (2 * y) == y + m * y by {
      assert 2 * h == m + 1;
      assert h * (2 * x) == (2 * h) * x && h * (2 * y) == (2 * h) * y;
    }
    ModShift(x, x, m);
    ModShift(y, y, m);
  }

  // ---------- Doubling ----------

  // The curve equation of the doubled point, as an identity between polynomials.
  lemma DoubleIdentity(x: int, s: int, l: int)
    ensures var x3 := Sq(l) - 2 * (x * s);
            var y3 := -(l * (x3 - x * s) + Sq(s));
            Sq(y3) - Cube(x3) - Cube(s) * (s - Cube(x)) == (Sq(l) - 3 * (x * s)) * Sq(s) * (2 * l - 3 * Sq(x))
  {
    var u, q := x * s, Sq(l);
    var v := q - 3 * u;
    var x3 := q - 2 * u;
    var y3 := -(l * v + Sq(s));
    SquareOfSum(l, v, s);
    CubeIdentity(q, u);
    assert Cube(s) * (s - Cube(x)) == Sq(Sq(s)) - Cube(u) by { CubeProduct(x, s); }
    assert v * (2 * (l * Sq(s)) - 3 * Sq(u)) == v * Sq(s) * (2 * l - 3 * Sq(x)) by { Factor(v, s, l, x); }
  }

  lemma SquareOfSum(l: int, v: int, s: int)
    ensures Sq(-(l * v + Sq(s))) == Sq(l) * Sq(v) + 2 * (l * Sq(s)) * v + Sq(Sq(s))
  {
    var a, b := l * v, Sq(s);
    assert Sq(-(a + b)) == Sq(a) + 2 * a * b + Sq(b);
    assert Sq(a) == Sq(l) * Sq(v);
    assert 2 * a * b == 2 * (l * b) * v;
  }

  lemma CubeIdentity(q: int, u: int)
    ensures q * Sq(q - 3 * u) - Cube(q - 2 * u) == -3 * Sq(u) * (q - 3 * u) - Cube(u)
  {
    assert Sq(q - 3 * u) == q * q - 6 * (q * u) + 9 * (u * u);
    assert Sq(q - 2 * u) == q * q - 4 * (q * u) + 4 * (u * u);
  }

  lemma CubeProduct(x: int, s: int)
    ensures Cube(s) * (s - Cube(x)) == Sq(Sq(s)) - Cube(x * s)
  {
    assert Cube(x * s) == Cube(x) * Cube(s);
    assert Cube(s) * s == Sq(Sq(s));
  }

  lemma Factor(v: int, s: int, l: int, x: int)
    ensures v * (2 * (l * Sq(s)) - 3 * Sq(x * s)) == v * Sq(s) * (2 * l - 3 * Sq(x))
  {
    var t := Sq(s);
    assert Sq(x * s) == Sq(x) * t;
    assert 2 * (l * t) - 3 * (Sq(x) * t) == t * (2 * l - 3 * Sq(x));
  }

  // The doubled y in terms of the doubled x before reduction.
  lemma DoubledY(m: int, x: int, y: int, z: int, l: int, x3: int, y3: int, z3: int, e3: int)
    requires m > 0 && Doubled(m, x, y, z, l, x3, y3, z3) && Cong(m, x3, e3)
    ensures Cong(m, y3, -(l * (e3 - x * Sq(y)) + Sq(Sq(y))))
  {
    var u, t := x * Sq(y), Sq(Sq(y));
    CongSub(m, x3, e3, u, u);
    CongMul(m, l, l, x3 - u, e3 - u);
    CongAdd(m, l * (x3 - u), l * (e3 - u), t, t);
    CongNeg(m, l * (x3 - u) + t, l * (e3 - u) + t);
  }

  lemma SixthOfProduct(y: int, z: int)
    ensures Cube(Sq(y)) * (7 * Sixth(z)) == 7 * Sixth(y * z)
  {
    assert Cube(y * z) == Cube(y) * Cube(z);
    assert Cube(Sq(y)) == Cube(y) * Cube(y);
    var a, b := Cube(y), Cube(z);
    assert (a * a) * (7 * (b * b)) == 7 * ((a * b) * (a * b));
  }

  // The curve term of the doubled point.
  lemma DoubledTerm(m: int, x: int, y: int, z: int, z3: int)
    requires m > 0 && OnCurve(m, x, y, z) && Cong(m, z3, y * z)
    ensures Cong(m, Cube(Sq(y)) * (Sq(y) - Cube(x)), 7 * Sixth(z3))
  {
    var s := Sq(y);
    CongSub(m, s, Cube(x) + 7 * Sixth(z), Cube(x), Cube(x));
    CongMul(m, Cube(s), Cube(s), s - Cube(x), 7 * Sixth(z));
    SixthOfProduct(y, z);
    CongCube(m, z3, y * z);
    CongSq(m, Cube(z3), Cube(y * z));
    CongScale(m, 7, Sixth(z3), Sixth(y * z));
  }

  /** Doubling maps solutions of Y^2 = X^3 + 7 Z^6 to solutions. */
  lemma DoubleOnCurve(m: int, x: int, y: int, z: int, l: int, x3: int, y3: int, z3: int)
    requires m > 0 && Doubled(m, x, y, z, l, x3, y3, z3) && OnCurve(m, x, y, z)
    ensures OnCurve(m, x3, y3, z3)
  {
    var s := Sq(y);
    var e3 := Sq(l) - 2 * (x * s);
    var f3 := -(l * (e3 - x * s) + Sq(s));
    DoubledY(m, x, y, z, l, x3, y3, z3, e3);
    DoubleIdentity(x, s, l);
    var k := (Sq(l) - 3 * (x * s)) * Sq(s);
    CongSub(m, 2 * l, 3 * Sq(x), 3 * Sq(x), 3 * Sq(x));
    CongMul(m, k, k, 2 * l - 3 * Sq(x), 0);
    DoubledTerm(m, x, y, z, z3);
    var c := Cube(s) * (s - Cube(x));
    CongSq(m, y3, f3);
    CongCube(m, x3, e3);
    CongAdd(m, c, 7 * Sixth(z3), k * (2 * l - 3 * Sq(x)), 0);
    CongAdd(m, Cube(x3), Cube(e3), 7 * Sixth(z3), c + k * (2 * l - 3 * Sq(x)));
  }

  /** A chord or tangent of slope lam through (ax, ay), meeting the curve again at x3. */
  function LineY(lam: int, ax: int, ay: int, x3: int): int { lam * (ax - x3) - ay }

  lemma SlopeTerms(y: int, z: int, ax: int, ay: int, lam: int, q: int)
    requires q == Sq(Sq(z))
    ensures 3 * Sq(ax * Sq(z)) == 3 * Sq(ax) * q
    ensures ay * Cube(z) * (lam * z) == ay * lam * q
    ensures y * (lam * z) == lam * (y * z)
  {
    var zz, c := Sq(z), Cube(z);
    assert ax * zz * (ax * zz) == ax * ax * (zz * zz);
    assert c * z == q;
    assert ay * c * (lam * z) == ay * lam * (c * z);
  }

  // The slope of the tangent appears scaled by the new z.
  lemma TangentSlope(m: int, x: int, y: int, z: int, l: int, ax: int, ay: int, lam: int)
    requires m > 0 && m % 2 == 1 && Cong(m, 2 * l, 3 * Sq(x)) && StandsFor(m, x, y, z, ax, ay)
    requires Cong(m, 2 * (ay * lam), 3 * Sq(ax))
    ensures Cong(m, l, lam * (y * z))
  {
    var q, s := Sq(Sq(z)), ay * lam;
    SlopeTerms(y, z, ax, ay, lam, q);
    CongSq(m, x, ax * Sq(z));
    CongScale(m, 3, Sq(x), Sq(ax * Sq(z)));
    CongMul(m, 2 * s, 3 * Sq(ax), q, q);
    CongMul(m, y, ay * Cube(z), lam * z, lam * z);
    CongScale(m, 2, lam * (y * z), s * q);
    assert 2 * (s * q) == 2 * s * q;
    CancelTwo(m, l, lam * (y * z));
  }

  lemma RescaledTerm(m: int, x: int, a: int, p: int, q: int, r: int)
    requires m > 0 && Cong(m, x, a * p) && Cong(m, r, p * q)
    ensures Cong(m, x * q, a * r)
  {
    CongMul(m, x, a * p, q, q);
    CongMul(m, a, a, r, p * q);
    assert a * p * q == a * (p * q);
  }

  // x and y at a new scale: h is the ratio of the two.
  lemma Rescaled(m: int, x: int, y: int, z: int, ax: int, ay: int, h: int, z3: int)
    requires m > 0 && StandsFor(m, x, y, z, ax, ay) && Cong(m, z3, z * h)
    ensures Cong(m, x * Sq(h), ax * Sq(z3)) && Cong(m, y * Cube(h), ay * Cube(z3))
  {
    CongSq(m, z3, z * h);
    CongCube(m, z3, z * h);
    assert Sq(z * h) == Sq(z) * Sq(h) && Cube(z * h) == Cube(z) * Cube(h);
    RescaledTerm(m, x, ax, Sq(z), Sq(h), Sq(z3));
    RescaledTerm(m, y, ay, Cube(z), Cube(h), Cube(z3));
  }

  // The third point of a line in Jacobian form; l is its slope at the scale of z3.
  lemma LineThird(m: int, l: int, lam: int, x3: int, a3: int, u: int, ax: int, t: int, ay: int, z3: int)
    requires m > 0 && Cong(m, l, lam * z3) && Cong(m, x3, a3 * Sq(z3))
    requires Cong(m, u, ax * Sq(z3)) && Cong(m, t, ay * Cube(z3))
    ensures Cong(m, -(l * (x3 - u) + t), LineY(lam, ax, ay, a3) * Cube(z3))
  {
    CongSub(m, x3, a3 * Sq(z3), u, ax * Sq(z3));
    CongMul(m, l, lam * z3, x3 - u, a3 * Sq(z3) - ax * Sq(z3));
    CongAdd(m, l * (x3 - u), lam * z3 * (a3 * Sq(z3) - ax * Sq(z3)), t, ay * Cube(z3));
    CongNeg(m, l * (x3 - u) + t, lam * z3 * (a3 * Sq(z3) - ax * Sq(z3)) + ay * Cube(z3));
    LineExpand(lam, ax, ay, a3, z3);
  }

  lemma LineExpand(lam: int, ax: int, ay: int, a3: int, z: int)
    ensures -(lam * z * (a3 * Sq(z) - ax * Sq(z)) + ay * Cube(z)) == LineY(lam, ax, ay, a3) * Cube(z)
  {
    var d, c := a3 - ax, Cube(z);
    assert a3 * Sq(z) - ax * Sq(z) == d * Sq(z);
    assert lam * z * (d * Sq(z)) == lam * d * c;
    assert LineY(lam, ax, ay, a3) == -(lam * d + ay);
  }

  // The scaled square of the slope.
  lemma SlopeSquared(m: int, l: int, lam: int, z3: int)
    requires m > 0 && Cong(m, l, lam * z3)
    ensures Cong(m, Sq(l), Sq(lam) * Sq(z3))
  {
    CongSq(m, l, lam * z3);
    assert Sq(lam * z3) == Sq(lam) * Sq(z3);
  }

  // The third x of the tangent at the scale of z3.
  lemma TangentX(m: int, l: int, lam: int, u: int, ax: int, x3: int, z3: int)
    requires m > 0 && Cong(m, l, lam * z3) && Cong(m, u, ax * Sq(z3)) && Cong(m, x3, Sq(l) - 2 * u)
    ensures Cong(m, x3, (Sq(lam) - 2 * ax) * Sq(z3))
  {
    SlopeSquared(m, l, lam, z3);
    CongScale(m, 2, u, ax * Sq(z3));
    CongSub(m, Sq(l), Sq(lam) * Sq(z3), 2 * u, 2 * (ax * Sq(z3)));
    assert Sq(lam) * Sq(z3) - 2 * (ax * Sq(z3)) == (Sq(lam) - 2 * ax) * Sq(z3);
  }

  /** Doubling is the tangent rule of the affine curve, at every scale z. */
  lemma DoubleIsTangent(m: int, x: int, y: int, z: int, l: int, x3: int, y3: int, z3: int, ax: int, ay: int, lam: int)
    requires m > 0 && m % 2 == 1 && Doubled(m, x, y, z, l, x3, y3, z3) && StandsFor(m, x, y, z, ax, ay)
    requires Cong(m, 2 * (ay * lam), 3 * Sq(ax))
    ensures StandsFor(m, x3, y3, z3, Sq(lam) - 2 * ax, LineY(lam, ax, ay, Sq(lam) - 2 * ax))
  {
    TangentSlope(m, x, y, z, l, ax, ay, lam);
    CongMul(m, lam, lam, z3, y * z);
    Rescaled(m, x, y, z, ax, ay, y, z3);
    var u := x * Sq(y);
    TangentX(m, l, lam, u, ax, x3, z3);
    assert y * Cube(y) == Sq(Sq(y));
    LineThird(m, l, lam, x3, Sq(lam) - 2 * ax, u, ax, Sq(Sq(y)), ay, z3);
  }

  // The slope of the chord, scaled by the new z, is minus i.
  lemma ChordSlope(m: int, x: int, y: int, z: int, gx: int, gy: int, h: int, i: int, z3: int, ax: int, ay: int, lam: int)
    requires m > 0 && StandsFor(m, x, y, z, ax, ay) && Cong(m, lam * (gx - ax), gy - ay)
    requires Cong(m, h, gx * Sq(z) - x) && Cong(m, i, y - gy * Cube(z)) && Cong(m, z3, z * h)
    ensures Cong(m, -i, lam * z3)
  {
    var q, c := Sq(z), Cube(z);
    CongSub(m, gx * q, gx * q, x, ax * q);
    CongMul(m, z, z, h, gx * q - ax * q);
    CongMul(m, lam, lam, z3, z * (gx * q - ax * q));
    CongMul(m, lam * (gx - ax), gy - ay, c, c);
    assert lam * (z * (gx * q - ax * q)) == lam * (gx - ax) * c by {
      var d := gx - ax;
      assert gx * q - ax * q == d * q;
      assert z * (d * q) == d * c;
    }
    CongSub(m, y, ay * c, gy * c, gy * c);
    CongNeg(m, i, ay * c - gy * c);
    assert -(ay * c - gy * c) == (gy - ay) * c;
  }

  // h^3 + 2 x h^2 is the sum of the two x coordinates at the scale of z3.
  lemma ChordX(m: int, x: int, y: int, z: int, gx: int, gy: int, h: int, z3: int, ax: int, ay: int)
    requires m > 0 && StandsFor(m, x, y, z, ax, ay)
    requires Cong(m, h, gx * Sq(z) - x) && Cong(m, z3, z * h)
    ensures Cong(m, Cube(h) + 2 * (x * Sq(h)), (gx + ax) * Sq(z3))
  {
    var s := Sq(h);
    CongMul(m, h, gx * Sq(z) - x, s, s);
    assert h * s == Cube(h) && (gx * Sq(z) - x) * s == gx * Sq(z) * s - x * s;
    CongAdd(m, Cube(h), gx * Sq(z) * s - x * s, 2 * (x * s), 2 * (x * s));
    Rescaled(m, x, y, z, ax, ay, h, z3);
    Rescaled(m, gx * Sq(z), gy * Cube(z), z, gx, gy, h, z3);
    CongAdd(m, gx * Sq(z) * s, gx * Sq(z3), x * s, ax * Sq(z3));
    assert gx * Sq(z3) + ax * Sq(z3) == (gx + ax) * Sq(z3);
  }

  /** Mixed addition is the chord rule of the affine curve, at every scale z. */
  lemma AddIsChord(m: int, x: int, y: int, z: int, gx: int, gy: int, h: int, i: int, x3: int, y3: int, z3: int,
                   ax: int, ay: int, lam: int)
    requires m > 0 && Added(m, x, y, z, gx, gy, h, i, x3, y3, z3)
    requires StandsFor(m, x, y, z, ax, ay) && Cong(m, lam * (gx - ax), gy - ay)
    ensures var a3 := Sq(lam) - (gx + ax); StandsFor(m, x3, y3, z3, a3, LineY(lam, ax, ay, a3))
  {
    var a3 := Sq(lam) - (gx + ax);
    ChordSlope(m, x, y, z, gx, gy, h, i, z3, ax, ay, lam);
    SlopeSquared(m, -i, lam, z3);
    assert Sq(-i) == Sq(i);
    ChordX(m, x, y, z, gx, gy, h, z3, ax, ay);
    CongSub(m, Sq(i), Sq(lam) * Sq(z3), Cube(h) + 2 * (x * Sq(h)), (gx + ax) * Sq(z3));
    assert Sq(lam) * Sq(z3) - (gx + ax) * Sq(z3) == a3 * Sq(z3);
    Rescaled(m, x, y, z, ax, ay, h, z3);
    var u, t := x * Sq(h), y * Cube(h);
    LineThird(m, -i, lam, x3, a3, u, ax, t, ay, z3);
    assert -(-i * (x3 - u) + t) == i * (x3 - u) - t;
  }
}
