/**
 The point operations of the ladder on residues modulo the field prime: the
 doubling and the two additions compute the group operation of the curve,
 degenerate cases included. Field elements are integers read modulo p.
 */
module LadderOps {
  import opened Arith
  import opened Fields
  import opened Groups
  import opened Ecdsa
  import opened CurveFormulas

  // Jacobian coordinates with an infinity flag.
  datatype Coords = Coords(x: int, y: int, z: int, inf: bool)

  datatype Affine = Affine(x: int, y: int, inf: bool)

  // ---------- The group law in coordinates (section 2.2.1 of SEC 1 v2.0) ----------

  // s has the coordinates of the third point of the line of slope lam through a, whose x coordinates add to sum.
  ghost predicate OnLine<P(!new)>(c: Curve<P>, a: P, sum: int, lam: int, s: P)
    requires c.base.m > 1
  {
    var x3 := Sq(lam) - sum;
    s != c.group.zero && Cong(c.base.m, c.x(s), x3) && Cong(c.base.m, c.y(s), LineY(lam, c.x(a), c.y(a), x3))
  }

  ghost predicate ChordAt<P(!new)>(c: Curve<P>, a: P, b: P, lam: int)
    requires c.base.m > 1
  {
    a != c.group.zero && b != c.group.zero && c.x(a) != c.x(b) && Cong(c.base.m, lam * (c.x(b) - c.x(a)), c.y(b) - c.y(a))
    ==> OnLine(c, a, c.x(b) + c.x(a), lam, c.group.add(a, b))
  }

  ghost predicate TangentAt<P(!new)>(c: Curve<P>, a: P, lam: int)
    requires c.base.m > 1
  {
    a != c.group.zero && c.y(a) != 0 && Cong(c.base.m, 2 * (c.y(a) * lam), 3 * Sq(c.x(a)))
    ==> OnLine(c, a, 2 * c.x(a), lam, c.group.add(a, a))
  }

  ghost predicate OppositeAt<P(!new)>(c: Curve<P>, a: P)
    requires c.base.m > 1
  {
    a != c.group.zero ==>
      c.group.neg(a) != c.group.zero && c.x(c.group.neg(a)) == c.x(a) && (c.y(c.group.neg(a)) + c.y(a)) % c.base.m == 0
  }

  ghost predicate CurveLawful<P(!new)>(c: Curve<P>) {
    && c.Lawful() && c.N() > 2
    && (forall a, b, lam {:trigger ChordAt(c, a, b, lam)} :: ChordAt(c, a, b, lam))
    && (forall a, lam {:trigger TangentAt(c, a, lam)} :: TangentAt(c, a, lam))
    && (forall a {:trigger OppositeAt(c, a)} :: OppositeAt(c, a))
  }

  // ---------- What coordinates stand for ----------

  ghost predicate Unit(m: int, v: int)
    requires m > 1
  {
    v % m != 0
  }

  /** Coordinates kept at the scale gz stand for the point a. */
  ghost predicate Rep<P(!new)>(c: Curve<P>, gz: int, q: Coords, a: P)
    requires c.base.m > 1
  {
    && (q.inf <==> a == c.group.zero)
    && (!q.inf ==> Unit(c.base.m, q.z * gz) && StandsFor(c.base.m, q.x, q.y, q.z * gz, c.x(a), c.y(a)))
  }

  lemma UnitProduct(f: Field, u: int, v: int)
    requires f.Lawful() && Unit(f.m, u) && Unit(f.m, v)
    ensures Unit(f.m, u * v)
  {
    DivMod(u, f.m);
    DivMod(v, f.m);
    NoZeroDivisors(f, u % f.m, v % f.m);
    ModMul(u, v, f.m);
    ModMul(v, u % f.m, f.m);
    assert u % f.m * v == v * (u % f.m) && v % f.m * (u % f.m) == u % f.m * (v % f.m);
  }

  lemma UnitCong(m: int, u: int, v: int)
    requires m > 1 && Cong(m, u, v) && Unit(m, v)
    ensures Unit(m, u)
  {}

  lemma UnitInverse(f: Field, den: int) returns (w: int)
    requires f.Lawful() && Unit(f.m, den)
    ensures Cong(f.m, den * w, 1)
  {
    DivMod(den, f.m);
    w := f.inv(den % f.m);
    Inverse(f, den % f.m);
    ModMul(den, w, f.m);
    ModSmall(1, f.m);
  }

  /** A slope: division by a unit. */
  lemma Quotient(f: Field, num: int, den: int) returns (lam: int)
    requires f.Lawful() && Unit(f.m, den)
    ensures Cong(f.m, den * lam, num)
  {
    var w := UnitInverse(f, den);
    lam := w * num;
    CongMul(f.m, den * w, 1, num, num);
    assert den * lam == den * w * num;
  }

  lemma NotTwoTorsion<P(!new)>(c: Curve<P>, a: P)
    requires CurveLawful(c) && a != c.group.zero
    ensures c.y(a) != 0 && c.group.add(a, a) != c.group.zero
  {
    assert c.AffineAt(a) && OppositeAt(c, a) && c.AffineAt(c.group.neg(a));
    if c.y(a) == 0 {
      ModSmall(c.y(c.group.neg(a)), c.base.m);
      Negates(c.group, a);
      Twice(c.group, a);
      MulZeroPoint(c.group, 2);
      MulInjective(c.group, 2, 0, a);
    }
    if c.group.add(a, a) == c.group.zero {
      Twice(c.group, a);
      MulInjective(c.group, 2, 0, a);
    }
  }

  lemma {:induction false} Twice<P(!new)>(g: Group<P>, a: P)
    requires g.Lawful()
    ensures g.Mul(2, a) == g.add(a, a)
  {
    assert g.Mul(2, a) == g.add(g.Mul(1, a), a) && g.Mul(1, a) == g.add(g.Mul(0, a), a);
    Zero(g, a);
  }

  lemma StandsForCong(m: int, x: int, y: int, z: int, ax: int, ay: int, bx: int, b: int)
    requires m > 0 && StandsFor(m, x, y, z, ax, ay) && Cong(m, ax, bx) && Cong(m, ay, b)
    ensures StandsFor(m, x, y, z, bx, b)
  {
    CongMul(m, ax, bx, Sq(z), Sq(z));
    CongMul(m, ay, b, Cube(z), Cube(z));
  }

  /** The doubling formula gives coordinates of a + a. */
  lemma DoubledIsSum<P(!new)>(c: Curve<P>, x: int, y: int, z: int, l: int, x3: int, y3: int, z3: int, a: P)
    requires CurveLawful(c) && a != c.group.zero && Unit(c.base.m, z)
    requires StandsFor(c.base.m, x, y, z, c.x(a), c.y(a)) && Doubled(c.base.m, x, y, z, l, x3, y3, z3)
    ensures var s := c.group.add(a, a);
            s != c.group.zero && Unit(c.base.m, z3) && StandsFor(c.base.m, x3, y3, z3, c.x(s), c.y(s))
  {
    var m, ax, ay, s := c.base.m, c.x(a), c.y(a), c.group.add(a, a);
    NotTwoTorsion(c, a);
    assert c.AffineAt(a);
    ModSmall(ay, m);
    ModSmall(2, m);
    UnitProduct(c.base, 2, ay);
    var lam := Quotient(c.base, 3 * Sq(ax), 2 * ay);
    assert 2 * ay * lam == 2 * (ay * lam);
    DoubleIsTangent(m, x, y, z, l, x3, y3, z3, ax, ay, lam);
    assert TangentAt(c, a, lam);
    StandsForCong(m, x3, y3, z3, Sq(lam) - 2 * ax, LineY(lam, ax, ay, Sq(lam) - 2 * ax), c.x(s), c.y(s));
    UnitProduct(c.base, z, z);
    UnitProduct(c.base, Sq(z), z);
    UnitProduct(c.base, ay, Cube(z));
    UnitCong(m, y, ay * Cube(z));
    UnitProduct(c.base, y, z);
    UnitCong(m, z3, y * z);
  }

  /** The chord formula gives coordinates of a + b when the x coordinates differ. */
  lemma AddedIsSum<P(!new)>(c: Curve<P>, x: int, y: int, z: int, h: int, i: int, x3: int, y3: int, z3: int, a: P, b: P)
    requires CurveLawful(c) && a != c.group.zero && b != c.group.zero && Unit(c.base.m, z) && Unit(c.base.m, h)
    requires StandsFor(c.base.m, x, y, z, c.x(a), c.y(a)) && c.x(a) != c.x(b)
    requires Added(c.base.m, x, y, z, c.x(b), c.y(b), h, i, x3, y3, z3)
    ensures var s := c.group.add(a, b);
            s != c.group.zero && Unit(c.base.m, z3) && StandsFor(c.base.m, x3, y3, z3, c.x(s), c.y(s))
  {
    var m, ax, ay, bx, b_, s := c.base.m, c.x(a), c.y(a), c.x(b), c.y(b), c.group.add(a, b);
    assert c.AffineAt(a) && c.AffineAt(b);
    DifferentResidues(m, bx, ax);
    var lam := Quotient(c.base, b_ - ay, bx - ax);
    assert (bx - ax) * lam == lam * (bx - ax);
    AddIsChord(m, x, y, z, bx, b_, h, i, x3, y3, z3, ax, ay, lam);
    assert ChordAt(c, a, b, lam);
    var a3 := Sq(lam) - (bx + ax);
    StandsForCong(m, x3, y3, z3, a3, LineY(lam, ax, ay, a3), c.x(s), c.y(s));
    UnitProduct(c.base, z, h);
    UnitCong(m, z3, z * h);
  }

  lemma DifferentResidues(m: int, u: int, v: int)
    requires m > 1 && 0 <= u < m && 0 <= v < m && u != v
    ensures Unit(m, u - v)
  {
    if u > v { ModSmall(u - v, m); } else { ModShift(u - v, 1, m); ModSmall(u - v + m, m); }
  }

  /** The tests on h and i: they vanish exactly when the x coordinates, and then the points, coincide. */
  lemma Degenerate<P(!new)>(c: Curve<P>, x: int, y: int, z: int, h: int, i: int, a: P, b: P)
    requires CurveLawful(c) && a != c.group.zero && b != c.group.zero && Unit(c.base.m, z)
    requires StandsFor(c.base.m, x, y, z, c.x(a), c.y(a))
    requires Cong(c.base.m, h, c.x(b) * Sq(z) - x) && Cong(c.base.m, i, y - c.y(b) * Cube(z))
    ensures Unit(c.base.m, h) <==> c.x(a) != c.x(b)
    ensures c.x(a) == c.x(b) ==> if Unit(c.base.m, i) then c.group.add(a, b) == c.group.zero else a == b
  {
    var m := c.base.m;
    assert c.AffineAt(a) && c.AffineAt(b);
    UnitProduct(c.base, z, z);
    UnitProduct(c.base, Sq(z), z);
    ScaledDifference(c.base, h, c.x(b), c.x(a), Sq(z), x);
    CongNeg(m, i, y - c.y(b) * Cube(z));
    ScaledDifference(c.base, -i, c.y(b), c.y(a), Cube(z), y);
    NegUnit(m, i);
    if c.x(a) == c.x(b) {
      if c.y(a) != c.y(b) {
        Opposite(c, a, b);
      }
    }
  }

  lemma NegUnit(m: int, i: int)
    requires m > 1
    ensures Unit(m, -i) <==> Unit(m, i)
  {
    ModSmall(0, m);
    if Cong(m, i, 0) { CongNeg(m, i, 0); }
    if Cong(m, -i, 0) { CongNeg(m, -i, 0); }
  }

  lemma ScaledDifference(f: Field, d: int, u: int, v: int, s: int, sv: int)
    requires f.Lawful() && Unit(f.m, s) && 0 <= u < f.m && 0 <= v < f.m
    requires Cong(f.m, d, u * s - sv) && Cong(f.m, sv, v * s)
    ensures Unit(f.m, d) <==> u != v
  {
    CongSub(f.m, u * s, u * s, sv, v * s);
    assert u * s - v * s == (u - v) * s;
    if u != v {
      DifferentResidues(f.m, u, v);
      UnitProduct(f, u - v, s);
      UnitCong(f.m, d, (u - v) * s);
    } else {
      ModSmall(0, f.m);
    }
  }

  lemma Opposite<P(!new)>(c: Curve<P>, a: P, b: P)
    requires CurveLawful(c) && a != c.group.zero && b != c.group.zero && c.x(a) == c.x(b) && c.y(a) != c.y(b)
    ensures c.group.add(a, b) == c.group.zero
  {
    assert c.AffineAt(a) && c.AffineAt(b) && OppositeAt(c, a) && c.AffineAt(c.group.neg(a));
    var n := c.group.neg(a);
    NotTwoTorsion(c, a);
    NotTwoTorsion(c, n);
    OppositeRoot(c.base.m, c.y(n), c.y(a));
    if c.y(b) % 2 == c.y(a) % 2 {
      RootUnique(c, c.x(a), c.y(a), c.y(b));
    } else {
      RootUnique(c, c.x(a), c.y(n), c.y(b));
    }
    assert c.AffineAt(n);
    Negates(c.group, a);
  }

  lemma OppositeRoot(m: int, u: int, v: int)
    requires m > 1 && m % 2 == 1 && 0 < u < m && 0 < v < m && (u + v) % m == 0
    ensures u % 2 != v % 2
  {
    DivMod(u + v, m);
    if (u + v) / m >= 2 { MulLe(m, 2, (u + v) / m); }
    if (u + v) / m <= 0 { MulLe(m, (u + v) / m, 0); }
    assert u + v == m;
  }

  // ---------- The operations ----------

  method HalfOf(m: int, v: int) returns (r: int)
    requires m > 1 && m % 2 == 1
    ensures Cong(m, 2 * r, v)
  {
    r := if v % 2 == 0 then v / 2 else (v + m) / 2;
    ModShift(v, 1, m);
  }

  /** Doubling; infinity is left alone. */
  method Dbl<P(!new)>(c: Curve<P>, q: Coords, ghost gz: int, ghost a: P) returns (r: Coords)
    requires CurveLawful(c) && Rep(c, gz, q, a)
    ensures Rep(c, gz, r, c.group.add(a, a))
  {
    if q.inf {
      Zero(c.group, a);
      return q;
    }
    var z := q.z * q.y;
    var s, l := q.y * q.y, q.x * q.x;
    l := 3 * l;
    l := HalfOf(c.base.m, l);
    var t := -s;
    t := t * q.x;
    var x := l * l;
    x := x + t;
    x := x + t;
    s := s * s;
    t := t + x;
    var y := t * l;
    y := y + s;
    y := -y;
    r := Coords(x, y, z, false);
    DoubleTerms(q.x, q.y, q.z, gz, l, x, y, z);
    DoubledIsSum(c, q.x, q.y, q.z * gz, l, x, y, z * gz, a);
  }

  // The values the doubling computes are those of the formula, at the full scale.
  lemma DoubleTerms(x: int, y: int, z: int, gz: int, l: int, x3: int, y3: int, z3: int)
    requires z3 == z * y && x3 == l * l + -(y * y) * x + -(y * y) * x
    requires y3 == -((-(y * y) * x + x3) * l + y * y * (y * y))
    ensures x3 == Sq(l) - 2 * (x * Sq(y)) && y3 == -(l * (x3 - x * Sq(y)) + Sq(Sq(y))) && z3 * gz == y * (z * gz)
  {
    assert -(y * y) * x == -(x * Sq(y));
    assert (x3 - x * Sq(y)) * l == l * (x3 - x * Sq(y));
  }

  lemma AddTerms(x: int, y: int, h: int, i: int, x3: int, y3: int)
    requires x3 == i * i + -(h * h) * h + x * -(h * h) + x * -(h * h)
    requires y3 == (x * -(h * h) + x3) * i + -(h * h) * h * y
    ensures x3 == Sq(i) - Cube(h) - 2 * (x * Sq(h)) && y3 == i * (x3 - x * Sq(h)) - y * Cube(h)
  {
    assert -(h * h) * h == -Cube(h) && x * -(h * h) == -(x * Sq(h));
    assert (x3 - x * Sq(h)) * i == i * (x3 - x * Sq(h)) && -Cube(h) * y == -(y * Cube(h));
  }

  /** The common end of both additions, from u2 = bx z^2 and s2 = by z^3 at the full scale. */
  method AddTo<P(!new)>(c: Curve<P>, q: Coords, u2: int, s2: int, ghost gz: int, ghost a: P, ghost b: P) returns (r: Coords)
    requires CurveLawful(c) && Rep(c, gz, q, a) && !q.inf && b != c.group.zero
    requires Cong(c.base.m, u2, c.x(b) * Sq(q.z * gz)) && Cong(c.base.m, s2, c.y(b) * Cube(q.z * gz))
    ensures Rep(c, gz, r, c.group.add(a, b))
  {
    var m := c.base.m;
    ghost var z := q.z * gz;
    var h, i := -q.x + u2, -s2 + q.y;
    CongSub(m, u2, c.x(b) * Sq(z), q.x, q.x);
    CongSub(m, q.y, q.y, s2, c.y(b) * Cube(z));
    Degenerate(c, q.x, q.y, z, h, i, a, b);
    if h % m == 0 {
      if i % m == 0 {
        r := Dbl(c, q, gz, a);
      } else {
        r := Coords(q.x, q.y, q.z, true);
      }
      return;
    }
    var z3 := q.z * h;
    var h2 := h * h;
    h2 := -h2;
    var h3 := h2 * h;
    var t := q.x * h2;
    var x := i * i;
    x := x + h3;
    x := x + t;
    x := x + t;
    t := t + x;
    h3 := h3 * q.y;
    var y := t * i;
    y := y + h3;
    r := Coords(x, y, z3, false);
    AddTerms(q.x, q.y, h, i, x, y);
    assert z3 * gz == z * h;
    AddedIsSum(c, q.x, q.y, z, h, i, x, y, z3 * gz, a, b);
  }

  // An affine point at the scale gz, or infinity.
  ghost predicate AtScale<P(!new)>(c: Curve<P>, gz: int, b: Affine, pt: P)
    requires c.base.m > 1
  {
    (b.inf <==> pt == c.group.zero) && (!b.inf ==> StandsFor(c.base.m, b.x, b.y, gz, c.x(pt), c.y(pt)))
  }

  /** Adding a point kept at the ladder's own scale. */
  method AddGe<P(!new)>(c: Curve<P>, q: Coords, b: Affine, ghost gz: int, ghost a: P, ghost pt: P) returns (r: Coords)
    requires CurveLawful(c) && Unit(c.base.m, gz) && Rep(c, gz, q, a) && AtScale(c, gz, b, pt)
    ensures Rep(c, gz, r, c.group.add(a, pt))
  {
    Zero(c.group, a);
    Zero(c.group, pt);
    if q.inf {
      if b.inf {
        return q;
      }
      return Coords(b.x, b.y, 1, false);
    }
    if b.inf {
      return q;
    }
    var z12 := q.z * q.z;
    var u2, s2 := b.x * z12, b.y * z12;
    s2 := s2 * q.z;
    Rescaled(c.base.m, b.x, b.y, gz, c.x(pt), c.y(pt), q.z, q.z * gz);
    assert u2 == b.x * Sq(q.z);
    assert s2 == b.y * Cube(q.z) by { assert b.y * z12 * q.z == b.y * (z12 * q.z); }
    r := AddTo(c, q, u2, s2, gz, a, pt);
  }

  /** Adding an affine point of the curve itself, bz being the ladder's scale. */
  method AddZinv<P(!new)>(c: Curve<P>, q: Coords, b: Affine, bz: int, ghost a: P, ghost pt: P) returns (r: Coords)
    requires CurveLawful(c) && Unit(c.base.m, bz) && Rep(c, bz, q, a) && AtScale(c, 1, b, pt)
    ensures Rep(c, bz, r, c.group.add(a, pt))
  {
    Zero(c.group, a);
    Zero(c.group, pt);
    var m := c.base.m;
    ghost var ax, ay := c.x(pt), c.y(pt);
    if q.inf {
      var bz2 := bz * bz;
      var bz3 := bz2 * bz;
      if !b.inf {
        Rescaled(m, b.x, b.y, 1, ax, ay, bz, bz);
      }
      return Coords(b.x * bz2, b.y * bz3, 1, b.inf);
    }
    if b.inf {
      return q;
    }
    var az := q.z * bz;
    var z12 := az * az;
    var u2, s2 := b.x * z12, b.y * z12;
    s2 := s2 * az;
    Rescaled(m, b.x, b.y, 1, ax, ay, az, az);
    assert u2 == b.x * Sq(az);
    assert s2 == b.y * Cube(az) by { assert b.y * z12 * az == b.y * (z12 * az); }
    r := AddTo(c, q, u2, s2, bz, a, pt);
  }
}
