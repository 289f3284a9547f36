/** The limb operations on points seen from the group: they compute the sums of the points their limbs stand for. */
module PointSums {
  import opened Arith
  import opened Ecdsa
  import opened CurveFormulas
  import opened LadderOps
  import opened Jacobian
  import Limbs

  // The group order of section 2.4.1 of SEC 2 v2.0.
  const ORDER := 0xFFFF_FFFF_FFFF_FFFF_FFFF_FFFF_FFFF_FFFE_BAAE_DCE6_AF48_A03B_BFD2_5E8C_D036_4141

  /** The limbs count by the standard's prime; it and the order of the curve lie as a lawful curve asks. */
  lemma StandardModuli()
    ensures Limbs.P == 0xFFFF_FFFF_FFFF_FFFF_FFFF_FFFF_FFFF_FFFF_FFFF_FFFF_FFFF_FFFF_FFFF_FFFE_FFFF_FC2F
    ensures ModuliFit(Limbs.P, ORDER)
  {}

  // The limbs stand for a point other than zero of a curve over the field prime.
  ghost predicate StandFor<T(!new)>(c: Curve<T>, a: Gej4, pt: T)
    reads a.x, a.y, a.z
  {
    && c.base.m == Limbs.P && a.Valid() && pt != c.group.zero
    && Unit(Limbs.P, a.Z()) && StandsFor(Limbs.P, a.X(), a.Y(), a.Z(), c.x(pt), c.y(pt))
  }

  // Two arrays hold the affine coordinates of a point other than zero.
  ghost predicate AffineFor<T(!new)>(c: Curve<T>, affineX: array<int>, affineY: array<int>, pt: T)
    reads affineX, affineY
  {
    pt != c.group.zero && Holds(affineX, c.x(pt)) && Holds(affineY, c.y(pt))
  }

  /** Limbs that stand for a point are doubled to limbs that stand for its double, in place or not. */
  method DoublePoint<T(!new)>(ghost c: Curve<T>, r: Gej4, a: Gej4, ghost pt: T)
    requires r.Shaped() && a.Valid() && (r == a || r.Apart(a))
    modifies r.x, r.y, r.z
    ensures CurveLawful(c) && old(StandFor(c, a, pt)) ==> StandFor(c, r, c.group.add(pt, pt))
  {
    ghost var x, y, z := a.X(), a.Y(), a.Z();
    ghost var lv := Double(r, a);
    if CurveLawful(c) && old(StandFor(c, a, pt)) {
      DoubledIsSum(c, x, y, z, lv, r.X(), r.Y(), r.Z(), pt);
    }
  }

  // The addition formula only sees the residues of the affine coordinates.
  lemma AddedFits(m: int, x: int, y: int, z: int, gx: int, gy: int, gx': int, gy': int, h: int, i: int, x3: int, y3: int, z3: int)
    requires m > 0 && Added(m, x, y, z, gx, gy, h, i, x3, y3, z3) && Cong(m, gx, gx') && Cong(m, gy, gy')
    ensures Added(m, x, y, z, gx', gy', h, i, x3, y3, z3)
  {
    CongMul(m, gx, gx', Sq(z), Sq(z));
    CongSub(m, gx * Sq(z), gx' * Sq(z), x, x);
    CongMul(m, gy, gy', Cube(z), Cube(z));
    CongSub(m, y, y, gy * Cube(z), gy' * Cube(z));
  }

  /** Adding the affine limbs of another point gives limbs of the sum, when the x coordinates differ. */
  method AddPoint<T(!new)>(ghost c: Curve<T>, r: Gej4, a: Gej4, affineX: array<int>, affineY: array<int>, ghost pt: T, ghost other: T)
    requires r.Shaped() && a.Valid() && r.Apart(a)
    requires Element(affineX) && Element(affineY) && {affineX, affineY} !! {r.x, r.y, r.z}
    modifies r.x, r.y, r.z
    ensures CurveLawful(c) && old(StandFor(c, a, pt)) && AffineFor(c, affineX, affineY, other) && c.x(pt) != c.x(other) ==>
              StandFor(c, r, c.group.add(pt, other))
  {
    ghost var x, y, z, gx, gy := a.X(), a.Y(), a.Z(), Limbs.Val(affineX[..]), Limbs.Val(affineY[..]);
    ghost var h, i := AddMixed(r, a, affineX, affineY);
    if CurveLawful(c) && old(StandFor(c, a, pt)) && AffineFor(c, affineX, affineY, other) && c.x(pt) != c.x(other) {
      AddedFits(Limbs.P, x, y, z, gx, gy, c.x(other), c.y(other), h, i, r.X(), r.Y(), r.Z());
      Degenerate(c, x, y, z, h, i, pt, other);
      AddedIsSum(c, x, y, z, h, i, r.X(), r.Y(), r.Z(), pt, other);
    }
  }
}
