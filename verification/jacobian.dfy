/** The fused point doubling and mixed addition on limb arrays. */
module Jacobian {
  import opened Arith
  import opened Limbs
  import opened CurveFormulas
  import Points
  import FieldMul
  import FieldSqr

  ghost predicate Element(a: array<int>)
    reads a
  {
    a.Length == 5 && Reduced(a[..])
  }

  // The array holds the residue of v.
  ghost predicate Holds(a: array<int>, v: int)
    reads a
  {
    Element(a) && Cong(P, Val(a[..]), v)
  }

  class Gej4 {
    const x: array<int>
    const y: array<int>
    const z: array<int>

    constructor ()
      ensures fresh(x) && fresh(y) && fresh(z) && Shaped()
    {
      x, y, z := new int[5], new int[5], new int[5];
    }

    ghost predicate Shaped() {
      x.Length == y.Length == z.Length == 5 && x != y && y != z && x != z
    }

    ghost predicate Valid()
      reads x, y, z
    {
      Shaped() && Element(x) && Element(y) && Element(z)
    }

    ghost predicate Apart(other: Gej4) {
      {x, y, z} !! {other.x, other.y, other.z}
    }

    ghost function X(): int reads x { Val(x[..]) }
    ghost function Y(): int reads y { Val(y[..]) }
    ghost function Z(): int reads z { Val(z[..]) }
  }

  // ---------- The field operations on held values ----------

  method Mul(r: array<int>, a: array<int>, b: array<int>, ghost u: int, ghost v: int)
    requires r.Length == 5 && Holds(a, u) && Holds(b, v)
    modifies r
    ensures Holds(r, u * v)
  {
    CongMul(P, Val(a[..]), u, Val(b[..]), v);
    FieldMul.Mul(r, a, b);
  }

  method Sqr(r: array<int>, a: array<int>, ghost u: int)
    requires r.Length == 5 && Holds(a, u)
    modifies r
    ensures Holds(r, Sq(u))
  {
    CongMul(P, Val(a[..]), u, Val(a[..]), u);
    FieldSqr.Sqr(r, a);
  }

  method Add(r: array<int>, a: array<int>, b: array<int>, ghost u: int, ghost v: int)
    requires r.Length == 5 && Holds(a, u) && Holds(b, v)
    modifies r
    ensures Holds(r, u + v)
  {
    CongAdd(P, Val(a[..]), u, Val(b[..]), v);
    Points.Add(r, a, b);
  }

  method Sub(r: array<int>, a: array<int>, b: array<int>, ghost u: int, ghost v: int)
    requires r.Length == 5 && Holds(a, u) && Holds(b, v)
    modifies r
    ensures Holds(r, u - v)
  {
    CongSub(P, Val(a[..]), u, Val(b[..]), v);
    Points.Sub(r, a, b);
  }

  method Neg(r: array<int>, a: array<int>, ghost u: int)
    requires r.Length == 5 && Holds(a, u)
    modifies r
    ensures Holds(r, -u)
  {
    CongNeg(P, Val(a[..]), u);
    Points.Neg(r, a);
  }

  method MulInt(r: array<int>, a: array<int>, k: nat, ghost u: int)
    requires r.Length == 5 && Holds(a, u) && k <= 64
    modifies r
    ensures Holds(r, k * u)
  {
    CongScale(P, k, Val(a[..]), u);
    Points.MulInt(r, a, k);
  }

  method Half(r: array<int>, a: array<int>, ghost u: int) returns (ghost v: int)
    requires r.Length == 5 && Holds(a, u)
    modifies r
    ensures Holds(r, v) && Cong(P, 2 * v, u)
  {
    Points.Half(r, a);
    v := Val(r[..]);
  }

  // ---------- Doubling ----------

  /** Half of 3x^2. */
  method Slope(l: array<int>, x: array<int>, ghost xv: int) returns (ghost lv: int)
    requires l.Length == 5 && l != x && Holds(x, xv)
    modifies l
    ensures Holds(l, lv) && Cong(P, 2 * lv, 3 * Sq(xv))
  {
    Sqr(l, x, xv);
    MulInt(l, l, 3, Sq(xv));
    lv := Half(l, l, 3 * Sq(xv));
  }

  /** -(x s) for the doubling. */
  method MinusProduct(t: array<int>, s: array<int>, x: array<int>, ghost sv: int, ghost xv: int)
    requires t.Length == 5 && t != s && t != x && Holds(s, sv) && Holds(x, xv)
    modifies t
    ensures Holds(t, -(xv * sv))
  {
    Neg(t, s, sv);
    Mul(t, t, x, -sv, xv);
    assert -sv * xv == -(xv * sv);
  }

  /** l^2 + 2t. */
  method DoubledX(r: array<int>, l: array<int>, t: array<int>, ghost lv: int, ghost u: int)
    requires r.Length == 5 && r != l && r != t && Holds(l, lv) && Holds(t, -u)
    modifies r
    ensures Holds(r, Sq(lv) - 2 * u)
  {
    Sqr(r, l, lv);
    Add(r, r, t, Sq(lv), -u);
    Add(r, r, t, Sq(lv) + -u, -u);
  }

  /** -((t + x3) l + s^2). */
  method DoubledYInto(r: array<int>, x3: array<int>, l: array<int>, s: array<int>, t: array<int>,
                      ghost x3v: int, ghost lv: int, ghost sv: int, ghost u: int)
    requires r.Length == 5 && r != x3 && r != l && r != s && r != t && l != s && l != t && s != t && x3 != s && x3 != t
    requires Holds(x3, x3v) && Holds(l, lv) && Holds(s, sv) && Holds(t, -u)
    modifies r, s, t
    ensures Holds(r, -(lv * (x3v - u) + Sq(sv)))
  {
    Sqr(s, s, sv);
    Add(t, t, x3, -u, x3v);
    Mul(r, t, l, -u + x3v, lv);
    Add(r, r, s, (-u + x3v) * lv, Sq(sv));
    Neg(r, r, (-u + x3v) * lv + Sq(sv));
    assert (-u + x3v) * lv == lv * (x3v - u);
  }

  method DoubledXY(r: Gej4, l: array<int>, s: array<int>, t: array<int>, ghost lv: int, ghost sv: int, ghost u: int)
    requires r.Shaped() && {r.x, r.y, r.z} !! {l, s, t} && l != s && l != t && s != t
    requires Holds(l, lv) && Holds(s, sv) && Holds(t, -u)
    modifies r.x, r.y, s, t
    ensures Holds(r.x, Sq(lv) - 2 * u) && Holds(r.y, -(lv * (r.X() - u) + Sq(sv)))
  {
    DoubledX(r.x, l, t, lv, u);
    ghost var x3 := r.X();
    DoubledYInto(r.y, r.x, l, s, t, x3, lv, sv, u);
  }

  method TangentTerms(l: array<int>, s: array<int>, t: array<int>, a: Gej4, ghost x: int, ghost y: int) returns (ghost lv: int)
    requires l.Length == s.Length == t.Length == 5 && l != s && l != t && s != t && {l, s, t} !! {a.x, a.y, a.z}
    requires Holds(a.x, x) && Holds(a.y, y)
    modifies l, s, t
    ensures Holds(l, lv) && Holds(s, Sq(y)) && Holds(t, -(x * Sq(y))) && Cong(P, 2 * lv, 3 * Sq(x))
  {
    Sqr(s, a.y, y);
    lv := Slope(l, a.x, x);
    MinusProduct(t, s, a.x, Sq(y), x);
  }

  /** r = 2a in Jacobian coordinates. The output may be the input. */
  method Double(r: Gej4, a: Gej4) returns (ghost lv: int)
    requires r.Shaped() && a.Valid() && (r == a || r.Apart(a))
    modifies r.x, r.y, r.z
    ensures r.Valid()
    ensures Doubled(P, old(a.X()), old(a.Y()), old(a.Z()), lv, r.X(), r.Y(), r.Z())
  {
    var l, s, t := new int[5], new int[5], new int[5];
    ghost var x, y, z := a.X(), a.Y(), a.Z();
    ghost var u := x * Sq(y);
    Mul(r.z, a.z, a.y, z, y);
    lv := TangentTerms(l, s, t, a, x, y);
    DoubledXY(r, l, s, t, lv, Sq(y), u);
  }

  lemma CubeSplits(g: int, z: int)
    ensures g * Sq(z) * z == g * Cube(z)
  {}

  /** z^2 gx - x and y - z^3 gy. */
  method Differences(h: array<int>, i: array<int>, a: Gej4, affineX: array<int>, affineY: array<int>,
                     ghost x: int, ghost y: int, ghost z: int, ghost gx: int, ghost gy: int)
    requires h.Length == i.Length == 5 && h != i && {h, i} !! {a.x, a.y, a.z, affineX, affineY}
    requires Holds(a.x, x) && Holds(a.y, y) && Holds(a.z, z) && Holds(affineX, gx) && Holds(affineY, gy)
    modifies h, i
    ensures Holds(h, gx * Sq(z) - x) && Holds(i, y - gy * Cube(z))
  {
    hide Reduced, Cong, Val, Sq, Cube;
    var z12, u2, s2 := new int[5], new int[5], new int[5];
    Sqr(z12, a.z, z);
    Mul(u2, affineX, z12, gx, Sq(z));
    Mul(s2, affineY, z12, gy, Sq(z));
    Mul(s2, s2, a.z, gy * Sq(z), z);
    Sub(h, u2, a.x, gx * Sq(z), x);
    CubeSplits(gy, z);
    Sub(i, a.y, s2, y, gy * Cube(z));
  }

  /** -h^3 and -(x h^2). */
  method MinusCube(h3: array<int>, t: array<int>, h: array<int>, x: array<int>, ghost hv: int, ghost xv: int)
    requires h3.Length == t.Length == 5 && h3 != t && {h3, t} !! {h, x} && Holds(h, hv) && Holds(x, xv)
    modifies h3, t
    ensures Holds(h3, -Cube(hv)) && Holds(t, -(xv * Sq(hv)))
  {
    hide Reduced, Cong, Val;
    var h2 := new int[5];
    Sqr(h2, h, hv);
    Neg(h2, h2, Sq(hv));
    Mul(h3, h2, h, -Sq(hv), hv);
    Mul(t, x, h2, xv, -Sq(hv));
    assert xv * -Sq(hv) == -(xv * Sq(hv)) && -Sq(hv) * hv == -Cube(hv);
  }

  method ChordTerms(h: array<int>, i: array<int>, h3: array<int>, t: array<int>,
                    a: Gej4, affineX: array<int>, affineY: array<int>,
                    ghost x: int, ghost y: int, ghost z: int, ghost gx: int, ghost gy: int)
      returns (ghost hv: int, ghost iv: int)
    requires h.Length == i.Length == h3.Length == t.Length == 5 && h != i && h3 != t && {h, i} !! {h3, t}
    requires {h, i, h3, t} !! {a.x, a.y, a.z, affineX, affineY}
    requires Holds(a.x, x) && Holds(a.y, y) && Holds(a.z, z) && Holds(affineX, gx) && Holds(affineY, gy)
    modifies h, i, h3, t
    ensures hv == gx * Sq(z) - x && iv == y - gy * Cube(z)
    ensures Holds(h, hv) && Holds(i, iv) && Holds(h3, -Cube(hv)) && Holds(t, -(x * Sq(hv)))
  {
    hv, iv := gx * Sq(z) - x, y - gy * Cube(z);
    Differences(h, i, a, affineX, affineY, x, y, z, gx, gy);
    MinusCube(h3, t, h, a.x, hv, x);
  }

  /** i^2 + h3 + 2t. */
  method AddedX(r: array<int>, i: array<int>, h3: array<int>, t: array<int>, ghost iv: int, ghost c: int, ghost u: int)
    requires r.Length == 5 && r !in {i, h3, t} && Holds(i, iv) && Holds(h3, -c) && Holds(t, -u)
    modifies r
    ensures Holds(r, Sq(iv) - c - 2 * u)
  {
    Sqr(r, i, iv);
    Add(r, r, h3, Sq(iv), -c);
    Add(r, r, t, Sq(iv) + -c, -u);
    Add(r, r, t, Sq(iv) + -c + -u, -u);
  }

  /** (t + x3) i + h3 y. */
  method AddedY(r: array<int>, x3: array<int>, i: array<int>, h3: array<int>, t: array<int>, y: array<int>,
                ghost x3v: int, ghost iv: int, ghost c: int, ghost u: int, ghost yv: int)
    requires r.Length == 5 && r !in {x3, i, h3, t, y} && h3 != t && {h3, t} !! {x3, i, y}
    requires Holds(x3, x3v) && Holds(i, iv) && Holds(h3, -c) && Holds(t, -u) && Holds(y, yv)
    modifies r, h3, t
    ensures Holds(r, iv * (x3v - u) - yv * c)
  {
    Add(t, t, x3, -u, x3v);
    Mul(r, t, i, -u + x3v, iv);
    Mul(h3, h3, y, -c, yv);
    Add(r, r, h3, (-u + x3v) * iv, -c * yv);
    assert (-u + x3v) * iv == iv * (x3v - u) && -c * yv == -(yv * c);
  }

  method AddedXY(r: Gej4, i: array<int>, h3: array<int>, t: array<int>, y: array<int>,
                 ghost iv: int, ghost c: int, ghost u: int, ghost yv: int)
    requires r.Shaped() && h3 != t && {h3, t} !! {i, y} && {r.x, r.y, r.z} !! {i, h3, t, y}
    requires Holds(i, iv) && Holds(h3, -c) && Holds(t, -u) && Holds(y, yv)
    modifies r.x, r.y, h3, t
    ensures Holds(r.x, Sq(iv) - c - 2 * u) && Holds(r.y, iv * (r.X() - u) - yv * c)
  {
    AddedX(r.x, i, h3, t, iv, c, u);
    ghost var x3 := r.X();
    AddedY(r.y, r.x, i, h3, t, y, x3, iv, c, u, yv);
  }

  /** r = a + b for an affine b, the degenerate cases aside. The output must not be the input. */
  method AddMixed(r: Gej4, a: Gej4, affineX: array<int>, affineY: array<int>) returns (ghost hv: int, ghost iv: int)
    requires r.Shaped() && a.Valid() && r.Apart(a) && Element(affineX) && Element(affineY)
    requires {affineX, affineY} !! {r.x, r.y, r.z}
    modifies r.x, r.y, r.z
    ensures r.Valid()
    ensures Added(P, old(a.X()), old(a.Y()), old(a.Z()), Val(affineX[..]), Val(affineY[..]), hv, iv, r.X(), r.Y(), r.Z())
  {
    hide Reduced, Val;
    var h, i, h3, t := new int[5], new int[5], new int[5], new int[5];
    ghost var x, y, z, gx, gy := a.X(), a.Y(), a.Z(), Val(affineX[..]), Val(affineY[..]);
    hv, iv := ChordTerms(h, i, h3, t, a, affineX, affineY, x, y, z, gx, gy);
    Mul(r.z, a.z, h, z, hv);
    AddedXY(r, i, h3, t, a.y, iv, Cube(hv), x * Sq(hv), y);
  }
}
