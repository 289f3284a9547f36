/** The four-lane ladder: four interleaved double-and-add runs over digit lists of any lengths. */
module Ladder {
  import opened Arith
  import opened Fields
  import opened Groups
  import opened Ecdsa
  import opened BatchEquation
  import opened LadderOps
  import CurveFormulas

  // ---------- Integer multiples ----------

  /** k a for any integer k; the group has order N, so k counts modulo N. */
  function Times<P(!new)>(c: Curve<P>, k: int, a: P): P
    requires c.N() > 1
  {
    c.group.Mul(k % c.N(), a)
  }

  lemma TimesPlus<P(!new)>(c: Curve<P>, j: int, k: int, a: P)
    requires c.Lawful()
    ensures Times(c, j + k, a) == c.group.add(Times(c, j, a), Times(c, k, a))
  {
    var n := c.N();
    DivMod(j, n);
    DivMod(k, n);
    MulAddition(c.group, j % n, k % n, a);
    ModAdd(j, k % n, n);
    ModAdd(k, j, n);
  }

  /** A negative digit adds the negated point. */
  lemma TimesNegative<P(!new)>(c: Curve<P>, k: int, a: P)
    requires c.Lawful()
    ensures Times(c, -k, a) == c.group.neg(Times(c, k, a))
  {
    TimesPlus(c, k, -k, a);
    ModSmall(0, c.N());
    NegUnique(c.group, Times(c, k, a), Times(c, -k, a));
  }

  lemma {:induction false} TimesPositive<P(!new)>(c: Curve<P>, k: nat, a: P)
    requires c.Lawful()
    ensures Times(c, k, a) == c.group.Mul(k, a)
  {
    MulModulo(c.group, k, a);
  }

  // ---------- The value of a digit list ----------

  // The digits from position i on: the sum of d[j] 2^(j - i).
  function ValueFrom(d: seq<int>, i: nat): int
    decreases |d| - i
  {
    if i >= |d| then 0 else d[i] + 2 * ValueFrom(d, i + 1)
  }

  function PowerSum(d: seq<int>, k: nat): int
    requires k <= |d|
  {
    if k == 0 then 0 else PowerSum(d, k - 1) + Pow2(k - 1) * d[k - 1]
  }

  /** The value of a list is the sum of its digits times the powers of two. */
  lemma {:induction false} ValueIsPowerSum(d: seq<int>, i: nat)
    requires i <= |d|
    ensures ValueFrom(d, 0) == PowerSum(d, i) + Pow2(i) * ValueFrom(d, i)
  {
    if i > 0 {
      ValueIsPowerSum(d, i - 1);
      var p, rest := Pow2(i - 1), ValueFrom(d, i);
      MulAdd(p, d[i - 1], 2 * rest);
      assert p * (2 * rest) == 2 * p * rest;
    }
  }

  function Residues(m: int, vals: seq<int>): (r: seq<int>)
    requires m > 1
    ensures |r| == |vals| && forall k :: 0 <= k < |r| ==> 0 <= r[k] == vals[k] % m
  {
    seq(|vals|, k requires 0 <= k < |vals| => vals[k] % m)
  }

  /** The sum of every base times its value. */
  function Combination<P(!new)>(c: Curve<P>, vals: seq<int>, bases: seq<P>): P
    requires c.N() > 1 && |vals| == |bases|
  {
    MSum(c.group, Residues(c.N(), vals), bases)
  }

  lemma AddDigit<P(!new)>(c: Curve<P>, vals: seq<int>, bases: seq<P>, k: nat, d: int)
    requires c.Lawful() && k < |vals| == |bases|
    ensures Combination(c, vals[k := vals[k] + d], bases) == c.group.add(Combination(c, vals, bases), Times(c, d, bases[k]))
  {
    var n, r := c.N(), Residues(c.N(), vals);
    DivMod(d, n);
    MSumBump(c.group, r, bases, k, d % n);
    ModAdd(vals[k], d % n, n);
    ModAdd(d, vals[k], n);
    assert Residues(n, vals[k := vals[k] + d]) == r[k := (r[k] + d % n) % n];
  }

  function Doubles(vals: seq<int>): (r: seq<int>)
    ensures |r| == |vals| && forall k :: 0 <= k < |r| ==> r[k] == 2 * vals[k]
  {
    seq(|vals|, k requires 0 <= k < |vals| => 2 * vals[k])
  }

  lemma {:induction false} DoubleAll<P(!new)>(c: Curve<P>, vals: seq<int>, bases: seq<P>)
    requires c.Lawful() && |vals| == |bases|
    ensures var s := Combination(c, vals, bases); Combination(c, Doubles(vals), bases) == c.group.add(s, s)
    decreases |vals|
  {
    if vals == [] {
      Zero(c.group, c.group.zero);
    } else {
      var k := |vals| - 1;
      DoubleAll(c, vals[..k], bases[..k]);
      var r, r2 := Residues(c.N(), vals), Residues(c.N(), Doubles(vals));
      assert r[..k] == Residues(c.N(), vals[..k]) && r2[..k] == Residues(c.N(), Doubles(vals[..k]));
      TimesPlus(c, vals[k], vals[k], bases[k]);
      var s, t := Combination(c, vals[..k], bases[..k]), Times(c, vals[k], bases[k]);
      assert Combination(c, vals, bases) == c.group.add(s, t);
      assert Combination(c, Doubles(vals), bases) == c.group.add(c.group.add(s, s), c.group.add(t, t));
      Swap(c.group, s, s, t, t);
    }
  }

  lemma {:induction false} MSumFour<P(!new)>(g: Group<P>, ss: seq<int>, ps: seq<P>)
    requires g.Lawful() && |ss| == |ps| == 4 && forall i :: 0 <= i < 4 ==> 0 <= ss[i]
    ensures MSum(g, ss, ps) == g.add(g.add(g.add(g.Mul(ss[0], ps[0]), g.Mul(ss[1], ps[1])), g.Mul(ss[2], ps[2])), g.Mul(ss[3], ps[3]))
  {
    assert ss[..3][..2] == ss[..2] && ss[..2][..1] == ss[..1] && ss[..1][..0] == [];
    assert ps[..3][..2] == ps[..2] && ps[..2][..1] == ps[..1] && ps[..1][..0] == [];
    assert MSum(g, ss[..1], ps[..1]) == g.add(g.zero, g.Mul(ss[0], ps[0]));
    assert MSum(g, ss[..2], ps[..2]) == g.add(MSum(g, ss[..1], ps[..1]), g.Mul(ss[1], ps[1]));
    assert MSum(g, ss[..3], ps[..3]) == g.add(MSum(g, ss[..2], ps[..2]), g.Mul(ss[2], ps[2]));
    Zero(g, g.Mul(ss[0], ps[0]));
  }

  // ---------- One lane ----------

  // Digits for the point and its endomorphism image (lists 0 and 1), and for
  // the two halves of the generator's scalar (lists 2 and 3).
  class Lane<P(==, !new)> {
    const digits: seq<seq<int>>
    const bases: seq<P>
    const scale: int
    var coords: Coords

    constructor (digits: seq<seq<int>>, bases: seq<P>, scale: int)
      ensures this.digits == digits && this.bases == bases && this.scale == scale
    {
      this.digits, this.bases, this.scale, coords := digits, bases, scale, Coords(0, 0, 1, true);
    }

    ghost predicate Shaped(c: Curve<P>)
      requires c.base.m > 1
    {
      |digits| == 4 && |bases| == 4 && Unit(c.base.m, scale)
    }

    ghost function Values(i: nat): (v: seq<int>)
      requires |digits| == 4
      ensures |v| == 4 && forall k :: 0 <= k < 4 ==> v[k] == ValueFrom(digits[k], i)
    {
      [ValueFrom(digits[0], i), ValueFrom(digits[1], i), ValueFrom(digits[2], i), ValueFrom(digits[3], i)]
    }

    function Bits(): (b: nat)
      requires |digits| == 4
      ensures forall k :: 0 <= k < 4 ==> |digits[k]| <= b
    {
      var b := if |digits[1]| > |digits[0]| then |digits[1]| else |digits[0]|;
      var b' := if |digits[2]| > b then |digits[2]| else b;
      if |digits[3]| > b' then |digits[3]| else b'
    }

    /** The table entry for a digit, kept at the scale gz: a multiple of the base, negated for a negative digit. */
    method Entry(c: Curve<P>, k: nat, digit: int, gz: int) returns (b: Affine)
      requires c.Lawful() && k < |bases|
      ensures AtScale(c, gz, b, Times(c, digit, bases[k]))
    {
      var pt := c.group.Mul(if digit < 0 then -digit else digit, bases[k]);
      TimesPositive(c, if digit < 0 then -digit else digit, bases[k]);
      if digit < 0 {
        TimesNegative(c, -digit, bases[k]);
        pt := c.group.neg(pt);
      }
      if pt == c.group.zero {
        return Affine(0, 0, true);
      }
      return Affine(c.x(pt) * (gz * gz), c.y(pt) * (gz * gz * gz), false);
    }

    /** List k's digit at position i, if there is one and it is not zero. */
    method AddOne(c: Curve<P>, q: Coords, i: nat, k: nat, ghost vals: seq<int>) returns (r: Coords, ghost vals': seq<int>)
      requires CurveLawful(c) && Shaped(c) && k < 4 && |vals| == 4
      requires Rep(c, scale, q, Combination(c, vals, bases)) && vals[k] == 2 * ValueFrom(digits[k], i + 1)
      ensures vals' == vals[k := ValueFrom(digits[k], i)] && Rep(c, scale, r, Combination(c, vals', bases))
    {
      r, vals' := q, vals[k := ValueFrom(digits[k], i)];
      assert vals[k := vals[k]] == vals;
      if i < |digits[k]| && digits[k][i] != 0 {
        var digit := digits[k][i];
        AddDigit(c, vals, bases, k, digit);
        if k < 2 {
          var b := Entry(c, k, digit, scale);
          r := AddGe(c, q, b, scale, Combination(c, vals, bases), Times(c, digit, bases[k]));
        } else {
          var b := Entry(c, k, digit, 1);
          r := AddZinv(c, q, b, scale, Combination(c, vals, bases), Times(c, digit, bases[k]));
        }
      }
    }

    /** All four digits at position i. */
    method AddDigits(c: Curve<P>, q: Coords, i: nat) returns (r: Coords)
      requires CurveLawful(c) && Shaped(c) && Rep(c, scale, q, Combination(c, Doubles(Values(i + 1)), bases))
      ensures Rep(c, scale, r, Combination(c, Values(i), bases))
    {
      ghost var vals := Doubles(Values(i + 1));
      r, vals := AddOne(c, q, i, 0, vals);
      r, vals := AddOne(c, r, i, 1, vals);
      r, vals := AddOne(c, r, i, 2, vals);
      r, vals := AddOne(c, r, i, 3, vals);
      assert vals == Values(i);
    }

    /** Doubling, before the digits of position i. */
    method Double(c: Curve<P>, q: Coords, i: nat) returns (r: Coords)
      requires CurveLawful(c) && Shaped(c) && Rep(c, scale, q, Combination(c, Values(i + 1), bases))
      ensures Rep(c, scale, r, Combination(c, Doubles(Values(i + 1)), bases))
    {
      DoubleAll(c, Values(i + 1), bases);
      r := Dbl(c, q, scale, Combination(c, Values(i + 1), bases));
    }

    // The result the lane is for.
    ghost function Result(c: Curve<P>): P
      requires c.Lawful() && |digits| == 4 && |bases| == 4
    {
      Combination(c, Values(0), bases)
    }

    /** The result is the sum of the four bases, each times the sum of its digits times the powers of two. */
    lemma ResultMeans(c: Curve<P>)
      requires c.Lawful() && |digits| == 4 && |bases| == 4
      ensures var g := c.group;
              Result(c) == g.add(g.add(g.add(Times(c, PowerSum(digits[0], |digits[0]|), bases[0]),
                                             Times(c, PowerSum(digits[1], |digits[1]|), bases[1])),
                                       Times(c, PowerSum(digits[2], |digits[2]|), bases[2])),
                                 Times(c, PowerSum(digits[3], |digits[3]|), bases[3]))
    {
      var r := Residues(c.N(), Values(0));
      forall k | 0 <= k < 4 ensures Values(0)[k] == PowerSum(digits[k], |digits[k]|) { ValueIsPowerSum(digits[k], |digits[k]|); }
      MSumFour(c.group, r, bases);
    }

    /** Past every list the lane is still at infinity. */
    lemma NothingYet(c: Curve<P>, bits: nat)
      requires c.Lawful() && |digits| == 4 && |bases| == 4 && forall k :: 0 <= k < 4 ==> |digits[k]| <= bits
      ensures Combination(c, Values(bits), bases) == c.group.zero
    {
      ModSmall(0, c.N());
      MSumZeros(c.group, Residues(c.N(), Values(bits)), bases);
    }
  }

  function Max(x: nat, y: nat): nat { if y > x then y else x }

  /**
   * Each lane ends with the sum of its digits times powers of two times the
   * matching base, whatever the lengths of the other lanes.
   */
  method Ladder4<P(==, !new)>(c: Curve<P>, l0: Lane<P>, l1: Lane<P>, l2: Lane<P>, l3: Lane<P>)
    requires CurveLawful(c) && l0.Shaped(c) && l1.Shaped(c) && l2.Shaped(c) && l3.Shaped(c)
    requires l0 != l1 && l0 != l2 && l0 != l3 && l1 != l2 && l1 != l3 && l2 != l3
    modifies l0, l1, l2, l3
    ensures Rep(c, 1, l0.coords, l0.Result(c)) && Rep(c, 1, l1.coords, l1.Result(c))
    ensures Rep(c, 1, l2.coords, l2.Result(c)) && Rep(c, 1, l3.coords, l3.Result(c))
  {
    var q0, q1, q2, q3 := Coords(0, 0, 0, true), Coords(0, 0, 0, true), Coords(0, 0, 0, true), Coords(0, 0, 0, true);
    var bits := Max(Max(l0.Bits(), l1.Bits()), Max(l2.Bits(), l3.Bits()));
    l0.NothingYet(c, bits);
    l1.NothingYet(c, bits);
    l2.NothingYet(c, bits);
    l3.NothingYet(c, bits);
    var i := bits;
    while i > 0
      invariant Rep(c, l0.scale, q0, Combination(c, l0.Values(i), l0.bases))
      invariant Rep(c, l1.scale, q1, Combination(c, l1.Values(i), l1.bases))
      invariant Rep(c, l2.scale, q2, Combination(c, l2.Values(i), l2.bases))
      invariant Rep(c, l3.scale, q3, Combination(c, l3.Values(i), l3.bases))
    {
      i := i - 1;
      q0 := l0.Double(c, q0, i);
      q1 := l1.Double(c, q1, i);
      q2 := l2.Double(c, q2, i);
      q3 := l3.Double(c, q3, i);
      q0 := l0.AddDigits(c, q0, i);
      q1 := l1.AddDigits(c, q1, i);
      q2 := l2.AddDigits(c, q2, i);
      q3 := l3.AddDigits(c, q3, i);
    }
    l0.coords, l1.coords, l2.coords, l3.coords := q0, q1, q2, q3;
    if !q0.inf { l0.coords := q0.(z := q0.z * l0.scale); }
    if !q1.inf { l1.coords := q1.(z := q1.z * l1.scale); }
    if !q2.inf { l2.coords := q2.(z := q2.z * l2.scale); }
    if !q3.inf { l3.coords := q3.(z := q3.z * l3.scale); }
  }
}
