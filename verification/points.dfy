/**
 The small field operations on five 52-bit limbs: normalisation, sums,
 negation, small multiples and halving. An output may be an input.
 */
module Points {
  import opened Arith
  import opened Limbs
  import opened FieldMul
  import opened FieldSqr

  // 4P in limbs, the top one two bits longer than a reduced limb.
  function P4Limb(i: int): int {
    if i == 0 then 0xF_FFFB_FFFF_F0BC else if i < 4 then 0xF_FFFF_FFFF_FFFF else 0x3_FFFF_FFFF_FFFF
  }

  /** Brings limbs that have grown by a few bits back into range. */
  method Norm(t: array<int>)
    requires t.Length == 5 && Words(t[..], 64 * W)
    modifies t
    ensures Reduced(t[..]) && Cong(P, Val(t[..]), old(Val(t[..])))
  {
    hide Val;
    ghost var tv := t[..];
    ChainStart(0);
    assert t[..0] == [] && tv[..0] == [];
    var c := 0;
    for i := 0 to 4
      invariant 0 <= c <= 64 && Words(t[..i], W) && forall k :: i <= k < 5 ==> t[k] == tv[k]
      invariant Chain(t[..i], c, Val(tv[..i]))
    {
      ghost var done := t[..i];
      assert tv[..i + 1] == tv[..i] + [tv[i]];
      ValAppend(tv[..i], tv[i]);
      var x := Add64(t[i], c);
      CarryStep(t[..i], c, tv[i], Val(tv[..i]), And52(x), Shr52(x));
      t[i] := And52(x);
      c := Shr52(x);
      assert t[..i] == done && t[..i + 1] == done + [t[i]];
    }
    assert t[4] == tv[4] && tv == tv[..4] + [tv[4]];
    ValAppend(tv[..4], tv[4]);
    var x := Add64(t[4], c);
    TopStep(t[..4], c, tv[4], Val(tv[..4]), And48(x), Shr48(x));
    t[4] := And48(x);
    assert t[..] == t[..4] + [t[4]];
    ghost var left := Residual(t, Shr48(x));
  }

  method Add(r: array<int>, a: array<int>, b: array<int>)
    requires r.Length == 5 && Reduced(a[..]) && Reduced(b[..])
    modifies r
    ensures Reduced(r[..]) && Cong(P, Val(r[..]), old(Val(a[..]) + Val(b[..])))
  {
    hide Val;
    ghost var av, bv := a[..], b[..];
    for i := 0 to 5
      invariant forall k :: 0 <= k < i ==> r[k] == av[k] + bv[k]
      invariant forall k :: i <= k < 5 ==> a[k] == av[k] && b[k] == bv[k]
    {
      r[i] := Add64(a[i], b[i]);
    }
    ValLinear(av, bv, 1, r[..]);
    Norm(r);
  }

  // Limb k of 4P - a, given the borrows taken below and above it.
  ghost predicate BorrowedAt(r: seq<int>, a: seq<int>, bors: seq<int>, k: int)
    requires |r| == |a| == 5 && |bors| == 6 && 0 <= k < 5
  {
    0 <= bors[k + 1] <= 1 && 0 <= r[k] < W && r[k] == P4Limb(k) - a[k] - bors[k] + Limb(bors[k + 1])
  }

  lemma {:induction false} NegValue(r: seq<int>, a: seq<int>, bors: seq<int>)
    requires |r| == 5 && |bors| == 6 && Reduced(a) && bors[0] == 0
    requires forall k :: 0 <= k < 5 ==> BorrowedAt(r, a, bors, k)
    ensures Words(r, W) && Val(r) == 4 * P - Val(a)
  {
    assert BorrowedAt(r, a, bors, 0) && BorrowedAt(r, a, bors, 1) && BorrowedAt(r, a, bors, 2);
    assert BorrowedAt(r, a, bors, 3) && BorrowedAt(r, a, bors, 4);
    assert bors[5] == 0;
    Val5(r);
    Val5(a);
  }

  /** One limb of a difference: a limb that would wrap gets 2^52 and borrows from the next. */
  method NegLimb(a: int, p: int, bor: int) returns (limb: int, next: int)
    requires 0 <= a < W && 0 <= p < W && 0 <= bor <= 1
    ensures limb == p - a - bor + Limb(next) && 0 <= limb < W && 0 <= next <= 1
  {
    var word := Add64(a, bor);
    var mask := word > p;
    limb := Add64(p - word, if mask then 0x10_0000_0000_0000 else 0);
    next := if mask then 1 else 0;
  }

  /** r = 4P - a, limb by limb with a borrow of 2^52, then normalised. */
  method Neg(r: array<int>, a: array<int>)
    requires r.Length == 5 && Reduced(a[..])
    modifies r
    ensures Reduced(r[..]) && Cong(P, Val(r[..]), -old(Val(a[..])))
  {
    ghost var av := a[..];
    ghost var bors := seq(6, _ => 0);
    var bor := 0;
    for i := 0 to 5
      invariant |bors| == 6 && bors[0] == 0 && bor == bors[i] && 0 <= bor <= 1
      invariant forall k :: i <= k < 5 ==> a[k] == av[k]
      invariant forall k {:trigger BorrowedAt(r[..], av, bors, k)} :: 0 <= k < i ==> BorrowedAt(r[..], av, bors, k)
    {
      ghost var before, borsBefore := r[..], bors;
      var limb, next := NegLimb(a[i], P4Limb(i), bor);
      r[i] := limb;
      bor := next;
      bors := bors[i + 1 := bor];
      forall k | 0 <= k <= i ensures BorrowedAt(r[..], av, bors, k) {
        if k < i { assert BorrowedAt(before, av, borsBefore, k); }
      }
    }
    NegValue(r[..], av, bors);
    Norm(r);
    ModShift(-Val(av), 4, P);
  }

  method Sub(r: array<int>, a: array<int>, b: array<int>)
    requires r.Length == 5 && Reduced(a[..]) && Reduced(b[..])
    modifies r
    ensures Reduced(r[..]) && Cong(P, Val(r[..]), old(Val(a[..]) - Val(b[..])))
  {
    var nb := new int[5];
    ghost var av, bv := Val(a[..]), Val(b[..]);
    Neg(nb, b);
    CongAdd(P, av, av, Val(nb[..]), -bv);
    Add(r, a, nb);
  }

  lemma HalfWords(x: int, k: int)
    requires 0 <= x < W && 0 <= k <= 64
    ensures Add64(x % 0x1_0000_0000 * k, x / 0x1_0000_0000 * k * 0x1_0000_0000 % 0x1_0000_0000_0000_0000) == k * x
  {
    var low, high := x % 0x1_0000_0000, x / 0x1_0000_0000;
    MulLess(high, k, 0x10_0000, 65);
    MulLess(low, k, 0x1_0000_0000, 65);
    assert k * x == 0x1_0000_0000 * (high * k) + low * k;
  }

  ghost predicate ScaledAt(r: seq<int>, a: seq<int>, k: int, j: int)
    requires |r| == |a| == 5 && 0 <= j < 5
  {
    r[j] == k * a[j] && 0 <= r[j] < 64 * W
  }

  lemma ScaledLimb(x: int, k: int)
    requires 0 <= x < W && 0 <= k <= 64
    ensures 0 <= k * x < 64 * W
  {
    MulLess(k, x, 65, W);
  }

  lemma {:induction false} ScaledValue(r: seq<int>, a: seq<int>, k: int)
    requires |r| == |a| == 5 && forall j :: 0 <= j < 5 ==> ScaledAt(r, a, k, j)
    ensures Words(r, 64 * W) && Val(r) == k * Val(a)
  {
    var zero: seq<int> := seq(5, _ => 0);
    ValZero(zero);
    forall j | 0 <= j < 5 ensures r[j] == zero[j] + k * a[j] && 0 <= r[j] < 64 * W {
      assert ScaledAt(r, a, k, j);
    }
    ValLinear(zero, a, k, r);
  }

  /** r = k * a for a small k, each limb multiplied in two 32-bit halves. */
  method MulInt(r: array<int>, a: array<int>, k: nat)
    requires r.Length == 5 && Reduced(a[..]) && k <= 64
    modifies r
    ensures Reduced(r[..]) && Cong(P, Val(r[..]), k * old(Val(a[..])))
  {
    ghost var av := a[..];
    for i := 0 to 5
      invariant forall j :: i <= j < 5 ==> a[j] == av[j]
      invariant forall j {:trigger ScaledAt(r[..], av, k, j)} :: 0 <= j < i ==> ScaledAt(r[..], av, k, j)
    {
      ghost var before := r[..];
      var low, high := a[i] % 0x1_0000_0000, a[i] / 0x1_0000_0000;
      HalfWords(a[i], k);
      ScaledLimb(a[i], k);
      r[i] := Add64(low * k, high * k * 0x1_0000_0000 % 0x1_0000_0000_0000_0000);
      forall j | 0 <= j <= i ensures ScaledAt(r[..], av, k, j) {
        if j < i { assert ScaledAt(before, av, k, j); }
      }
    }
    ScaledValue(r[..], av, k);
    Norm(r);
  }

  // ---------- Halving ----------

  function HalfLimb(t: int, next: int): int { t / 2 + next % 2 * 0x8_0000_0000_0000 }

  lemma {:induction false} HalfLimbs(t: seq<int>, r: seq<int>)
    requires |t| == |r| == 5 && t[0] % 2 == 0
    requires forall k :: 0 <= k < 4 ==> r[k] == HalfLimb(t[k], t[k + 1])
    requires r[4] == t[4] / 2
    ensures 2 * Val(r) == Val(t)
  {
    Val5(t);
    Val5(r);
    assert 2 * r[0] == t[0] + Limb(t[1] % 2) && 2 * r[1] == t[1] - t[1] % 2 + Limb(t[2] % 2);
    assert 2 * r[2] == t[2] - t[2] % 2 + Limb(t[3] % 2) && 2 * r[3] == t[3] - t[3] % 2 + Limb(t[4] % 2);
  }

  lemma HalfRange(t: seq<int>, r: seq<int>)
    requires |t| == |r| == 5 && Words(t[..4], W) && 0 <= t[4] < 2 * W48
    requires forall k :: 0 <= k < 4 ==> r[k] == HalfLimb(t[k], t[k + 1])
    requires r[4] == t[4] / 2
    ensures Reduced(r)
  {
    assert t[..4][0] == t[0] && t[..4][1] == t[1] && t[..4][2] == t[2] && t[..4][3] == t[3];
  }

  // The limbs of P, masked.
  function OddP(i: int, odd: bool): int {
    if !odd then 0
    else if i == 0 then 0xF_FFFE_FFFF_FC2F else if i < 4 then 0xF_FFFF_FFFF_FFFF else 0xFFFF_FFFF_FFFF
  }

  lemma {:induction false} OddPValue(o: seq<int>, odd: bool)
    requires |o| == 5 && forall k :: 0 <= k < 5 ==> o[k] == OddP(k, odd)
    ensures Val(o) == if odd then P else 0
  {
    Val5(o);
  }

  /** One limb of a + p: the sum of two limbs and a carry, cut at 2^52. */
  method HalfCarry(a: int, p: int, c: int) returns (low: int, high: int)
    requires 0 <= a < W && 0 <= p < W && 0 <= c <= 1
    ensures a + p + c == Limb(high) + low && 0 <= low < W && 0 <= high <= 1
    ensures low % 2 == (a + p + c) % 2
  {
    var t := Add64(Add64(a, p), c);
    low, high := And52(t), Shr52(t);
  }

  lemma {:induction false} EvenSum(a: seq<int>, o: seq<int>, t: seq<int>, c1: int, c2: int, c3: int, c4: int)
    requires |a| == |o| == |t| == 5
    requires t == [a[0] + o[0] - Limb(c1), a[1] + o[1] + c1 - Limb(c2), a[2] + o[2] + c2 - Limb(c3),
                   a[3] + o[3] + c3 - Limb(c4), a[4] + o[4] + c4]
    ensures Val(t) == Val(a) + Val(o)
  {
    Val5(t);
    Val5(a);
    Val5(o);
  }

  /** a + p with its carries resolved, where p is P when a is odd and 0 otherwise. */
  method MakeEven(a: array<int>) returns (t: seq<int>)
    requires Reduced(a[..])
    ensures |t| == 5 && Words(t[..4], W) && 0 <= t[4] < 2 * W48 && t[0] % 2 == 0
    ensures Val(t) == Val(a[..]) + if a[0] % 2 == 1 then P else 0
  {
    hide Limb, Val;
    var odd := a[0] % 2 == 1;
    var t0, c1 := HalfCarry(a[0], OddP(0, odd), 0);
    var t1, c2 := HalfCarry(a[1], OddP(1, odd), c1);
    var t2, c3 := HalfCarry(a[2], OddP(2, odd), c2);
    var t3, c4 := HalfCarry(a[3], OddP(3, odd), c3);
    var t4 := Add64(Add64(a[4], OddP(4, odd)), c4);
    t := [t0, t1, t2, t3, t4];
    MadeEven(a[..], odd, t, c1, c2, c3, c4);
  }

  lemma {:induction false} MadeEven(a: seq<int>, odd: bool, t: seq<int>, c1: int, c2: int, c3: int, c4: int)
    requires |a| == |t| == 5
    requires t == [a[0] + OddP(0, odd) - Limb(c1), a[1] + OddP(1, odd) + c1 - Limb(c2), a[2] + OddP(2, odd) + c2 - Limb(c3),
                   a[3] + OddP(3, odd) + c3 - Limb(c4), a[4] + OddP(4, odd) + c4]
    ensures Val(t) == Val(a) + if odd then P else 0
  {
    var o := seq(5, k => OddP(k, odd));
    OddPValue(o, odd);
    EvenSum(a, o, t, c1, c2, c3, c4);
  }

  method HalveInto(r: array<int>, t: seq<int>)
    requires r.Length == 5 && |t| == 5 && Words(t[..4], W) && 0 <= t[4] < 2 * W48 && t[0] % 2 == 0
    modifies r
    ensures Reduced(r[..]) && 2 * Val(r[..]) == Val(t)
  {
    for i := 0 to 4
      invariant forall k :: 0 <= k < i ==> r[k] == HalfLimb(t[k], t[k + 1])
    {
      r[i] := HalfLimb(t[i], t[i + 1]);
    }
    r[4] := t[4] / 2;
    HalfLimbs(t, r[..]);
    HalfRange(t, r[..]);
  }

  /** Halving: r + r = a modulo P. */
  method Half(r: array<int>, a: array<int>)
    requires r.Length == 5 && Reduced(a[..])
    modifies r
    ensures Reduced(r[..]) && Cong(P, 2 * Val(r[..]), old(Val(a[..])))
  {
    ghost var av := Val(a[..]);
    var t := MakeEven(a);
    HalveInto(r, t);
    ModShift(av, 1, P);
  }
}
