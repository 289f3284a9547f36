/**
 Multiplication modulo the field prime on five 52-bit limbs: one carry
 resolution of the column sums, the folds by 16C and C, and two fixed residual
 passes.
 */
module FieldMul {
  import opened Arith
  import opened Limbs

  function TimesP(x: int): int { AtTwo256(x) - TimesC(x) }

  function MulCSmall(x: int): int {
    Add64(x % 0x1_0000_0000 * 977, x * 0x1_0000_0000 % 0x1_0000_0000_0000_0000)
  }

  lemma MulCSmallExact(x: int)
    requires 0 <= x < 0x1000_0000
    ensures MulCSmall(x) == TimesC(x)
  {}

  // The two halves of x * 16C, biases removed.
  function FoldLow(x: int): int { LowBits(x, 0x10_0000_3D10) - B_LO }
  function FoldHigh(x: int): int { HighBits(x, 0x10_0000_3D10) - B_HI }

  lemma FoldHalves(x: int)
    requires 0 <= x < W
    ensures 0 <= FoldLow(x) < W && 0 <= FoldHigh(x) < 0x10_0000_3D10
    ensures Times16C(x) == Limb(FoldHigh(x)) + FoldLow(x)
    ensures x < 0x1000_0000_0000 ==> FoldHigh(x) < 0x2000_0000
  {}

  // ---------- Weights of particular limbs ----------

  lemma {:induction false} WeightOfTop(x: int, k: nat)
    requires k == 4
    ensures Shift(0x1_0000_0000_0000 * x, k) == AtTwo256(x)
    ensures Shift(x, k + 1) == AtTwo256(16 * x)
  {
    var y := 0x1_0000_0000_0000 * x;
    assert Shift(y, 1) == Limb(Shift(y, 0)) && Shift(y, 2) == Limb(Shift(y, 1)) && Shift(y, 3) == Limb(Shift(y, 2));
    assert Shift(x, 1) == Limb(Shift(x, 0)) && Shift(x, 2) == Limb(Shift(x, 1)) && Shift(x, 3) == Limb(Shift(x, 2));
    assert Shift(x, 4) == Limb(Shift(x, 3));
  }

  lemma {:induction false} WeightOfNine(x: int, k: nat)
    requires k == 9
    ensures Shift(0x1000_0000_0000 * x, k) == AtTwo256(AtTwo256(x))
    ensures Shift(x, k + 1) == AtTwo256(AtTwo256(256 * x))
  {
    WeightOfTop(x, 4);
    ShiftTwice(x, 5, 5);
    WeightOfTop(AtTwo256(16 * x), 4);
    var y := 0x1000_0000_0000 * x;
    ShiftTwice(y, 5, 4);
    WeightOfTop(y, 4);
    assert AtTwo256(16 * y) == 0x1_0000_0000_0000 * AtTwo256(x);
    WeightOfTop(AtTwo256(x), 4);
  }

  lemma {:induction false} ShiftMonotone(x: int, y: int, k: nat)
    requires x <= y
    ensures Shift(x, k) <= Shift(y, k)
  {
    if k > 0 { ShiftMonotone(x, y, k - 1); }
  }

  ghost predicate Words(s: seq<int>, bound: int) {
    forall k :: 0 <= k < |s| ==> 0 <= s[k] < bound
  }

  lemma {:induction false} ValNonNegative(s: seq<int>, bound: int)
    requires Words(s, bound)
    ensures 0 <= Val(s)
  {
    if s != [] { ValNonNegative(s[1..], bound); }
  }

  // ---------- Carry chains ----------

  // A chain of limbs with its outgoing carry stands for v.
  ghost predicate Chain(r: seq<int>, car: int, v: int) {
    Val(r) + Shift(car, |r|) == v
  }

  lemma ChainStart(v: int)
    ensures Chain([], v, v)
  {}

  // One limb of a carry chain: `low` is kept and `high` moves on.
  lemma {:induction false} CarryStep(r: seq<int>, carIn: int, x: int, v: int, low: int, high: int)
    requires Chain(r, carIn, v) && x + carIn == Limb(high) + low
    ensures Chain(r + [low], high, v + Shift(x, |r|))
  {
    ValAppend(r, low);
    ShiftHalves(low, high, x + carIn, |r|);
    ShiftAdd(x, carIn, |r|);
  }

  // The last limb of a carry chain, cut at 2^256.
  lemma {:induction false} TopStep(r: seq<int>, carIn: int, x: int, v: int, low: int, high: int)
    requires |r| == 4 && Chain(r, carIn, v) && x + carIn == 0x1_0000_0000_0000 * high + low
    ensures Val(r + [low]) + AtTwo256(high) == v + Shift(x, |r|)
  {
    ValAppend(r, low);
    WeightOfTop(high, |r|);
    ShiftAdd(0x1_0000_0000_0000 * high, low, |r|);
    ShiftAdd(x, carIn, |r|);
  }

  // A product below 2^512 leaves no carry after ten limbs.
  lemma {:induction false} TopLimb(o: seq<int>, car: int, v: int)
    requires |o| == 10 && Words(o, W) && 0 <= car && Chain(o, car, v)
    requires v < AtTwo256(AtTwo256(1))
    ensures car == 0 && o[9] < 0x1000_0000_0000 && Val(o) == v
  {
    ValNonNegative(o, W);
    WeightOfNine(car, 9);
    assert car == 0;
    ShiftZero(10);
    assert o == o[..9] + [o[9]];
    ValAppend(o[..9], o[9]);
    ValNonNegative(o[..9], W);
    WeightOfNine(1, 9);
    if o[9] >= 0x1000_0000_0000 { ShiftMonotone(0x1000_0000_0000, o[9], 9); }
  }

  /** Turns column sums into limbs; the product is too small to leave a carry. */
  method Resolve(acc: array<int>) returns (o: array<int>)
    requires acc.Length == 10 && Words(acc[..], 9 * W)
    requires 0 <= Val(acc[..]) < AtTwo256(AtTwo256(1))
    ensures fresh(o) && o.Length == 10 && Words(o[..], W) && o[9] < 0x1000_0000_0000
    ensures Val(o[..]) == Val(acc[..])
  {
    o := new int[10];
    var car := 0;
    ChainStart(0);
    assert o[..0] == [];
    for c := 0 to 10
      invariant 0 <= car <= 9 && Words(o[..c], W)
      invariant Chain(o[..c], car, Val(acc[..c]))
    {
      assert acc[..c + 1] == acc[..c] + [acc[c]];
      ValAppend(acc[..c], acc[c]);
      var t := Add64(acc[c], car);
      CarryStep(o[..c], car, acc[c], Val(acc[..c]), And52(t), Shr52(t));
      o[c] := And52(t);
      car := Shr52(t);
      assert o[..c + 1] == o[..c] + [o[c]];
    }
    assert acc[..10] == acc[..] && o[..10] == o[..];
    TopLimb(o[..], car, Val(acc[..]));
  }

  // ---------- Folding ----------

  /** Folds limbs 5 to 9 down by 16C, as 2^260 is 16C modulo P. */
  method FoldColumns(o: array<int>) returns (f: array<int>)
    requires o.Length == 10 && Words(o[..], W) && o[9] < 0x1000_0000_0000
    ensures fresh(f) && f.Length == 6 && Words(f[..], 2 * W) && f[5] < 0x2000_0000
    ensures Val(f[..]) == Times16C(Val(o[5..]))
  {
    f := new int[6](_ => 0);
    ValZero(f[..]);
    for c := 5 to 10
      invariant forall k :: 0 <= k < c - 5 ==> 0 <= f[k] < 2 * W
      invariant 0 <= f[c - 5] < 0x10_0000_3D10 && (c == 10 ==> f[5] < 0x2000_0000)
      invariant forall k :: c - 5 < k < 6 ==> f[k] == 0
      invariant Val(f[..]) == Times16C(Val(o[5..c]))
    {
      FoldHalves(o[c]);
      FoldStep(f[..], o[..], c);
      AddPair(f, c - 5, FoldLow(o[c]), FoldHigh(o[c]));
    }
    assert o[5..10] == o[5..];
  }

  lemma FoldStep(f: seq<int>, o: seq<int>, c: nat)
    requires |f| == 6 && |o| == 10 && 5 <= c < 10 && 0 <= o[c] < W
    requires Val(f) == Times16C(Val(o[5..c]))
    ensures Val(Bump(Bump(f, c - 5, FoldLow(o[c])), c - 4, FoldHigh(o[c]))) == Times16C(Val(o[5..c + 1]))
  {
    FoldHalves(o[c]);
    assert o[5..c + 1] == o[5..c] + [o[c]];
    ValAppend(o[5..c], o[c]);
    ValBumpPair(f, c - 5, FoldLow(o[c]), FoldHigh(o[c]), Times16C(o[c]));
    ShiftMul(0x10_0000_3D10, o[c], c - 5);
  }

  method AddPair(f: array<int>, k: nat, lo: int, hi: int)
    requires k + 1 < f.Length
    requires 0 <= f[k] + lo < W64 && 0 <= f[k + 1] + hi < W64
    modifies f
    ensures f[..] == Bump(Bump(old(f[..]), k, lo), k + 1, hi)
  {
    f[k] := Add64(f[k], lo);
    f[k + 1] := Add64(f[k + 1], hi);
  }

  // Moving limb 5 down by 16C takes sixteen times it, times P, off the value.
  lemma FoldTopStep(f: seq<int>, x: int, v: int)
    requires |f| == 6 && f[5] == x && Val(f) == v && 0 <= x < W
    ensures Val(Bump(Bump(f, 0, FoldLow(x)), 1, FoldHigh(x))[5 := 0]) == v - TimesP(16 * x)
  {
    FoldHalves(x);
    ValBumpPair(f, 0, FoldLow(x), FoldHigh(x), Times16C(x));
    var g := Bump(Bump(f, 0, FoldLow(x)), 1, FoldHigh(x));
    ValBump(g, 5, -x);
    assert Bump(g, 5, -x) == g[5 := 0];
    WeightOfTop(-x, 4);
  }

  // Folds what reached limb 5 by 16C.
  method FoldFive(f: array<int>, ghost bound: nat)
    requires f.Length == 6 && Words(f[..], bound) && f[5] < 0x2000_0000 && 3 * W <= bound <= 9 * W
    modifies f
    ensures f[5] == 0 && Words(f[..], bound + W)
    ensures Val(f[..]) == old(Val(f[..])) - TimesP(16 * old(f[5]))
    ensures old(f[5]) == 0 ==> f[..] == old(f[..])
  {
    ghost var before := f[..];
    var x := f[5];
    FoldHalves(x);
    FoldTopStep(before, x, Val(before));
    var lo, hi := FoldLow(x), FoldHigh(x);
    FoldedWords(before, lo, hi, bound);
    AddPair(f, 0, lo, hi);
    f[5] := 0;
    assert f[..] == Bump(Bump(before, 0, lo), 1, hi)[5 := 0];
    if x == 0 { FoldNothing(before); }
  }

  lemma FoldedWords(f: seq<int>, lo: int, hi: int, bound: nat)
    requires |f| == 6 && Words(f, bound) && 0 <= lo < W && 0 <= hi < W && bound <= 9 * W
    ensures f[0] + lo < W64 && f[1] + hi < W64
    ensures Words(Bump(Bump(f, 0, lo), 1, hi)[5 := 0], bound + W)
  {}

  lemma FoldNothing(f: seq<int>)
    requires |f| == 6 && f[5] == 0
    ensures Bump(Bump(f, 0, FoldLow(0)), 1, FoldHigh(0))[5 := 0] == f
  {
    assert FoldLow(0) == 0 && FoldHigh(0) == 0;
  }

  // Folds the top four bits of limb 4 by C.
  method FoldFour(f: array<int>, top: int)
    requires f.Length == 6 && Words(f[..], 2 * W)
    requires 0 <= top < 16
    modifies f
    ensures Words(f[..], 3 * W) && f[5] == old(f[5])
    ensures Val(f[..]) == old(Val(f[..])) + TimesC(top)
  {
    var g := MulCSmall(top);
    MulCSmallExact(top);
    ValBumpPair(f[..], 0, And52(g), Shr52(g), g);
    AddPair(f, 0, And52(g), Shr52(g));
  }

  /** The folds of the top bits; only the first of the three passes finds anything in limb 5. */
  method FoldTops(f: array<int>, top: int) returns (ghost k: int)
    requires f.Length == 6 && Words(f[..], 2 * W) && f[5] < 0x2000_0000
    requires 0 <= top < 16
    modifies f
    ensures Words(f[..], 4 * W) && f[5] == 0
    ensures Val(f[..]) == old(Val(f[..])) + TimesC(top) - TimesP(16 * k)
  {
    FoldFour(f, top);
    k := f[5];
    FoldFive(f, 3 * W);
    for it := 1 to 3
      invariant Words(f[..], 4 * W) && f[5] == 0
      invariant Val(f[..]) == old(Val(f[..])) + TimesC(top) - TimesP(16 * k)
    {
      FoldFive(f, 4 * W);
    }
  }

  lemma SumAppend(s: seq<int>, t: seq<int>, i: nat)
    requires i < |s| && i < |t|
    ensures Val(s[..i + 1]) + Val(t[..i + 1]) == Val(s[..i]) + Val(t[..i]) + Shift(s[i] + t[i], i)
  {
    assert s[..i + 1] == s[..i] + [s[i]] && t[..i + 1] == t[..i] + [t[i]];
    ValAppend(s[..i], s[i]);
    ValAppend(t[..i], t[i]);
    ShiftAdd(s[i], t[i], i);
  }

  // The low limbs of a resolved product, the top one cut at 2^256.
  function LowPart(o: seq<int>): seq<int>
    requires |o| == 10
  {
    o[..4] + [And48(o[4])]
  }

  function SumVal(s: seq<int>, t: seq<int>, i: nat): int
    requires i <= |s| && i <= |t|
  {
    Val(s[..i]) + Val(t[..i])
  }

  // Two limbs and a carry, cut at 2^52.
  method AddLimb(x: int, y: int, c: int) returns (low: int, high: int)
    requires 0 <= x < W && 0 <= y < 9 * W && 0 <= c <= 10
    ensures x + y + c == Limb(high) + low && 0 <= low < W && 0 <= high <= 10
  {
    var t := Add64(Add64(x, y), c);
    low, high := And52(t), Shr52(t);
  }

  // The top limbs and a carry, cut at 2^48.
  method AddTop(x: int, y: int, c: int) returns (low: int, high: int)
    requires 0 <= x < W48 && 0 <= y < 9 * W && 0 <= c <= 10
    ensures x + y + c == 0x1_0000_0000_0000 * high + low && 0 <= low < W48 && 0 <= high < 0x1_0000
    ensures y == 0 ==> high <= 1
  {
    var t := Add64(Add64(x, y), c);
    low, high := And48(t), Shr48(t);
  }

  lemma CombineStart(s: seq<int>, t: seq<int>)
    ensures Chain([], 0, SumVal(s, t, 0))
  {
    assert s[..0] == [] && t[..0] == [];
  }

  /** Adds the folded limbs to the low ones and carries, leaving what passes 2^256. */
  method Combine(o: array<int>, f: array<int>, r: array<int>) returns (car: int)
    requires o.Length == 10 && Words(o[..], W) && f.Length == 6 && Words(f[..], 9 * W) && r.Length == 5
    requires r != o && r != f
    modifies r
    ensures Reduced(r[..]) && 0 <= car < 0x1_0000
    ensures Val(r[..]) + AtTwo256(car) == SumVal(LowPart(o[..]), f[..], 5)
  {
    hide Val, Chain, Shift;
    car := 0;
    ghost var low, fv := LowPart(o[..]), f[..];
    CombineStart(low, fv);
    assert r[..0] == [];
    for i := 0 to 4
      invariant 0 <= car <= 10 && Words(r[..i], W)
      invariant Chain(r[..i], car, SumVal(low, fv, i))
    {
      SumAppend(low, fv, i);
      var limb, next := AddLimb(o[i], f[i], car);
      CarryStep(r[..i], car, low[i] + fv[i], SumVal(low, fv, i), limb, next);
      r[i] := limb;
      car := next;
      assert r[..i + 1] == r[..i] + [r[i]];
    }
    SumAppend(low, fv, 4);
    var limb, next := AddTop(And48(o[4]), f[4], car);
    TopStep(r[..4], car, low[4] + fv[4], SumVal(low, fv, 4), limb, next);
    r[4] := limb;
    car := next;
    assert r[..] == r[..4] + [r[4]];
  }

  // ---------- Residual passes ----------

  lemma FirstLimb(x: int, g: int, t: int)
    requires 0 <= x < W && 0 <= g < W64 && t == x + And52(g)
    ensures Chain([And52(t)], Shr52(t) + Shr52(g), x + g)
  {
    var car := Shr52(t) + Shr52(g);
    assert [And52(t)][1..] == [];
    assert Val([And52(t)]) == And52(t);
    assert Shift(car, 1) == Limb(Shift(car, 0));
  }

  // Limbs 1 to 3 of a carry chain in place.
  method MiddleLimbs(r: array<int>, car: int, ghost v: int) returns (cc: int)
    requires r.Length == 5 && Words(r[..], W) && 0 <= car <= 2
    requires Chain(r[..1], car, v)
    modifies r
    ensures 0 <= cc <= 2 && Words(r[..], W) && r[4] == old(r[4])
    ensures Chain(r[..4], cc, v + old(Val(r[..4]) - Val(r[..1])))
  {
    hide Val, Chain;
    ghost var rv := r[..];
    cc := car;
    for i := 1 to 4
      invariant 0 <= cc <= 2 && Words(r[..], W) && forall k :: i <= k < 5 ==> r[k] == rv[k]
      invariant Chain(r[..i], cc, v + Val(rv[..i]) - Val(rv[..1]))
    {
      assert rv[..i + 1] == rv[..i] + [rv[i]];
      ValAppend(rv[..i], rv[i]);
      var t := Add64(r[i], cc);
      CarryStep(r[..i], cc, rv[i], v + Val(rv[..i]) - Val(rv[..1]), And52(t), Shr52(t));
      r[i] := And52(t);
      cc := Shr52(t);
      assert r[..i + 1] == r[..i] + [r[i]];
    }
  }

  // Limb 0 of a residual pass: the low half of C times the carry joins it, the high half moves on.
  method AddFirst(x: int, g: int) returns (low: int, cc: int)
    requires 0 <= x < W && 0 <= g < W64
    requires Shr52(g) <= 1
    ensures 0 <= low < W && 0 <= cc <= 2 && Chain([low], cc, x + g)
  {
    var t := Add64(x, And52(g));
    FirstLimb(x, g, t);
    low, cc := And52(t), Shr52(t) + Shr52(g);
  }

  lemma SameTail(s: seq<int>, t: seq<int>)
    requires |s| == |t| == 5 && s[1..] == t[1..]
    ensures Val(s[..4]) - Val(s[..1]) == Val(t[..4]) - Val(t[..1])
  {
    assert s[..4][1..] == s[1..][..3] && t[..4][1..] == t[1..][..3];
    assert s[..1][1..] == [] && t[..1][1..] == [];
  }

  lemma FirstOf(r: seq<int>, x: int)
    requires |r| == 5 && r[0] == x
    ensures r[..1] == [x] && Val(r[..1]) == x
  {
    assert r[..1] == [x] && [x][1..] == [];
  }

  lemma CarryTimesC(car: int)
    requires 0 <= car < 0x1_0000
    ensures MulCSmall(car) == TimesC(car) && 0 <= TimesC(car) < W64 && Shr52(TimesC(car)) <= 1
  {
    MulCSmallExact(car);
  }

  /** One residual pass: what lies above 2^256 comes back multiplied by C. */
  method CarryPass(r: array<int>, car: int) returns (carOut: int)
    requires Reduced(r[..]) && 0 <= car < 0x1_0000
    modifies r
    ensures Reduced(r[..]) && 0 <= carOut <= 1
    ensures Val(r[..]) + AtTwo256(carOut) == old(Val(r[..])) + TimesC(car)
  {
    hide Val, Chain, Shift, AtTwo256, TimesC, MulCSmall;
    ghost var rv := r[..];
    var g := MulCSmall(car);
    CarryTimesC(car);
    var low, cc := AddFirst(r[0], g);
    r[0] := low;
    FirstOf(r[..], low);
    FirstOf(rv, rv[0]);
    assert rv[0] + g == Val(rv[..1]) + TimesC(car);
    assert r[1..] == rv[1..];
    SameTail(r[..], rv);
    cc := MiddleLimbs(r, cc, Val(rv[..1]) + TimesC(car));
    assert r[4] == rv[4] && rv == rv[..4] + [rv[4]];
    ValAppend(rv[..4], rv[4]);
    var high;
    low, high := AddTop(r[4], 0, cc);
    TopStep(r[..4], cc, rv[4], Val(rv[..4]) + TimesC(car), low, high);
    r[4] := low;
    carOut := high;
    assert r[..] == r[..4] + [r[4]];
  }

  /** Adding a multiple of P changes nothing modulo P. */
  lemma ModP(x: int, k: int)
    ensures (x + TimesP(k)) % P == x % P
  {
    ModShift(x, k, P);
  }

  /** The two fixed passes: the carry left after them is always zero. */
  method Residual(r: array<int>, car: int) returns (ghost left: int)
    requires Reduced(r[..]) && 0 <= car < 0x1_0000
    modifies r
    ensures Reduced(r[..])
    ensures left == 0
    ensures Val(r[..]) % P == (old(Val(r[..])) + AtTwo256(car)) % P
  {
    ghost var before := Val(r[..]);
    ReducedRange(r[..]);
    var car1 := CarryPass(r, car);
    ReducedRange(r[..]);
    var car2 := CarryPass(r, car1);
    ReducedRange(r[..]);
    left := car2;
    assert Val(r[..]) + TimesP(car + car1) == before + AtTwo256(car);
    ModP(Val(r[..]), car + car1);
  }

  lemma {:induction false} FoldIdentity(o: seq<int>, top: int, k: int, folded: int)
    requires |o| == 10 && top == Shr48(o[4])
    requires folded == Times16C(Val(o[5..])) + TimesC(top) - TimesP(16 * k)
    ensures Val(o) == Val(LowPart(o)) + folded + TimesP(16 * Val(o[5..]) + top + 16 * k)
  {
    assert o == o[..4] + [o[4]] + o[5..];
    ValSplit(o[..4] + [o[4]], o[5..]);
    ValAppend(o[..4], o[4]);
    ValAppend(o[..4], And48(o[4]));
    WeightOfTop(Val(o[5..]), |o[..4]|);
    WeightOfTop(top, |o[..4]|);
    ShiftAdd(0x1_0000_0000_0000 * top, And48(o[4]), |o[..4]|);
  }

  /** The common tail of multiplication and squaring: reduces a resolved product into `r`. */
  method ReduceColumns(o: array<int>, r: array<int>)
    requires o.Length == 10 && Words(o[..], W) && o[9] < 0x1000_0000_0000 && r.Length == 5 && r != o
    modifies r
    ensures Reduced(r[..]) && Val(r[..]) % P == old(Val(o[..])) % P
  {
    hide Val, TimesC, TimesP, AtTwo256;
    ghost var ov := o[..];
    var f := FoldColumns(o);
    var top := Shr48(o[4]);
    var k := FoldTops(f, top);
    assert f[..] == f[..5] + [0];
    ValAppend(f[..5], 0);
    ShiftZero(5);
    assert LowPart(ov)[..5] == LowPart(ov);
    FoldIdentity(ov, top, k, Val(f[..]));
    var car := Combine(o, f, r);
    ghost var left := Residual(r, car);
    ModP(SumVal(LowPart(ov), f[..], 5), 16 * Val(ov[5..]) + top + 16 * k);
  }

  lemma {:induction false} ProductRange(a: seq<int>, b: seq<int>)
    requires Reduced(a) && Reduced(b)
    ensures 0 <= Val(a) * Val(b) < AtTwo256(AtTwo256(1))
  {
    ReducedRange(a);
    ReducedRange(b);
    MulLess(Val(a), Val(b), TWO256, TWO256);
  }

  /** r = a * b modulo P. The output may be either input. */
  method Mul(r: array<int>, a: array<int>, b: array<int>)
    requires r.Length == 5 && Reduced(a[..]) && Reduced(b[..])
    modifies r
    ensures Reduced(r[..])
    ensures Val(r[..]) % P == old(Val(a[..]) * Val(b[..])) % P
  {
    ProductRange(a[..], b[..]);
    var acc := Columns(a, b);
    var o := Resolve(acc);
    ReduceColumns(o, r);
  }
}
