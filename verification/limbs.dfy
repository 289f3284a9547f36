/**
 Five-limb arithmetic modulo the secp256k1 field prime, one lane of the vector code.

 A field element is five 52-bit limbs, the top one 48 bits. Words are 64-bit
 unsigned and every addition wraps. Under round-toward-zero the fused
 multiply-add pair splits a product exactly into its high and low 52 bits, each
 carried in a word with a fixed exponent bias.
 */
module Limbs {
  import opened Arith

  const W := 0x10_0000_0000_0000          // 2^52, the limb base
  const W48 := 0x1_0000_0000_0000         // 2^48
  const W64 := 0x1_0000_0000_0000_0000    // 2^64
  const TWO256 := 0x1_0000_0000_0000_0000_0000_0000_0000_0000_0000_0000_0000_0000_0000_0000_0000_0000
  const C := 0x1_0000_03D1
  const P := TWO256 - C
  const B_HI := 0x4670_0000_0000_0000
  const B_LO := 0x4330_0000_0000_0000

  function Add64(x: int, y: int): int { (x + y) % 0x1_0000_0000_0000_0000 }

  // The masks, shifts and constant multiples of the code, on non-negative words.
  function And52(x: int): int { x % 0x10_0000_0000_0000 }
  function Shr52(x: int): int { x / 0x10_0000_0000_0000 }
  function And48(x: int): int { x % 0x1_0000_0000_0000 }
  function Shr48(x: int): int { x / 0x1_0000_0000_0000 }
  function Limb(x: int): int { 0x10_0000_0000_0000 * x }
  function TimesC(x: int): int { 0x1_0000_03D1 * x }
  function Times16C(x: int): int { 0x10_0000_3D10 * x }
  function AtTwo256(x: int): int {
    0x1_0000_0000_0000_0000_0000_0000_0000_0000_0000_0000_0000_0000_0000_0000_0000_0000 * x
  }

  // The bit patterns of the two halves of a product.
  function HighBits(x: int, y: int): int { B_HI + Shr52(x * y) }
  function LowBits(x: int, y: int): int { B_LO + And52(x * y) }

  // ---------- Little-endian numbers in base 2^52 ----------

  function Val(s: seq<int>): int {
    if s == [] then 0 else s[0] + Limb(Val(s[1..]))
  }

  // x at the weight of limb k.
  function Shift(x: int, k: nat): int {
    if k == 0 then x else Limb(Shift(x, k - 1))
  }

  lemma {:induction false} ShiftAdd(x: int, y: int, k: nat)
    ensures Shift(x + y, k) == Shift(x, k) + Shift(y, k)
  {
    if k > 0 { ShiftAdd(x, y, k - 1); }
  }

  lemma {:induction false} ShiftCarry(x: int, k: nat)
    ensures Shift(Limb(x), k) == Shift(x, k + 1)
  {
    if k > 0 { ShiftCarry(x, k - 1); }
  }

  lemma {:induction false} ShiftTwice(x: int, j: nat, i: nat)
    ensures Shift(Shift(x, j), i) == Shift(x, i + j)
  {
    if i > 0 { ShiftTwice(x, j, i - 1); }
  }

  lemma MulLimb(x: int, z: int)
    ensures x * Limb(z) == Limb(x * z)
  {}

  lemma {:induction false} ShiftMul(x: int, y: int, k: nat)
    ensures x * Shift(y, k) == Shift(x * y, k)
  {
    if k > 0 {
      ShiftMul(x, y, k - 1);
      var z := Shift(y, k - 1);
      MulLimb(x, z);
    }
  }

  // A word split into what stays and what moves up one limb.
  lemma ShiftHalves(low: int, high: int, p: int, k: nat)
    requires p == Limb(high) + low
    ensures Shift(low, k) + Shift(high, k + 1) == Shift(p, k)
  {
    ShiftAdd(Limb(high), low, k);
    ShiftCarry(high, k);
  }

  lemma {:induction false} ValAppend(s: seq<int>, x: int)
    ensures Val(s + [x]) == Val(s) + Shift(x, |s|)
  {
    if s == [] {
      assert [x][1..] == [];
    } else {
      assert (s + [x])[1..] == s[1..] + [x];
      ValAppend(s[1..], x);
    }
  }

  lemma {:induction false} ValSplit(s: seq<int>, t: seq<int>)
    ensures Val(s + t) == Val(s) + Shift(Val(t), |s|)
  {
    if s == [] {
      assert s + t == t;
    } else {
      assert (s + t)[1..] == s[1..] + t;
      ValSplit(s[1..], t);
    }
  }

  // Adding into one column.
  function Bump(s: seq<int>, c: nat, d: int): seq<int>
    requires c < |s|
  {
    s[c := s[c] + d]
  }

  lemma {:induction false} ValBump(s: seq<int>, c: nat, d: int)
    requires c < |s|
    ensures Val(Bump(s, c, d)) == Val(s) + Shift(d, c)
  {
    if c == 0 {
      assert Bump(s, c, d)[1..] == s[1..];
    } else {
      assert Bump(s, c, d)[1..] == Bump(s[1..], c - 1, d);
      ValBump(s[1..], c - 1, d);
    }
  }

  // Adding a split word into two neighbouring columns.
  lemma ValBumpPair(s: seq<int>, c: nat, low: int, high: int, p: int)
    requires c + 1 < |s| && p == Limb(high) + low
    ensures Val(Bump(Bump(s, c, low), c + 1, high)) == Val(s) + Shift(p, c)
  {
    ValBump(s, c, low);
    ValBump(Bump(s, c, low), c + 1, high);
    ShiftHalves(low, high, p, c);
  }

  lemma {:induction false} ValZero(s: seq<int>)
    requires forall k :: 0 <= k < |s| ==> s[k] == 0
    ensures Val(s) == 0
  {
    if s != [] { ValZero(s[1..]); }
  }

  lemma {:induction false} Val5(s: seq<int>)
    requires |s| == 5
    ensures Val(s) == s[0] + Limb(s[1] + Limb(s[2] + Limb(s[3] + Limb(s[4]))))
  {
    assert s[1..][1..] == s[2..] && s[2..][1..] == s[3..] && s[3..][1..] == s[4..] && s[4..][1..] == [];
    assert Val(s[4..]) == s[4] && Val(s[3..]) == s[3] + Limb(s[4]);
    assert Val(s[2..]) == s[2] + Limb(Val(s[3..])) && Val(s[1..]) == s[1] + Limb(Val(s[2..]));
  }

  // ---------- Reduced elements ----------

  ghost predicate Reduced(s: seq<int>) {
    && |s| == 5
    && (forall k :: 0 <= k < 4 ==> 0 <= s[k] < W)
    && 0 <= s[4] < W48
  }

  lemma {:induction false} ReducedRange(s: seq<int>)
    requires Reduced(s)
    ensures 0 <= Val(s) < TWO256
  {
    Val5(s);
  }

  // ---------- Columns of the product ----------

  // How many of the pairs (i', j') still to come, from (i, j) on in row order, have i' + j' == c.
  function Left(c: int, i: int, j: int): int {
    (if i < 5 && j <= c - i < 5 then 1 else 0) + LeftRows(c, i + 1)
  }

  function LeftRows(c: int, i: int): int
    decreases 5 - i
  {
    if i >= 5 then 0 else (if 0 <= c - i < 5 then 1 else 0) + LeftRows(c, i + 1)
  }

  const NP: seq<int> := [1, 2, 3, 4, 5, 4, 3, 2, 1]

  lemma {:induction false} LeftAtStart(c: int)
    requires -1 <= c <= 9
    ensures LeftRows(c, 0) == Left(c, 0, 0) == if 0 <= c < 9 then NP[c] else 0
  {
    assert LeftRows(c, 5) == 0;
    assert LeftRows(c, 4) == if 0 <= c - 4 < 5 then 1 else 0;
    assert LeftRows(c, 3) == (if 0 <= c - 3 < 5 then 1 else 0) + LeftRows(c, 4);
    assert LeftRows(c, 2) == (if 0 <= c - 2 < 5 then 1 else 0) + LeftRows(c, 3);
    assert LeftRows(c, 1) == (if 0 <= c - 1 < 5 then 1 else 0) + LeftRows(c, 2);
  }

  // The word of column c: its true sum, less the biases that have not arrived yet.
  ghost predicate WordHolds(word: int, sum: int, lows: int, highs: int) {
    && word == (sum - lows * B_LO - highs * B_HI) % W64
    && 0 <= sum && sum + (lows + highs) * (W - 1) <= 9 * (W - 1)
  }

  ghost predicate ColumnsHold(acc: seq<int>, cols: seq<int>, i: int, j: int) {
    && |acc| == |cols| == 10
    && forall c {:trigger WordHolds(acc[c], cols[c], Left(c, i, j), Left(c - 1, i, j))} :: 0 <= c < 10 ==>
         WordHolds(acc[c], cols[c], Left(c, i, j), Left(c - 1, i, j))
  }

  // The value of the first i rows and the first j products of row i.
  ghost predicate PartialProduct(cols: seq<int>, a: seq<int>, b: seq<int>, i: nat, j: nat)
    requires |a| == |b| == 5 && i <= 5 && j <= 5
  {
    Val(cols) == Val(a[..i]) * Val(b) + (if i < 5 then Shift(a[i] * Val(b[..j]), i) else 0)
  }

  lemma AddLow(word: int, sum: int, lows: int, highs: int, d: int)
    requires WordHolds(word, sum, lows + 1, highs) && 0 <= d < W
    ensures WordHolds(Add64(word, B_LO + d), sum + d, lows, highs)
  {
    var x := sum - (lows + 1) * B_LO - highs * B_HI;
    assert (lows + 1) * B_LO == lows * B_LO + B_LO;
    ModAdd(x, B_LO + d, W64);
  }

  lemma AddHigh(word: int, sum: int, lows: int, highs: int, d: int)
    requires WordHolds(word, sum, lows, highs + 1) && 0 <= d < W
    ensures WordHolds(Add64(word, B_HI + d), sum + d, lows, highs)
  {
    var x := sum - lows * B_LO - (highs + 1) * B_HI;
    assert (highs + 1) * B_HI == highs * B_HI + B_HI;
    ModAdd(x, B_HI + d, W64);
  }

  lemma ProductHalves(x: int, y: int)
    requires 0 <= x < W && 0 <= y < W
    ensures 0 <= Shr52(x * y) < W && 0 <= And52(x * y) < W
    ensures x * y == Limb(Shr52(x * y)) + And52(x * y)
  {
    MulLess(x, y, W, W);
    DivBelow(x * y, W, W);
  }

  lemma StepColumns(acc: seq<int>, cols: seq<int>, x: int, y: int, i: nat, j: nat)
    requires i < 5 && j < 5 && ColumnsHold(acc, cols, i, j)
    requires 0 <= x < W && 0 <= y < W
    ensures var c := i + j;
            var acc' := acc[c := Add64(acc[c], LowBits(x, y))];
            ColumnsHold(acc'[c + 1 := Add64(acc'[c + 1], HighBits(x, y))],
                        Bump(Bump(cols, c, And52(x * y)), c + 1, Shr52(x * y)), i, j + 1)
  {
    ProductHalves(x, y);
    var c := i + j;
    var acc1 := acc[c := Add64(acc[c], LowBits(x, y))];
    var acc2 := acc1[c + 1 := Add64(acc1[c + 1], HighBits(x, y))];
    var cols2 := Bump(Bump(cols, c, And52(x * y)), c + 1, Shr52(x * y));
    forall k | 0 <= k < 10
      ensures WordHolds(acc2[k], cols2[k], Left(k, i, j + 1), Left(k - 1, i, j + 1))
    {
      assert WordHolds(acc[k], cols[k], Left(k, i, j), Left(k - 1, i, j));
      if k == c {
        AddLow(acc[k], cols[k], Left(k, i, j + 1), Left(k - 1, i, j + 1), And52(x * y));
      } else if k == c + 1 {
        AddHigh(acc[k], cols[k], Left(k, i, j + 1), Left(k - 1, i, j + 1), Shr52(x * y));
      }
    }
  }

  lemma StepProduct(cols: seq<int>, a: seq<int>, b: seq<int>, i: nat, j: nat)
    requires |a| == |b| == 5 && |cols| == 10 && i < 5 && j < 5
    requires PartialProduct(cols, a, b, i, j)
    ensures PartialProduct(Bump(Bump(cols, i + j, And52(a[i] * b[j])), i + j + 1, Shr52(a[i] * b[j])), a, b, i, j + 1)
  {
    var p := a[i] * b[j];
    ValBumpPair(cols, i + j, And52(p), Shr52(p), p);
    assert b[..j + 1] == b[..j] + [b[j]];
    ValAppend(b[..j], b[j]);
    MulAdd(a[i], Val(b[..j]), Shift(b[j], j));
    ShiftMul(a[i], b[j], j);
    ShiftAdd(a[i] * Val(b[..j]), Shift(p, j), i);
    ShiftTwice(p, j, i);
  }

  lemma NextRow(cols: seq<int>, a: seq<int>, b: seq<int>, i: nat)
    requires |a| == |b| == 5 && i < 5 && PartialProduct(cols, a, b, i, 5)
    ensures PartialProduct(cols, a, b, i + 1, 0)
  {
    assert b[..5] == b && b[..0] == [];
    assert a[..i + 1] == a[..i] + [a[i]];
    ValAppend(a[..i], a[i]);
    MulAdd(Val(b), Val(a[..i]), Shift(a[i], i));
    ShiftMul(Val(b), a[i], i);
    assert Val(b) * a[i] == a[i] * Val(b);
    if i + 1 < 5 {
      assert a[i + 1] * Val(b[..0]) == 0;
      ShiftZero(i + 1);
    }
  }

  lemma {:induction false} ShiftZero(k: nat)
    ensures Shift(0, k) == 0
  {
    if k > 0 { ShiftZero(k - 1); }
  }

  /** Each column starts at minus the biases that will be added to it. */
  method Biases(acc: array<int>)
    requires acc.Length == 10
    modifies acc
    ensures ColumnsHold(acc[..], seq(10, _ => 0), 0, 0)
  {
    for c := 0 to 10
      invariant forall k {:trigger acc[k]} :: 0 <= k < c ==> WordHolds(acc[k], 0, Left(k, 0, 0), Left(k - 1, 0, 0))
    {
      LeftAtStart(c);
      LeftAtStart(c - 1);
      var lows := if c < 9 then NP[c] else 0;
      var highs := if c > 0 then NP[c - 1] else 0;
      acc[c] := (-(lows * B_LO + highs * B_HI)) % W64;
    }
  }

  method Accumulate(acc: array<int>, c: nat, x: int, y: int)
    requires c + 1 < acc.Length
    modifies acc
    ensures var acc1 := old(acc[..])[c := Add64(old(acc[..])[c], LowBits(x, y))];
            acc[..] == acc1[c + 1 := Add64(acc1[c + 1], HighBits(x, y))]
  {
    acc[c] := Add64(acc[c], LowBits(x, y));
    acc[c + 1] := Add64(acc[c + 1], HighBits(x, y));
  }

  lemma RowEnd(acc: seq<int>, cols: seq<int>, i: nat)
    requires i < 5 && ColumnsHold(acc, cols, i, 5)
    ensures ColumnsHold(acc, cols, i + 1, 0)
  {
    forall c | 0 <= c < 10 ensures WordHolds(acc[c], cols[c], Left(c, i + 1, 0), Left(c - 1, i + 1, 0)) {
      assert WordHolds(acc[c], cols[c], Left(c, i, 5), Left(c - 1, i, 5));
    }
  }

  /** With every bias cancelled a word is its true column sum. */
  lemma ColumnsExact(acc: seq<int>, cols: seq<int>)
    requires ColumnsHold(acc, cols, 5, 0)
    ensures acc == cols && forall c :: 0 <= c < 10 ==> 0 <= acc[c] <= 9 * (W - 1)
  {
    forall c | 0 <= c < 10 ensures acc[c] == cols[c] && 0 <= acc[c] <= 9 * (W - 1) {
      assert WordHolds(acc[c], cols[c], Left(c, 5, 0), Left(c - 1, 5, 0));
      ModSmall(cols[c], W64);
    }
  }

  /** The ten product columns: once the biases cancel, no column has overflowed. */
  method Columns(a: array<int>, b: array<int>) returns (acc: array<int>)
    requires Reduced(a[..]) && Reduced(b[..])
    ensures fresh(acc) && acc.Length == 10
    ensures forall c :: 0 <= c < 10 ==> 0 <= acc[c] <= 9 * (W - 1)
    ensures Val(acc[..]) == Val(a[..]) * Val(b[..])
  {
    acc := new int[10];
    ghost var cols := seq(10, _ => 0);
    ghost var av, bv := a[..], b[..];
    Biases(acc);
    ValZero(cols);
    ShiftZero(0);
    assert av[..0] == [] && bv[..0] == [] && Val(bv[..0]) == 0 && Val(av[..0]) * Val(bv) == 0 && av[0] * Val(bv[..0]) == 0;
    for i := 0 to 5
      invariant ColumnsHold(acc[..], cols, i, 0)
      invariant PartialProduct(cols, av, bv, i, 0)
    {
      for j := 0 to 5
        invariant ColumnsHold(acc[..], cols, i, j)
        invariant PartialProduct(cols, av, bv, i, j)
      {
        StepColumns(acc[..], cols, a[i], b[j], i, j);
        StepProduct(cols, av, bv, i, j);
        Accumulate(acc, i + j, a[i], b[j]);
        cols := Bump(Bump(cols, i + j, And52(a[i] * b[j])), i + j + 1, Shr52(a[i] * b[j]));
      }
      NextRow(cols, av, bv, i);
      RowEnd(acc[..], cols, i);
    }
    ColumnsExact(acc[..], cols);
    assert av[..5] == av;
  }
}
