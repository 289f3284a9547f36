/**
 Squaring: each off-diagonal product is formed once and doubled, so diagonal and
 off-diagonal halves are gathered in four separate column arrays.
 */
module FieldSqr {
  import opened Arith
  import opened Limbs
  import opened FieldMul

  // Off-diagonal pairs of column c still to come from (i, j) on.
  function LeftOff(c: int, i: int, j: int): int {
    (if i < 5 && j <= c - i < 5 then 1 else 0) + LeftOffRows(c, i + 1)
  }

  function LeftOffRows(c: int, i: int): int
    decreases 5 - i
  {
    if i >= 5 then 0 else (if i + 1 <= c - i < 5 then 1 else 0) + LeftOffRows(c, i + 1)
  }

  // Diagonal pairs of column c still to come from row i on.
  function LeftDiag(c: int, i: int): int {
    if c % 2 == 0 && i <= c / 2 < 5 then 1 else 0
  }

  function OffLeft(i: int, j: int): seq<int> { seq(9, c => LeftOff(c, i, j)) }
  function DiagLeft(i: int): seq<int> { seq(9, c => LeftDiag(c, i)) }

  const ND: seq<int> := [1, 0, 1, 0, 1, 0, 1, 0, 1]
  const NO: seq<int> := [0, 1, 1, 2, 2, 2, 1, 1, 0]

  lemma {:induction false} LeftOffAtStart(c: int)
    requires 0 <= c < 9
    ensures LeftOffRows(c, 0) == LeftOff(c, 0, 1) == NO[c]
  {
    assert LeftOffRows(c, 5) == 0;
    assert LeftOffRows(c, 4) == if 5 <= c - 4 < 5 then 1 else 0;
    assert LeftOffRows(c, 3) == (if 4 <= c - 3 < 5 then 1 else 0) + LeftOffRows(c, 4);
    assert LeftOffRows(c, 2) == (if 3 <= c - 2 < 5 then 1 else 0) + LeftOffRows(c, 3);
    assert LeftOffRows(c, 1) == (if 2 <= c - 1 < 5 then 1 else 0) + LeftOffRows(c, 2);
  }

  // A column word: its true sum less the biases to come, the sum bounded by what has arrived.
  ghost predicate HalfHolds(word: int, sum: int, bias: int, left: int, total: int) {
    && word == (sum - left * bias) % W64
    && 0 <= sum && sum + left * (W - 1) <= total * (W - 1)
  }

  ghost predicate HalvesHold(words: seq<int>, sums: seq<int>, bias: int, left: seq<int>, totals: seq<int>) {
    && |words| == |sums| == |totals| == |left| == 9
    && forall c {:trigger HalfHolds(words[c], sums[c], bias, left[c], totals[c])} :: 0 <= c < 9 ==>
         HalfHolds(words[c], sums[c], bias, left[c], totals[c])
  }

  lemma AddHalf(word: int, sum: int, bias: int, left: int, total: int, d: int)
    requires HalfHolds(word, sum, bias, left + 1, total) && 0 <= d < W
    ensures HalfHolds(Add64(word, bias + d), sum + d, bias, left, total)
  {
    assert (left + 1) * bias == left * bias + bias;
    assert (left + 1) * (W - 1) == left * (W - 1) + (W - 1);
    ModAdd(sum - (left + 1) * bias, bias + d, W64);
  }

  lemma StepHalves(words: seq<int>, sums: seq<int>, bias: int, left: seq<int>, next: seq<int>, totals: seq<int>,
                   c: nat, d: int)
    requires c < 9 && HalvesHold(words, sums, bias, left, totals) && 0 <= d < W
    requires |next| == 9 && forall k :: 0 <= k < 9 ==> left[k] == next[k] + if k == c then 1 else 0
    ensures HalvesHold(words[c := Add64(words[c], bias + d)], Bump(sums, c, d), bias, next, totals)
  {
    var words' := words[c := Add64(words[c], bias + d)];
    forall k | 0 <= k < 9 ensures HalfHolds(words'[k], Bump(sums, c, d)[k], bias, next[k], totals[k]) {
      assert HalfHolds(words[k], sums[k], bias, left[k], totals[k]);
      if k == c { AddHalf(words[c], sums[c], bias, next[c], totals[c], d); }
    }
  }

  lemma SameHalves(words: seq<int>, sums: seq<int>, bias: int, left: seq<int>, next: seq<int>, totals: seq<int>)
    requires HalvesHold(words, sums, bias, left, totals)
    requires |next| == 9 && forall k :: 0 <= k < 9 ==> left[k] == next[k]
    ensures HalvesHold(words, sums, bias, next, totals)
  {
    forall k | 0 <= k < 9 ensures HalfHolds(words[k], sums[k], bias, next[k], totals[k]) {
      assert HalfHolds(words[k], sums[k], bias, left[k], totals[k]);
    }
  }

  lemma HalvesExact(words: seq<int>, sums: seq<int>, bias: int, left: seq<int>, totals: seq<int>)
    requires HalvesHold(words, sums, bias, left, totals)
    requires forall k :: 0 <= k < 9 ==> left[k] == 0 && 0 <= totals[k] <= 2
    ensures words == sums && forall k :: 0 <= k < 9 ==> 0 <= words[k] <= totals[k] * (W - 1)
  {
    forall k | 0 <= k < 9 ensures words[k] == sums[k] && 0 <= words[k] <= totals[k] * (W - 1) {
      assert HalfHolds(words[k], sums[k], bias, left[k], totals[k]);
      MulLe(W - 1, totals[k], 2);
      ModSmall(sums[k], W64);
    }
  }

  // The four true column sums.
  datatype Sums = Sums(ld: seq<int>, lo: seq<int>, hd: seq<int>, ho: seq<int>)
  {
    function Total(): int { Val(ld) + 2 * Val(lo) + Limb(Val(hd) + 2 * Val(ho)) }

    function AddDiag(c: nat, p: int): Sums
      requires c < |ld| && c < |hd|
    {
      Sums(Bump(ld, c, And52(p)), lo, Bump(hd, c, Shr52(p)), ho)
    }

    function AddOff(c: nat, p: int): Sums
      requires c < |lo| && c < |ho|
    {
      Sums(ld, Bump(lo, c, And52(p)), hd, Bump(ho, c, Shr52(p)))
    }
  }

  lemma {:induction false} AddDiagTotal(s: Sums, c: nat, p: int)
    requires c < |s.ld| && c < |s.hd|
    ensures s.AddDiag(c, p).Total() == s.Total() + Shift(p, c)
  {
    ValBump(s.ld, c, And52(p));
    ValBump(s.hd, c, Shr52(p));
    ShiftHalves(And52(p), Shr52(p), p, c);
  }

  lemma {:induction false} AddOffTotal(s: Sums, c: nat, p: int)
    requires c < |s.lo| && c < |s.ho|
    ensures s.AddOff(c, p).Total() == s.Total() + 2 * Shift(p, c)
  {
    ValBump(s.lo, c, And52(p));
    ValBump(s.ho, c, Shr52(p));
    ShiftHalves(And52(p), Shr52(p), p, c);
  }

  ghost predicate Bounded(s: Sums) {
    && |s.ld| == |s.lo| == |s.hd| == |s.ho| == 9
    && forall c {:trigger BoundedAt(s, c)} :: 0 <= c < 9 ==> BoundedAt(s, c)
  }

  ghost predicate BoundedAt(s: Sums, c: int)
    requires |s.ld| == |s.lo| == |s.hd| == |s.ho| == 9 && 0 <= c < 9
  {
    && 0 <= s.ld[c] <= ND[c] * (W - 1) && 0 <= s.hd[c] <= ND[c] * (W - 1)
    && 0 <= s.lo[c] <= NO[c] * (W - 1) && 0 <= s.ho[c] <= NO[c] * (W - 1)
  }

  // The part of a square that the rows below x account for: x^2 + 2x(all - x).
  function SquareBelow(x: int, all: int): int {
    x * x + 2 * (x * (all - x))
  }

  // What is gathered after the diagonal of row i and its products up to column j.
  function Gathered(a: seq<int>, i: nat, j: nat): int
    requires i < 5 && |a| == 5 && i < j <= 5
  {
    var d := Shift(a[i], i);
    SquareBelow(Val(a[..i]), Val(a)) + d * d + 2 * (d * (Val(a[..j]) - Val(a[..i + 1])))
  }

  lemma ProductOfShifts(x: int, y: int, i: nat, j: nat)
    ensures Shift(x, i) * Shift(y, j) == Shift(x * y, i + j)
  {
    ShiftMul(Shift(x, i), y, j);
    ShiftMul(y, x, i);
    assert Shift(x, i) * y == y * Shift(x, i) && y * x == x * y;
    ShiftTwice(x * y, i, j);
    assert j + i == i + j;
  }

  lemma {:induction false} RowStarts(a: seq<int>, i: nat)
    requires i < 5 && |a| == 5
    ensures Gathered(a, i, i + 1) == SquareBelow(Val(a[..i]), Val(a)) + Shift(a[i] * a[i], 2 * i)
  {
    ProductOfShifts(a[i], a[i], i, i);
    assert Shift(a[i], i) * (Val(a[..i + 1]) - Val(a[..i + 1])) == 0;
  }

  lemma RowGrows(a: seq<int>, i: nat, j: nat)
    requires |a| == 5 && i < j < 5
    ensures Gathered(a, i, j + 1) == Gathered(a, i, j) + 2 * Shift(a[i] * a[j], i + j)
  {
    assert a[..j + 1] == a[..j] + [a[j]];
    ValAppend(a[..j], a[j]);
    ProductOfShifts(a[i], a[j], i, j);
    MulAdd(Shift(a[i], i), Val(a[..j]) - Val(a[..i + 1]), Shift(a[j], j));
  }

  lemma SquareGrows(x: int, d: int, all: int)
    ensures SquareBelow(x, all) + d * d + 2 * (d * (all - (x + d))) == SquareBelow(x + d, all)
  {}

  lemma {:induction false} RowEnds(a: seq<int>, i: nat)
    requires i < 5 && |a| == 5
    ensures Gathered(a, i, 5) == SquareBelow(Val(a[..i + 1]), Val(a))
  {
    assert a[..5] == a && a[..i + 1] == a[..i] + [a[i]];
    ValAppend(a[..i], a[i]);
    SquareGrows(Val(a[..i]), Shift(a[i], i), Val(a));
  }

  // Everything the gathering loops keep, from (i, j) on; diagonals from row di on.
  ghost predicate Gathering(ld: seq<int>, lo: seq<int>, hd: seq<int>, ho: seq<int>, s: Sums, i: int, j: int, di: int) {
    && HalvesHold(ld, s.ld, B_LO, DiagLeft(di), ND)
    && HalvesHold(hd, s.hd, B_HI, DiagLeft(di), ND)
    && HalvesHold(lo, s.lo, B_LO, OffLeft(i, j), NO)
    && HalvesHold(ho, s.ho, B_HI, OffLeft(i, j), NO)
  }

  method Start(words: array<int>, bias: int, counts: seq<int>, ghost left: seq<int>)
    requires words.Length == 9 && |counts| == 9 && left == counts
    requires forall c :: 0 <= c < 9 ==> 0 <= counts[c]
    modifies words
    ensures HalvesHold(words[..], seq(9, _ => 0), bias, left, counts)
  {
    for c := 0 to 9
      invariant forall k :: 0 <= k < c ==> words[k] == (-(counts[k] * bias)) % W64
    {
      words[c] := (-(counts[c] * bias)) % W64;
    }
    forall c | 0 <= c < 9 ensures HalfHolds(words[c], 0, bias, left[c], counts[c]) {}
  }

  // Adds the biased halves of one product to column c of a pair of arrays.
  method Accumulate(lows: array<int>, highs: array<int>, c: nat, x: int, y: int,
                    ghost sumsLow: seq<int>, ghost sumsHigh: seq<int>, ghost left: seq<int>, ghost next: seq<int>,
                    ghost totals: seq<int>)
    requires lows != highs && c < 9 && 0 <= x < W && 0 <= y < W
    requires HalvesHold(lows[..], sumsLow, B_LO, left, totals) && HalvesHold(highs[..], sumsHigh, B_HI, left, totals)
    requires |next| == 9 && forall k :: 0 <= k < 9 ==> left[k] == next[k] + if k == c then 1 else 0
    modifies lows, highs
    ensures HalvesHold(lows[..], Bump(sumsLow, c, And52(x * y)), B_LO, next, totals)
    ensures HalvesHold(highs[..], Bump(sumsHigh, c, Shr52(x * y)), B_HI, next, totals)
  {
    ProductHalves(x, y);
    StepHalves(lows[..], sumsLow, B_LO, left, next, totals, c, And52(x * y));
    StepHalves(highs[..], sumsHigh, B_HI, left, next, totals, c, Shr52(x * y));
    ghost var before, beforeHigh := lows[..], highs[..];
    highs[c] := Add64(highs[c], HighBits(x, y));
    lows[c] := Add64(lows[c], LowBits(x, y));
    assert lows[..] == before[c := Add64(before[c], LowBits(x, y))];
    assert highs[..] == beforeHigh[c := Add64(beforeHigh[c], HighBits(x, y))];
  }

  // Row i: its diagonal product, then its products with the later limbs.
  method GatherRow(a: array<int>, i: nat, ld: array<int>, lo: array<int>, hd: array<int>, ho: array<int>, ghost s0: Sums)
    returns (ghost s: Sums)
    requires Reduced(a[..]) && i < 5
    requires Gathering(ld[..], lo[..], hd[..], ho[..], s0, i, i + 1, i)
    requires ld != lo && ld != hd && ld != ho && lo != hd && lo != ho && hd != ho && a !in {ld, lo, hd, ho}
    requires s0.Total() == SquareBelow(Val(a[..i]), Val(a[..]))
    modifies ld, lo, hd, ho
    ensures Gathering(ld[..], lo[..], hd[..], ho[..], s, i, 5, i + 1)
    ensures s.Total() == Gathered(a[..], i, 5)
  {
    ghost var av := a[..];
    assert av[..i] == a[..i];
    AddDiagTotal(s0, 2 * i, a[i] * a[i]);
    RowStarts(av, i);
    Accumulate(ld, hd, 2 * i, a[i], a[i], s0.ld, s0.hd, DiagLeft(i), DiagLeft(i + 1), ND);
    s := s0.AddDiag(2 * i, a[i] * a[i]);
    for j := i + 1 to 5
      invariant HalvesHold(ld[..], s.ld, B_LO, DiagLeft(i + 1), ND) && HalvesHold(hd[..], s.hd, B_HI, DiagLeft(i + 1), ND)
      invariant HalvesHold(lo[..], s.lo, B_LO, OffLeft(i, j), NO) && HalvesHold(ho[..], s.ho, B_HI, OffLeft(i, j), NO)
      invariant s.Total() == Gathered(av, i, j)
    {
      AddOffTotal(s, i + j, a[i] * a[j]);
      RowGrows(av, i, j);
      Accumulate(lo, ho, i + j, a[i], a[j], s.lo, s.ho, OffLeft(i, j), OffLeft(i, j + 1), NO);
      s := s.AddOff(i + j, a[i] * a[j]);
    }
  }

  /** The diagonal and off-diagonal halves of every column, biases cancelled. */
  method Gather(a: array<int>) returns (ld: array<int>, lo: array<int>, hd: array<int>, ho: array<int>)
    requires Reduced(a[..])
    ensures fresh({ld, lo, hd, ho}) && ld.Length == lo.Length == hd.Length == ho.Length == 9
    ensures Bounded(Sums(ld[..], lo[..], hd[..], ho[..]))
    ensures Sums(ld[..], lo[..], hd[..], ho[..]).Total() == Val(a[..]) * Val(a[..])
  {
    ld, lo, hd, ho := new int[9], new int[9], new int[9], new int[9];
    ghost var zeros: seq<int> := seq(9, _ => 0);
    ghost var s := Sums(zeros, zeros, zeros, zeros);
    CountsAtStart();
    Start(ho, B_HI, NO, OffLeft(0, 1));
    Start(lo, B_LO, NO, OffLeft(0, 1));
    Start(hd, B_HI, ND, DiagLeft(0));
    Start(ld, B_LO, ND, DiagLeft(0));
    ValZero(zeros);
    assert a[..0] == [] && Val(a[..0]) == 0;
    for i := 0 to 5
      invariant Gathering(ld[..], lo[..], hd[..], ho[..], s, i, i + 1, i)
      invariant s.Total() == SquareBelow(Val(a[..i]), Val(a[..]))
    {
      s := GatherRow(a, i, ld, lo, hd, ho, s);
      RowEnds(a[..], i);
      assert a[..][..i + 1] == a[..i + 1];
      NextSquareRow(ld[..], lo[..], hd[..], ho[..], s, i);
    }
    GatheringExact(ld[..], lo[..], hd[..], ho[..], s);
    assert a[..5] == a[..];
  }

  lemma CountsAtStart()
    ensures OffLeft(0, 1) == NO && DiagLeft(0) == ND
  {
    forall c | 0 <= c < 9 ensures OffLeft(0, 1)[c] == NO[c] { LeftOffAtStart(c); }
  }

  lemma NextSquareRow(ld: seq<int>, lo: seq<int>, hd: seq<int>, ho: seq<int>, s: Sums, i: nat)
    requires i < 5 && Gathering(ld, lo, hd, ho, s, i, 5, i + 1)
    ensures Gathering(ld, lo, hd, ho, s, i + 1, i + 2, i + 1)
  {
    forall c | 0 <= c < 9 ensures LeftOff(c, i, 5) == LeftOff(c, i + 1, i + 2) {}
    SameHalves(lo, s.lo, B_LO, OffLeft(i, 5), OffLeft(i + 1, i + 2), NO);
    SameHalves(ho, s.ho, B_HI, OffLeft(i, 5), OffLeft(i + 1, i + 2), NO);
  }

  lemma GatheringExact(ld: seq<int>, lo: seq<int>, hd: seq<int>, ho: seq<int>, s: Sums)
    requires Gathering(ld, lo, hd, ho, s, 5, 6, 5)
    ensures ld == s.ld && lo == s.lo && hd == s.hd && ho == s.ho
    ensures Bounded(Sums(ld, lo, hd, ho))
  {
    HalvesExact(ld, s.ld, B_LO, DiagLeft(5), ND);
    HalvesExact(hd, s.hd, B_HI, DiagLeft(5), ND);
    HalvesExact(lo, s.lo, B_LO, OffLeft(5, 6), NO);
    HalvesExact(ho, s.ho, B_HI, OffLeft(5, 6), NO);
    forall c | 0 <= c < 9 ensures BoundedAt(Sums(ld, lo, hd, ho), c) {}
  }

  // Column c of the square, from the four halves.
  function Column(s: Sums, c: nat): int
    requires |s.ld| == |s.lo| == |s.hd| == |s.ho| == 9 && c < 10
  {
    (if c < 9 then s.ld[c] + 2 * s.lo[c] else 0) + if c > 0 then s.hd[c - 1] + 2 * s.ho[c - 1] else 0
  }

  function ColumnSeq(s: Sums): seq<int>
    requires |s.ld| == |s.lo| == |s.hd| == |s.ho| == 9
  {
    seq(10, c requires 0 <= c < 10 => Column(s, c))
  }

  lemma {:induction false} ValLinear(x: seq<int>, y: seq<int>, k: int, z: seq<int>)
    requires |x| == |y| == |z|
    requires forall i :: 0 <= i < |x| ==> z[i] == x[i] + k * y[i]
    ensures Val(z) == Val(x) + k * Val(y)
  {
    if x != [] {
      ValLinear(x[1..], y[1..], k, z[1..]);
      MulAdd(k, y[0], Limb(Val(y[1..])));
      MulLimb(k, Val(y[1..]));
    }
  }

  lemma ColumnsTotal(s: Sums)
    requires |s.ld| == |s.lo| == |s.hd| == |s.ho| == 9
    ensures Val(ColumnSeq(s)) == s.Total()
  {
    var lows := seq(9, c requires 0 <= c < 9 => s.ld[c] + 2 * s.lo[c]);
    var highs := seq(9, c requires 0 <= c < 9 => s.hd[c] + 2 * s.ho[c]);
    ValLinear(s.ld, s.lo, 2, lows);
    ValLinear(s.hd, s.ho, 2, highs);
    ValAppend(lows, 0);
    ShiftZero(9);
    assert ([0] + highs)[1..] == highs;
    ValLinear(lows + [0], [0] + highs, 1, ColumnSeq(s));
  }

  // The bound on the counts that keeps every combined column a word.
  lemma ColumnBound(s: Sums, c: nat)
    requires Bounded(s) && c < 10
    ensures 0 <= Column(s, c) <= 9 * (W - 1)
  {
    if c < 9 { assert BoundedAt(s, c); }
    if c > 0 { assert BoundedAt(s, c - 1); }
    if c < 9 { HalfBound(s.ld[c], s.lo[c], c); }
    if c > 0 { HalfBound(s.hd[c - 1], s.ho[c - 1], c - 1); }
  }

  lemma HalfWord(d: int, o: int, k: nat)
    requires k < 9 && 0 <= d <= ND[k] * (W - 1) && 0 <= o <= NO[k] * (W - 1)
    ensures Add64(d, Add64(o, o)) == d + 2 * o && 0 <= d + 2 * o
  {
    HalfBound(d, o, k);
    assert NP[k] <= 5;
    assert NP[k] * (W - 1) <= 5 * (W - 1);
  }

  // The two doubled halves of a column add up without wrapping.
  lemma ColumnWord(s: Sums, c: nat, low: int, high: int)
    requires Bounded(s) && c < 10
    requires low == if c < 9 then Add64(s.ld[c], Add64(s.lo[c], s.lo[c])) else 0
    requires high == if c > 0 then Add64(s.hd[c - 1], Add64(s.ho[c - 1], s.ho[c - 1])) else 0
    ensures 0 <= low && 0 <= high && low + high == Column(s, c)
  {
    if c < 9 {
      assert BoundedAt(s, c);
      HalfWord(s.ld[c], s.lo[c], c);
    }
    if c > 0 {
      assert BoundedAt(s, c - 1);
      HalfWord(s.hd[c - 1], s.ho[c - 1], c - 1);
    }
  }

  lemma HalfBound(d: int, o: int, k: nat)
    requires k < 9 && 0 <= d <= ND[k] * (W - 1) && 0 <= o <= NO[k] * (W - 1)
    ensures 0 <= d + 2 * o <= NP[k] * (W - 1)
  {}

  method ColumnSum(ld: array<int>, lo: array<int>, hd: array<int>, ho: array<int>, c: nat) returns (t: int)
    requires ld.Length == lo.Length == hd.Length == ho.Length == 9 && c < 10
    requires Bounded(Sums(ld[..], lo[..], hd[..], ho[..]))
    ensures t == Column(Sums(ld[..], lo[..], hd[..], ho[..]), c) && 0 <= t <= 9 * (W - 1)
  {
    ghost var s := Sums(ld[..], lo[..], hd[..], ho[..]);
    var low := if c < 9 then Add64(ld[c], Add64(lo[c], lo[c])) else 0;
    var high := if c > 0 then Add64(hd[c - 1], Add64(ho[c - 1], ho[c - 1])) else 0;
    ColumnWord(s, c, low, high);
    ColumnBound(s, c);
    t := Add64(low, high);
  }

  /** The carry resolution of a square. */
  method ResolveSquare(ld: array<int>, lo: array<int>, hd: array<int>, ho: array<int>) returns (o: array<int>)
    requires ld.Length == lo.Length == hd.Length == ho.Length == 9
    requires Bounded(Sums(ld[..], lo[..], hd[..], ho[..]))
    requires Sums(ld[..], lo[..], hd[..], ho[..]).Total() < AtTwo256(AtTwo256(1))
    ensures fresh(o) && o.Length == 10 && Words(o[..], W) && o[9] < 0x1000_0000_0000
    ensures Val(o[..]) == Sums(ld[..], lo[..], hd[..], ho[..]).Total()
  {
    hide Val;
    ghost var s := Sums(ld[..], lo[..], hd[..], ho[..]);
    ghost var cols := ColumnSeq(s);
    ColumnsTotal(s);
    o := new int[10];
    var car := 0;
    ChainStart(0);
    assert o[..0] == [] && cols[..0] == [];
    for c := 0 to 9
      invariant 0 <= car <= 9 && Words(o[..c], W)
      invariant Chain(o[..c], car, Val(cols[..c]))
    {
      assert cols[..c + 1] == cols[..c] + [cols[c]];
      ValAppend(cols[..c], cols[c]);
      var column := ColumnSum(ld, lo, hd, ho, c);
      var t := Add64(column, car);
      CarryStep(o[..c], car, cols[c], Val(cols[..c]), And52(t), Shr52(t));
      o[c] := And52(t);
      car := Shr52(t);
      assert o[..c + 1] == o[..c] + [o[c]];
    }
    var column := ColumnSum(ld, lo, hd, ho, 9);
    o[9] := Add64(column, car);
    LastColumn(o[..], car, cols);
  }

  // The last column needs no mask: a square below 2^512 keeps it below 2^44.
  lemma {:induction false} LastColumn(o: seq<int>, car: int, cols: seq<int>)
    requires |o| == |cols| == 10 && Words(o[..9], W) && Chain(o[..9], car, Val(cols[..9]))
    requires o[9] == cols[9] + car && 0 <= o[9] && Val(cols) < AtTwo256(AtTwo256(1))
    ensures Val(o) == Val(cols) && 0 <= o[9] < 0x1000_0000_0000
  {
    assert o == o[..9] + [o[9]] && cols == cols[..9] + [cols[9]];
    ValAppend(o[..9], o[9]);
    ValAppend(cols[..9], cols[9]);
    ShiftAdd(cols[9], car, 9);
    ValNonNegative(o[..9], W);
    WeightOfNine(1, 9);
    if o[9] >= 0x1000_0000_0000 { ShiftMonotone(0x1000_0000_0000, o[9], 9); }
  }

  /** r = a * a modulo P. The output may be the input. */
  method Sqr(r: array<int>, a: array<int>)
    requires r.Length == 5 && Reduced(a[..])
    modifies r
    ensures Reduced(r[..])
    ensures Val(r[..]) % P == old(Val(a[..]) * Val(a[..])) % P
  {
    ProductRange(a[..], a[..]);
    var ld, lo, hd, ho := Gather(a);
    var o := ResolveSquare(ld, lo, hd, ho);
    ReduceColumns(o, r);
  }
}
