/** The Elias-Fano encoding of a sorted index list, written bit by bit, and its reading back. */
module EliasFano {
  import opened Wrappers
  import opened Arith
  import opened Counts

  // ---------- Bits ----------

  // v shifted right by k bits.
  function Shifted(v: nat, k: nat): nat {
    if k == 0 then v else Shifted(v, k - 1) / 2
  }

  function Bit(v: nat, k: nat): (r: nat)
    ensures r <= 1
  {
    Shifted(v, k) % 2
  }

  // v with bit k or-ed in.
  function WithBit(v: nat, k: nat): nat {
    if k == 0 then v / 2 * 2 + 1 else 2 * WithBit(v / 2, k - 1) + v % 2
  }

  lemma {:induction false} HalfFirst(v: nat, k: nat)
    ensures Shifted(v, k + 1) == Shifted(v / 2, k)
  {
    if k > 0 { HalfFirst(v, k - 1); }
  }

  /** A set bit is set, and no other changes. */
  lemma {:induction false} WithBitMeans(v: nat, k: nat, j: nat)
    ensures Bit(WithBit(v, k), j) == if j == k then 1 else Bit(v, j)
  {
    var w := WithBit(v, k);
    if j > 0 {
      HalfFirst(v, j - 1);
      HalfFirst(w, j - 1);
      if k > 0 {
        WithBitMeans(v / 2, k - 1, j - 1);
        assert w / 2 == WithBit(v / 2, k - 1);
      } else {
        assert w / 2 == v / 2;
      }
    }
  }

  lemma {:induction false} WithBitBelow(v: nat, k: nat, m: nat)
    requires k < m && v < Pow2(m)
    ensures WithBit(v, k) < Pow2(m)
  {
    if k > 0 {
      assert v / 2 < Pow2(m - 1);
      WithBitBelow(v / 2, k - 1, m - 1);
    }
  }

  lemma {:induction false} ByteWithBit(b: Octet, k: nat)
    requires k < 8
    ensures WithBit(b, k) < 256
  {
    assert Pow2(3) == 8 && Pow2(6) == 64 && Pow2(8) == 256 by {
      assert Pow2(1) == 2 && Pow2(2) == 4 && Pow2(4) == 16 && Pow2(5) == 32 && Pow2(7) == 128;
    }
    WithBitBelow(b, k, 8);
  }

  function BitAt(s: seq<Octet>, p: nat): (r: nat)
    requires p / 8 < |s|
    ensures r <= 1
  {
    Bit(s[p / 8], p % 8)
  }

  lemma ByteIndex(p: nat, count: nat)
    requires p < count
    ensures p / 8 < (count + 7) / 8
  {}

  method SetBit(buf: array<Octet>, pos: nat)
    requires pos / 8 < buf.Length
    modifies buf
    ensures forall p: nat {:trigger BitAt(buf[..], p)} :: p / 8 < buf.Length ==>
              BitAt(buf[..], p) == if p == pos then 1 else BitAt(old(buf[..]), p)
  {
    ghost var before := buf[..];
    ByteWithBit(buf[pos / 8], pos % 8);
    buf[pos / 8] := WithBit(buf[pos / 8], pos % 8);
    forall p: nat | p / 8 < buf.Length
      ensures BitAt(buf[..], p) == if p == pos then 1 else BitAt(before, p)
    {
      WithBitMeans(before[pos / 8], pos % 8, p % 8);
      assert p == 8 * (p / 8) + p % 8 && pos == 8 * (pos / 8) + pos % 8;
    }
  }

  // ---------- Logarithms and low bits ----------

  // bit_length less one.
  function Log2(q: nat): nat {
    if q < 2 then 0 else 1 + Log2(q / 2)
  }

  lemma {:induction false} Log2Bounds(q: nat)
    requires q > 0
    ensures Pow2(Log2(q)) <= q < Pow2(Log2(q) + 1)
  {
    if q >= 2 { Log2Bounds(q / 2); }
  }

  // The value of the k low bits.
  function LowValue(v: nat, k: nat): nat {
    if k == 0 then 0 else LowValue(v, k - 1) + Pow2(k - 1) * Bit(v, k - 1)
  }

  lemma OneBitDown(v: nat, p: nat, s: nat, x: nat, b: nat, low: nat)
    requires s == 2 * x + b && v == p * s + low
    ensures v == 2 * p * x + (low + p * b)
  {
    MulAdd(p, 2 * x, b);
    assert p * (2 * x) == 2 * p * x;
  }

  lemma {:induction false} HighAndLow(v: nat, k: nat)
    ensures v == Pow2(k) * Shifted(v, k) + LowValue(v, k)
  {
    if k > 0 {
      HighAndLow(v, k - 1);
      OneBitDown(v, Pow2(k - 1), Shifted(v, k - 1), Shifted(v, k), Bit(v, k - 1), LowValue(v, k - 1));
    }
  }

  lemma {:induction false} ShiftMonotone(v: nat, w: nat, k: nat)
    requires v <= w
    ensures Shifted(v, k) <= Shifted(w, k)
  {
    if k > 0 { ShiftMonotone(v, w, k - 1); }
  }

  // ---------- The encoding ----------

  ghost predicate Sorted(indices: seq<int>) {
    && (forall i :: 0 <= i < |indices| ==> 0 <= indices[i] <= 0xFFFF_FFFF)
    && (forall i, j :: 0 <= i < j < |indices| ==> indices[i] < indices[j])
  }

  function LowBits(n: nat, maximum: nat): nat
    requires n > 0
  {
    Log2((maximum + 1) / n)
  }

  function HighCount(n: nat, maximum: nat): nat
    requires n > 0
  {
    n + Shifted(maximum, LowBits(n, maximum))
  }

  lemma {:induction false} AtLeastOrdinal(indices: seq<int>, i: nat)
    requires Sorted(indices) && i < |indices|
    ensures indices[i] >= i
  {
    if i > 0 { AtLeastOrdinal(indices, i - 1); }
  }

  lemma ShortOf(n: nat, q: nat, p: nat, h: nat, m: nat)
    requires m + 1 < n * q + n && q < 2 * p && p * h <= m
    ensures h < 2 * n
  {
    MulAdd(n, q, 1);
    MulLe(n, q + 1, 2 * p);
    assert n * (2 * p) == p * (2 * n);
    if h >= 2 * n { MulLe(p, 2 * n, h); }
  }

  /** The high part is shorter than 3n bits. */
  lemma HighShort(n: nat, maximum: nat)
    requires 0 < n <= maximum + 1
    ensures HighCount(n, maximum) < 3 * n
  {
    var q, k := (maximum + 1) / n, LowBits(n, maximum);
    DivMod(maximum + 1, n);
    if q <= 0 { MulLe(n, q, 0); }
    Log2Bounds(q);
    HighAndLow(maximum, k);
    ShortOf(n, q, Pow2(k), Shifted(maximum, k), maximum);
  }

  // Where index i's unary bit goes.
  function HighPos(indices: seq<int>, i: nat, k: nat): nat
    requires i < |indices| && 0 <= indices[i]
  {
    Shifted(indices[i], k) + i
  }

  lemma HighPosIncreasing(indices: seq<int>, i: nat, j: nat, k: nat)
    requires Sorted(indices) && i < j < |indices|
    ensures HighPos(indices, i, k) < HighPos(indices, j, k)
  {
    ShiftMonotone(indices[i], indices[j], k);
  }

  /** Every unary bit lands inside the high part. */
  lemma HighPosInRange(indices: seq<int>, i: nat)
    requires Sorted(indices) && i < |indices|
    ensures var n, maximum := |indices|, indices[|indices| - 1];
            HighPos(indices, i, LowBits(n, maximum)) < HighCount(n, maximum)
  {
    ShiftMonotone(indices[i], indices[|indices| - 1], LowBits(|indices|, indices[|indices| - 1]));
  }

  /** Every low bit lands inside the low part, and no two share a place. */
  lemma LowPosInRange(n: nat, k: nat, i: nat, t: nat)
    requires i < n && t < k
    ensures i * k + t < n * k
  {
    MulLe(k, i + 1, n);
    assert k * (i + 1) == i * k + k && k * n == n * k;
  }

  lemma LowPosDistinct(k: nat, i: nat, t: nat, j: nat, u: nat)
    requires t < k && u < k && i * k + t == j * k + u
    ensures i == j && t == u
  {
    assert i * k == k * i && j * k == k * j;
    Unique(k, i, t, j, u);
  }

  // ---------- Writing ----------

  // The low part: position i * k + t holds bit t of index i, and the padding is zero.
  function WantLow(indices: seq<int>, k: nat, p: nat): (r: nat)
    ensures r <= 1
  {
    if k == 0 || p / k >= |indices| || indices[p / k] < 0 then 0 else Bit(indices[p / k], p % k)
  }

  ghost predicate LowHolds(low: seq<Octet>, indices: seq<int>, k: nat, upto: nat) {
    forall p: nat {:trigger BitAt(low, p)} :: p / 8 < |low| ==> BitAt(low, p) == if p < upto then WantLow(indices, k, p) else 0
  }

  // Some of the first i indices has its unary bit at p.
  ghost predicate IsHigh(indices: seq<int>, k: nat, i: nat, p: nat)
    requires i <= |indices| && Sorted(indices)
  {
    exists j {:trigger HighPos(indices, j, k)} :: 0 <= j < i && HighPos(indices, j, k) == p
  }

  ghost predicate HighHolds(high: seq<Octet>, indices: seq<int>, k: nat, i: nat)
    requires i <= |indices| && Sorted(indices)
  {
    forall p: nat {:trigger BitAt(high, p)} :: p / 8 < |high| ==> (BitAt(high, p) == 1 <==> IsHigh(indices, k, i, p))
  }

  lemma LowPlace(k: nat, i: nat, t: nat)
    requires t < k
    ensures (i * k + t) / k == i && (i * k + t) % k == t
  {
    assert i * k == k * i;
    DivModUnique(i * k + t, k, i, t);
  }

  /** The low bits of one index. */
  method PutLow(low: array<Octet>, indices: seq<int>, i: nat, k: nat)
    requires Sorted(indices) && i < |indices| && low.Length == (|indices| * k + 7) / 8
    requires LowHolds(low[..], indices, k, i * k)
    modifies low
    ensures LowHolds(low[..], indices, k, i * k + k)
  {
    for t := 0 to k
      invariant LowHolds(low[..], indices, k, i * k + t)
    {
      LowPosInRange(|indices|, k, i, t);
      ByteIndex(i * k + t, |indices| * k);
      LowPlace(k, i, t);
      ghost var before := low[..];
      if Bit(indices[i], t) == 1 {
        SetBit(low, i * k + t);
      }
      forall p: nat | p / 8 < low.Length
        ensures BitAt(low[..], p) == if p < i * k + (t + 1) then WantLow(indices, k, p) else 0
      {
        assert BitAt(before, p) == if p < i * k + t then WantLow(indices, k, p) else 0;
      }
    }
  }

  lemma HighMore(indices: seq<int>, k: nat, i: nat, p: nat)
    requires Sorted(indices) && i < |indices|
    ensures IsHigh(indices, k, i + 1, p) <==> IsHigh(indices, k, i, p) || p == HighPos(indices, i, k)
  {
    if p == HighPos(indices, i, k) {
      assert IsHigh(indices, k, i + 1, p);
    }
  }

  /** The unary bit of one index. */
  method PutHigh(high: array<Octet>, indices: seq<int>, i: nat, k: nat)
    requires Sorted(indices) && i < |indices| && HighPos(indices, i, k) / 8 < high.Length
    requires HighHolds(high[..], indices, k, i)
    modifies high
    ensures HighHolds(high[..], indices, k, i + 1)
  {
    ghost var before := high[..];
    SetBit(high, Shifted(indices[i], k) + i);
    forall p: nat | p / 8 < high.Length ensures BitAt(high[..], p) == 1 <==> IsHigh(indices, k, i + 1, p) {
      HighMore(indices, k, i, p);
      assert BitAt(before, p) == 1 <==> IsHigh(indices, k, i, p);
    }
  }

  lemma ZeroBytes(s: seq<Octet>)
    requires forall j :: 0 <= j < |s| ==> s[j] == 0
    ensures forall p: nat {:trigger BitAt(s, p)} :: p / 8 < |s| ==> BitAt(s, p) == 0
  {
    forall p: nat | p / 8 < |s| ensures BitAt(s, p) == 0 { ZeroBit(p % 8); }
  }

  lemma {:induction false} ZeroBit(k: nat)
    ensures Shifted(0, k) == 0
  {
    if k > 0 { ZeroBit(k - 1); }
  }

  /** Both parts of the encoding. */
  method PutAll(indices: seq<int>, k: nat, highCount: nat) returns (low: array<Octet>, high: array<Octet>)
    requires Sorted(indices) && indices != [] && k == LowBits(|indices|, indices[|indices| - 1])
    requires highCount == HighCount(|indices|, indices[|indices| - 1])
    ensures fresh(low) && fresh(high)
    ensures low.Length == (|indices| * k + 7) / 8 && LowHolds(low[..], indices, k, |indices| * k)
    ensures high.Length == (highCount + 7) / 8 && HighHolds(high[..], indices, k, |indices|)
  {
    var n := |indices|;
    low := new Octet[(n * k + 7) / 8](_ => 0);
    high := new Octet[(highCount + 7) / 8](_ => 0);
    ZeroBytes(low[..]);
    ZeroBytes(high[..]);
    for i := 0 to n
      invariant LowHolds(low[..], indices, k, i * k) && HighHolds(high[..], indices, k, i)
    {
      PutLow(low, indices, i, k);
      HighPosInRange(indices, i);
      ByteIndex(HighPos(indices, i, k), highCount);
      PutHigh(high, indices, i, k);
      assert i * k + k == (i + 1) * k;
    }
  }

  method IsSorted(indices: seq<int>) returns (ok: bool)
    requires indices != []
    ensures ok == Sorted(indices)
  {
    if indices[0] < 0 || indices[|indices| - 1] > 0xFFFF_FFFF {
      return false;
    }
    for i := 1 to |indices|
      invariant forall a, b :: 0 <= a < b < i ==> indices[a] < indices[b]
    {
      if indices[i - 1] >= indices[i] {
        return false;
      }
    }
    forall i | 0 <= i < |indices| ensures 0 <= indices[i] <= 0xFFFF_FFFF {
      assert i == 0 || indices[0] < indices[i];
      assert i == |indices| - 1 || indices[i] < indices[|indices| - 1];
    }
    ok := true;
  }

  // A list's encoding in its four pieces.
  ghost predicate Encodes(bytes: seq<Octet>, indices: seq<int>, low: seq<Octet>, high: seq<Octet>)
    requires Sorted(indices) && indices != []
  {
    var n, maximum := |indices|, indices[|indices| - 1];
    var k := LowBits(n, maximum);
    && bytes == CompactSize(n) + CompactSize(maximum) + low + high
    && |low| == (n * k + 7) / 8 && LowHolds(low, indices, k, n * k)
    && |high| == (HighCount(n, maximum) + 7) / 8 && HighHolds(high, indices, k, n)
  }

  /** Exactly the sorted unique 32-bit lists are encoded. */
  method Encode(indices: seq<int>) returns (out: Option<seq<Octet>>, ghost lows: seq<Octet>, ghost highs: seq<Octet>)
    ensures out.Some? <==> Sorted(indices)
    ensures out.Some? <==> (forall i :: 0 <= i < |indices| ==> 0 <= indices[i] <= 4_294_967_295)
                           && (forall i, j :: 0 <= i < j < |indices| ==> indices[i] < indices[j])
    ensures out.Some? ==> if indices == [] then out.value == CompactSize(0) else Encodes(out.value, indices, lows, highs)
  {
    lows, highs := [], [];
    if indices == [] {
      return Some(CompactSize(0)), [], [];
    }
    var sorted := IsSorted(indices);
    if !sorted {
      return None, [], [];
    }
    var n, maximum := |indices|, indices[|indices| - 1];
    var quotient := (maximum + 1) / n;
    var lowBits := Log2(quotient);
    var highCount := n + Shifted(maximum, lowBits);
    var low, high := PutAll(indices, lowBits, highCount);
    lows, highs := low[..], high[..];
    out := Some(CompactSize(n) + CompactSize(maximum) + low[..] + high[..]);
  }

  // ---------- Reading back ----------

  // The positions of the ones below p.
  function Ones(high: seq<Octet>, p: nat): seq<nat>
    requires p <= 8 * |high|
  {
    if p == 0 then [] else Ones(high, p - 1) + if BitAt(high, p - 1) == 1 then [p - 1] else []
  }

  function ReadLow(low: seq<Octet>, start: nat, k: nat): nat
    requires start + k <= 8 * |low|
  {
    if k == 0 then 0 else ReadLow(low, start, k - 1) + Pow2(k - 1) * BitAt(low, start + k - 1)
  }

  function Index(low: seq<Octet>, ones: seq<nat>, k: nat, i: nat): int
    requires i < |ones| && i * k + k <= 8 * |low|
  {
    Pow2(k) * (ones[i] - i) + ReadLow(low, i * k, k)
  }

  lemma LowFits(n: nat, k: nat, i: nat, size: nat)
    requires i < n && size == (n * k + 7) / 8
    ensures i * k + k <= 8 * size
  {
    MulLe(k, i + 1, n);
    assert k * (i + 1) == i * k + k && k * n == n * k;
  }

  // The list behind a number of indices, their maximum, and the two parts.
  function ReadParts(n: nat, maximum: nat, parts: seq<Octet>): Option<seq<int>>
    requires n > 0
  {
    var k := LowBits(n, maximum);
    var lowSize, highSize := (n * k + 7) / 8, (HighCount(n, maximum) + 7) / 8;
    if |parts| != lowSize + highSize then None
    else
      var low, ones := parts[..lowSize], Ones(parts[lowSize..], HighCount(n, maximum));
      if |ones| != n then None
      else Some(seq(n, i requires 0 <= i < n => LowFits(n, k, i, |low|); Index(low, ones, k, i)))
  }

  /** The list a byte string stands for. */
  function ReadBack(bytes: seq<Octet>): Option<seq<int>> {
    match Count(bytes)
    case None => None
    case Some(c) =>
      if c.value == 0 then if c.rest == [] then Some([]) else None
      else
        match Count(c.rest)
        case None => None
        case Some(m) => ReadParts(c.value, m.value, m.rest)
  }

  // The first c unary positions are the ones below p.
  ghost predicate Passed(indices: seq<int>, k: nat, p: nat, c: nat)
    requires Sorted(indices)
  {
    && c <= |indices|
    && (forall j {:trigger HighPos(indices, j, k)} :: 0 <= j < c ==> HighPos(indices, j, k) < p)
    && (forall j {:trigger HighPos(indices, j, k)} :: c <= j < |indices| ==> HighPos(indices, j, k) >= p)
  }

  ghost function Positions(indices: seq<int>, k: nat): (r: seq<nat>)
    requires Sorted(indices)
    ensures |r| == |indices| && forall j :: 0 <= j < |r| ==> r[j] == HighPos(indices, j, k)
  {
    seq(|indices|, j requires 0 <= j < |indices| => HighPos(indices, j, k))
  }

  lemma {:induction false} OnesArePositions(high: seq<Octet>, indices: seq<int>, k: nat, p: nat) returns (c: nat)
    requires Sorted(indices) && p <= 8 * |high| && HighHolds(high, indices, k, |indices|)
    ensures Passed(indices, k, p, c) && Ones(high, p) == Positions(indices, k)[..c]
  {
    hide HighPos;
    if p == 0 {
      c := 0;
    } else {
      var q := p - 1;
      c := OnesArePositions(high, indices, k, q);
      assert BitAt(high, q) == 1 <==> IsHigh(indices, k, |indices|, q);
      if BitAt(high, q) == 1 {
        var j :| 0 <= j < |indices| && HighPos(indices, j, k) == q;
        assert j >= c;
        if j > c { HighPosIncreasing(indices, c, j, k); }
        assert j == c;
        forall i | c < i < |indices| ensures HighPos(indices, i, k) >= p { HighPosIncreasing(indices, c, i, k); }
        assert Positions(indices, k)[..c + 1] == Positions(indices, k)[..c] + [q];
        c := c + 1;
      } else {
        assert forall i :: c <= i < |indices| ==> HighPos(indices, i, k) != q;
      }
    }
  }

  lemma LowBitReads(low: seq<Octet>, indices: seq<int>, k: nat, i: nat, t: nat)
    requires Sorted(indices) && i < |indices| && t < k && |low| == (|indices| * k + 7) / 8
    requires LowHolds(low, indices, k, |indices| * k)
    ensures i * k + t < 8 * |low| && BitAt(low, i * k + t) == Bit(indices[i], t)
  {
    LowPosInRange(|indices|, k, i, t);
    LowPlace(k, i, t);
    ByteIndex(i * k + t, |indices| * k);
    assert BitAt(low, i * k + t) == WantLow(indices, k, i * k + t);
  }

  // Bits that are those of v read as the low bits of v.
  lemma {:induction false} BitsRead(low: seq<Octet>, start: nat, v: nat, t: nat)
    requires start + t <= 8 * |low| && forall u: nat {:trigger Bit(v, u)} :: u < t ==> BitAt(low, start + u) == Bit(v, u)
    ensures ReadLow(low, start, t) == LowValue(v, t)
  {
    if t > 0 { BitsRead(low, start, v, t - 1); }
  }

  lemma {:induction false} LowReads(low: seq<Octet>, indices: seq<int>, k: nat, i: nat)
    requires Sorted(indices) && i < |indices| && |low| == (|indices| * k + 7) / 8
    requires LowHolds(low, indices, k, |indices| * k)
    ensures i * k + k <= 8 * |low| && ReadLow(low, i * k, k) == LowValue(indices[i], k)
  {
    LowFits(|indices|, k, i, |low|);
    forall u: nat | u < k ensures BitAt(low, i * k + u) == Bit(indices[i], u) { LowBitReads(low, indices, k, i, u); }
    BitsRead(low, i * k, indices[i], k);
  }

  // One index from its unary and its low bits.
  lemma IndexReads(low: seq<Octet>, indices: seq<int>, k: nat, i: nat)
    requires Sorted(indices) && i < |indices| && |low| == (|indices| * k + 7) / 8
    requires LowHolds(low, indices, k, |indices| * k)
    ensures i * k + k <= 8 * |low| && Index(low, Positions(indices, k), k, i) == indices[i]
  {
    LowReads(low, indices, k, i);
    HighAndLow(indices[i], k);
  }

  lemma AllPassed(indices: seq<int>, k: nat, p: nat, c: nat)
    requires Sorted(indices) && Passed(indices, k, p, c)
    requires indices != [] && HighPos(indices, |indices| - 1, k) < p
    ensures c == |indices|
  {}

  lemma {:induction false} AllOnes(high: seq<Octet>, indices: seq<int>, k: nat, count: nat)
    requires Sorted(indices) && indices != [] && k == LowBits(|indices|, indices[|indices| - 1])
    requires count == HighCount(|indices|, indices[|indices| - 1]) && count <= 8 * |high|
    requires HighHolds(high, indices, k, |indices|)
    ensures Ones(high, count) == Positions(indices, k)
  {
    var c := OnesArePositions(high, indices, k, count);
    HighPosInRange(indices, |indices| - 1);
    AllPassed(indices, k, count, c);
    assert Positions(indices, k)[..|indices|] == Positions(indices, k);
  }

  lemma PartsRead(indices: seq<int>, low: seq<Octet>, high: seq<Octet>, n: nat, maximum: nat, k: nat)
    requires Sorted(indices) && indices != [] && n == |indices| && maximum == indices[n - 1] && k == LowBits(n, maximum)
    requires |low| == (n * k + 7) / 8 && LowHolds(low, indices, k, n * k)
    requires |high| == (HighCount(n, maximum) + 7) / 8 && HighHolds(high, indices, k, n)
    ensures ReadParts(n, maximum, low + high) == Some(indices)
  {
    var parts := low + high;
    assert parts[..|low|] == low && parts[|low|..] == high;
    AllOnes(high, indices, k, HighCount(n, maximum));
    forall i | 0 <= i < n ensures i * k + k <= 8 * |low| && Index(low, Positions(indices, k), k, i) == indices[i] {
      IndexReads(low, indices, k, i);
    }
    assert ReadParts(n, maximum, parts).value == indices;
  }

  /** Reading the low bits and the unary high bits back recovers the list. */
  lemma EncodingReadsBack(bytes: seq<Octet>, indices: seq<int>, low: seq<Octet>, high: seq<Octet>)
    requires Sorted(indices) && indices != [] && Encodes(bytes, indices, low, high)
    ensures ReadBack(bytes) == Some(indices)
  {
    var n, maximum := |indices|, indices[|indices| - 1];
    AtLeastOrdinal(indices, n - 1);
    assert bytes == CompactSize(n) + (CompactSize(maximum) + (low + high));
    SizeCounts(n, CompactSize(maximum) + (low + high));
    SizeCounts(maximum, low + high);
    PartsRead(indices, low, high, n, maximum, LowBits(n, maximum));
  }

  lemma EmptyReadsBack()
    ensures ReadBack(CompactSize(0)) == Some([])
  {
    SizeCounts(0, []);
    assert CompactSize(0) + [] == CompactSize(0);
  }
}
