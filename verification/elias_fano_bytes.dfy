/** The bytes of an Elias-Fano encoding, bit by bit and in plain arithmetic. */
module EliasFanoBytes {
  import opened Wrappers
  import opened Arith
  import opened Counts
  import opened EliasFano
  import FrameBytes

  // ---------- Bits ----------

  lemma HalfOfQuotient(v: nat, p: nat)
    requires p > 0
    ensures v / p / 2 == v / (2 * p)
  {
    var q, h := v / p, v / p / 2;
    DivMod(v, p);
    assert q == 2 * h + q % 2;
    assert p * q == 2 * p * h + p * (q % 2) by { MulAdd(p, 2 * h, q % 2); assert p * (2 * h) == 2 * p * h; }
    MulLe(p, q % 2, 1);
    MulNonNegative(p, q % 2);
    DivModUnique(v, 2 * p, h, v - 2 * p * h);
  }

  /** A shift is a division by a power of two. */
  lemma {:induction false} ShiftMeans(v: nat, k: nat)
    ensures Shifted(v, k) == v / Pow2(k)
  {
    if k > 0 {
      ShiftMeans(v, k - 1);
      HalfOfQuotient(v, Pow2(k - 1));
    }
  }

  // Bit p of a byte string, byte p / 8 first and the low bit of each byte first.
  function PlainBit(s: seq<Octet>, p: nat): nat
    requires p / 8 < |s|
  {
    s[p / 8] / Pow2(p % 8) % 2
  }

  lemma BitMeans(s: seq<Octet>, p: nat)
    requires p / 8 < |s|
    ensures BitAt(s, p) == PlainBit(s, p)
  {
    ShiftMeans(s[p / 8], p % 8);
  }

  // ---------- Sizes ----------

  predicate IsSize(bytes: seq<Octet>, n: nat) {
    if n < 0x1_0000_0000 then FrameBytes.IsCount(bytes, n)
    else
      && |bytes| == 9 && bytes[0] == 255
      && bytes[1..5] == [n % 256, n / 256 % 256, n / 65_536 % 256, n / 16_777_216 % 256]
      && bytes[5..] == [n / 0x1_0000_0000 % 256, n / 0x100_0000_0000 % 256, n / 0x1_0000_0000_0000 % 256, n / 0x100_0000_0000_0000 % 256]
  }

  lemma LeStep(n: nat, k: nat)
    requires k > 0
    ensures Le(n, k) == [n % 256] + Le(n / 256, k - 1)
  {}

  lemma Quotients(n: nat)
    ensures n / 256 / 256 == n / 65_536 && n / 65_536 / 256 == n / 16_777_216 && n / 16_777_216 / 256 == n / 0x1_0000_0000
  {}

  lemma {:induction false} LeFourOf(n: nat, more: nat)
    ensures Le(n, 4 + more) == [n % 256, n / 256 % 256, n / 65_536 % 256, n / 16_777_216 % 256] + Le(n / 0x1_0000_0000, more)
  {
    hide Le;
    Quotients(n);
    LeStep(n, 4 + more);
    LeStep(n / 256, 3 + more);
    LeStep(n / 65_536, 2 + more);
    LeStep(n / 16_777_216, 1 + more);
    assert Le(n, 4 + more) == [n % 256] + ([n / 256 % 256] + ([n / 65_536 % 256] + ([n / 16_777_216 % 256] + Le(n / 0x1_0000_0000, more))));
  }

  lemma SizeBytes(n: nat)
    ensures IsSize(CompactSize(n), n)
  {
    if n < 0x1_0000_0000 {
      CompactIsSize(n);
      FrameBytes.CompactBytes(n);
    } else {
      LeFourOf(n, 4);
      LeFourOf(n / 0x1_0000_0000, 0);
      var high := n / 0x1_0000_0000;
      assert high / 256 == n / 0x100_0000_0000 && high / 65_536 == n / 0x1_0000_0000_0000 && high / 16_777_216 == n / 0x100_0000_0000_0000;
      assert Le(high / 0x1_0000_0000, 0) == [];
    }
  }

  // ---------- The encoding ----------

  // k low bits: the largest k with n 2^k at most maximum + 1.
  predicate IsLowWidth(n: nat, maximum: nat, k: nat) {
    n * Pow2(k) <= maximum + 1 < n * Pow2(k + 1)
  }

  lemma LowWidth(n: nat, maximum: nat)
    requires 0 < n <= maximum + 1
    ensures IsLowWidth(n, maximum, LowBits(n, maximum))
  {
    var q, k := (maximum + 1) / n, LowBits(n, maximum);
    DivMod(maximum + 1, n);
    if q <= 0 { MulLe(n, q, 0); }
    Log2Bounds(q);
    MulLe(n, Pow2(k), q);
    MulLe(n, q + 1, Pow2(k + 1));
    MulAdd(n, q, 1);
  }

  // Bit t of index i is bit i k + t of the low part, whose last bits are zero.
  ghost predicate LowPart(low: seq<Octet>, indices: seq<int>, k: nat) {
    && |low| == (|indices| * k + 7) / 8
    && (forall i, t {:trigger LowBitOf(low, indices, k, i, t)} :: 0 <= i < |indices| && 0 <= t < k ==> LowBitOf(low, indices, k, i, t))
    && (forall p: nat {:trigger PlainBit(low, p)} :: |indices| * k <= p && p / 8 < |low| ==> PlainBit(low, p) == 0)
  }

  ghost predicate LowBitOf(low: seq<Octet>, indices: seq<int>, k: nat, i: int, t: int) {
    && 0 <= i < |indices| && 0 <= t && 0 <= i * k + t && (i * k + t) / 8 < |low|
    && PlainBit(low, i * k + t) == indices[i] / Pow2(t) % 2
  }

  // The ones of the high part are at the indices' upper parts plus their ordinals.
  ghost predicate HighPart(high: seq<Octet>, indices: seq<int>, k: nat) {
    && indices != [] && indices[|indices| - 1] >= 0
    && |high| == (|indices| + indices[|indices| - 1] / Pow2(k) + 7) / 8
    && forall p: nat {:trigger PlainBit(high, p)} :: p / 8 < |high| ==>
         (PlainBit(high, p) == 1 <==> exists i {:trigger indices[i]} :: 0 <= i < |indices| && indices[i] / Pow2(k) + i == p)
  }

  ghost predicate Encoding(bytes: seq<Octet>, indices: seq<int>, k: nat, count: seq<Octet>, maximum: seq<Octet>,
                           low: seq<Octet>, high: seq<Octet>)
    requires indices != [] && indices[|indices| - 1] >= 0
  {
    && IsLowWidth(|indices|, indices[|indices| - 1], k)
    && IsSize(count, |indices|) && IsSize(maximum, indices[|indices| - 1])
    && LowPart(low, indices, k) && HighPart(high, indices, k)
    && bytes == count + maximum + low + high
  }

  lemma LowIsPart(low: seq<Octet>, indices: seq<int>, k: nat)
    requires Sorted(indices) && |low| == (|indices| * k + 7) / 8 && LowHolds(low, indices, k, |indices| * k)
    ensures LowPart(low, indices, k)
  {
    forall i, t | 0 <= i < |indices| && 0 <= t < k ensures LowBitOf(low, indices, k, i, t) {
      LowBitReads(low, indices, k, i, t);
      BitMeans(low, i * k + t);
      ShiftMeans(indices[i], t);
    }
    forall p: nat | |indices| * k <= p && p / 8 < |low| ensures PlainBit(low, p) == 0 {
      BitMeans(low, p);
      assert BitAt(low, p) == 0;
    }
  }

  lemma {:induction false} HighIsPart(high: seq<Octet>, indices: seq<int>, k: nat)
    requires Sorted(indices) && indices != [] && HighHolds(high, indices, k, |indices|)
    requires |high| == (|indices| + Shifted(indices[|indices| - 1], k) + 7) / 8
    ensures HighPart(high, indices, k)
  {
    ShiftMeans(indices[|indices| - 1], k);
    forall p: nat | p / 8 < |high|
      ensures PlainBit(high, p) == 1 <==> exists i {:trigger indices[i]} :: 0 <= i < |indices| && indices[i] / Pow2(k) + i == p
    {
      BitMeans(high, p);
      assert BitAt(high, p) == 1 <==> IsHigh(indices, k, |indices|, p);
      forall i | 0 <= i < |indices| ensures HighPos(indices, i, k) == indices[i] / Pow2(k) + i { ShiftMeans(indices[i], k); }
      if IsHigh(indices, k, |indices|, p) {
        var i :| 0 <= i < |indices| && HighPos(indices, i, k) == p;
        assert indices[i] / Pow2(k) + i == p;
      }
      if i :| 0 <= i < |indices| && indices[i] / Pow2(k) + i == p {
        assert HighPos(indices, i, k) == p;
      }
    }
  }

  /** What is encoded for a list is the two sizes, the low bits of its indices and the ones at their upper parts. */
  lemma EncodedBytes(bytes: seq<Octet>, indices: seq<int>, low: seq<Octet>, high: seq<Octet>)
    requires Sorted(indices) && indices != [] && Encodes(bytes, indices, low, high)
    ensures var n, maximum := |indices|, indices[|indices| - 1];
            Encoding(bytes, indices, LowBits(n, maximum), CompactSize(n), CompactSize(maximum), low, high)
  {
    var n, maximum := |indices|, indices[|indices| - 1];
    AtLeastOrdinal(indices, n - 1);
    LowWidth(n, maximum);
    SizeBytes(n);
    SizeBytes(maximum);
    LowIsPart(low, indices, LowBits(n, maximum));
    HighIsPart(high, indices, LowBits(n, maximum));
  }
}
