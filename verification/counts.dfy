/**
 Little-endian numbers and canonical counts: the form the advice file writes,
 the wider form of the helper's files, and the reading of both.
 */
module Counts {
  import opened Wrappers

  // ---------- Little-endian numbers ----------

  function Le(n: nat, k: nat): (s: seq<Octet>)
    ensures |s| == k
  {
    if k == 0 then [] else [n % 256] + Le(n / 256, k - 1)
  }

  function FromLe(s: seq<Octet>): nat {
    if s == [] then 0 else s[0] + 256 * FromLe(s[1..])
  }

  function Pow256(k: nat): (p: nat)
    ensures p > 0
  {
    if k == 0 then 1 else 256 * Pow256(k - 1)
  }

  lemma {:induction false} LeRoundTrip(n: nat, k: nat)
    requires n < Pow256(k)
    ensures FromLe(Le(n, k)) == n
  {
    if k > 0 {
      LeRoundTrip(n / 256, k - 1);
      assert Le(n, k)[1..] == Le(n / 256, k - 1);
    }
  }

  lemma LowByte(b: Octet, n: nat)
    ensures (b + 256 * n) % 256 == b && (b + 256 * n) / 256 == n
  {}

  lemma {:induction false} FromLeRoundTrip(s: seq<Octet>)
    ensures FromLe(s) < Pow256(|s|) && Le(FromLe(s), |s|) == s
  {
    if s != [] {
      FromLeRoundTrip(s[1..]);
      LowByte(s[0], FromLe(s[1..]));
      assert s == [s[0]] + s[1..];
    }
  }

  // ---------- Canonical counts ----------

  function Compact(n: nat): seq<Octet> {
    if n < 253 then [n]
    else if n <= 65535 then [253] + Le(n, 2)
    else [254] + Le(n % 0x1_0000_0000, 4)
  }

  /** The same with the eight-byte form in place of the truncation. */
  function CompactSize(n: nat): seq<Octet> {
    if n < 0xFD then [n]
    else if n <= 0xFFFF then [0xFD] + Le(n, 2)
    else if n <= 0xFFFF_FFFF then [0xFE] + Le(n, 4)
    else [0xFF] + Le(n, 8)
  }

  // A count and what follows it.
  datatype Read = Read(value: nat, rest: seq<Octet>)

  function Width(tag: Octet): nat {
    if tag == 253 then 2 else if tag == 254 then 4 else if tag == 255 then 8 else 0
  }

  function Least(tag: Octet): nat {
    if tag == 253 then 253 else if tag == 254 then 65536 else if tag == 255 then 0x1_0000_0000 else 0
  }

  function Count(data: seq<Octet>): Option<Read> {
    if data == [] then None
    else if Width(data[0]) == 0 then Some(Read(data[0], data[1..]))
    else if |data| < 1 + Width(data[0]) then None
    else
      var value := FromLe(data[1..1 + Width(data[0])]);
      if value < Least(data[0]) then None else Some(Read(value, data[1 + Width(data[0])..]))
  }

  lemma Powers()
    ensures Pow256(2) == 0x1_0000 && Pow256(4) == 0x1_0000_0000 && Pow256(8) == 0x1_0000_0000_0000_0000
  {
    assert Pow256(1) == 256 && Pow256(3) == 256 * Pow256(2) && Pow256(5) == 256 * Pow256(4);
    assert Pow256(6) == 256 * Pow256(5) && Pow256(7) == 256 * Pow256(6);
  }

  lemma CompactIsSize(n: nat)
    requires n < 0x1_0000_0000
    ensures Compact(n) == CompactSize(n)
  {}

  /** A written size reads back, whatever follows it. */
  lemma SizeCounts(n: nat, rest: seq<Octet>)
    requires n < 0x1_0000_0000_0000_0000
    ensures Count(CompactSize(n) + rest) == Some(Read(n, rest))
  {
    Powers();
    var data := CompactSize(n) + rest;
    if n < 0xFD {
      assert data[1..] == rest;
    } else {
      var k := if n <= 0xFFFF then 2 else if n <= 0xFFFF_FFFF then 4 else 8;
      assert data[1..1 + k] == Le(n, k) && data[1 + k..] == rest;
      LeRoundTrip(n, k);
    }
  }

  /** So does a written count. */
  lemma CompactReads(n: nat, rest: seq<Octet>)
    requires n < 0x1_0000_0000
    ensures Count(Compact(n) + rest) == Some(Read(n, rest))
  {
    CompactIsSize(n);
    SizeCounts(n, rest);
  }

  /** Only the canonical form of a count reads as it, and that is the written one for every count below 2^32. */
  lemma CountCanonical(data: seq<Octet>)
    requires Count(data).Some?
    ensures var n := Count(data).value.value;
            && n < 0x1_0000_0000_0000_0000
            && data == CompactSize(n) + Count(data).value.rest
            && (n < 0x1_0000_0000 ==> CompactSize(n) == Compact(n))
  {
    Powers();
    var r, k := Count(data).value, Width(data[0]);
    if k == 0 {
      assert data == [data[0]] + data[1..];
    } else {
      FromLeRoundTrip(data[1..1 + k]);
      assert data == [data[0]] + data[1..1 + k] + data[1 + k..];
    }
    if r.value < 0x1_0000_0000 { CompactIsSize(r.value); }
  }

  // ---------- Reading at an offset, up to a limit ----------

  function ReadAt(data: seq<Octet>, offset: nat, limit: nat): Option<(nat, nat)> {
    if offset > |data| then None
    else match Count(data[offset..])
      case None => None
      case Some(r) => if r.value > limit then None else Some((r.value, |data| - |r.rest|))
  }

  method ReadCompact(data: seq<Octet>, start: nat, limit: nat) returns (out: Option<(nat, nat)>)
    ensures out == ReadAt(data, start, limit)
  {
    var offset := start;
    if offset >= |data| {
      return None;
    }
    var tag := data[offset];
    offset := offset + 1;
    var value := tag;
    if tag >= 0xFD {
      var width := if tag == 0xFD then 2 else if tag == 0xFE then 4 else 8;
      assert width == Width(data[start..][0]);
      if offset + width > |data| {
        return None;
      }
      assert data[start..][1..1 + width] == data[offset..offset + width];
      value := FromLe(data[offset..offset + width]);
      offset := offset + width;
      if (tag == 0xFD && value < 0xFD) || (tag == 0xFE && value <= 0xFFFF) || (tag == 0xFF && value <= 0xFFFF_FFFF) {
        return None;
      }
    }
    if value > limit {
      return None;
    }
    out := Some((value, offset));
  }

  /** A size written anywhere reads back, with the offset just past it, when it is within the limit. */
  lemma SizeReads(before: seq<Octet>, n: nat, rest: seq<Octet>, limit: nat)
    requires n < 0x1_0000_0000_0000_0000
    ensures ReadAt(before + CompactSize(n) + rest, |before|, limit) ==
            if n <= limit then Some((n, |before| + |CompactSize(n)|)) else None
  {
    assert (before + CompactSize(n) + rest)[|before|..] == CompactSize(n) + rest;
    SizeCounts(n, rest);
  }

  /** What reads as a size is the written size, within the limit. */
  lemma ReadIsWritten(data: seq<Octet>, offset: nat, limit: nat)
    requires ReadAt(data, offset, limit).Some?
    ensures var (n, end) := ReadAt(data, offset, limit).value;
            n <= limit && offset <= end <= |data| && data[offset..end] == CompactSize(n)
  {
    CountCanonical(data[offset..]);
    var r := Count(data[offset..]).value;
    var end := |data| - |r.rest|;
    assert data[offset..end] == data[offset..][..end - offset];
  }
}
