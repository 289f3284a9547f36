/**
 The advice frame: canonical counts, two bits for each hint packed four to a
 byte, and the escaped hints after them.
 */
module Codec {
  import opened Wrappers
  import opened Arith
  import opened Counts

  const MAX_FRAME := 0x10_0000
  const MAX_CHECKS := 80_000
  const MAX_BLOCK_CHECKS := 500_000
  const MAX_TRANSACTIONS := 100_000

  type Hints = seq<seq<Octet>>

  // ---------- Symbols ----------

  predicate Known(hint: Octet) { hint <= 3 || hint == 255 }

  function Symbol(hint: Octet): (s: nat)
    requires Known(hint)
    ensures s <= 3
  {
    if hint <= 1 then hint else if hint == 255 then 2 else 3
  }

  ghost predicate AllKnown(flat: seq<Octet>) {
    forall i :: 0 <= i < |flat| ==> Known(flat[i])
  }

  ghost function Symbols(flat: seq<Octet>): (s: seq<nat>)
    requires AllKnown(flat)
    ensures |s| == |flat| && forall i :: 0 <= i < |s| ==> s[i] == Symbol(flat[i])
  {
    seq(|flat|, i requires 0 <= i < |flat| => Symbol(flat[i]))
  }

  function EscapeOf(hint: Octet): seq<Octet> {
    if hint == 2 || hint == 3 then [hint] else []
  }

  // The hints 2 and 3 in order.
  function Escapes(flat: seq<Octet>): seq<Octet> {
    if flat == [] then [] else EscapeOf(flat[0]) + Escapes(flat[1..])
  }

  // ---------- Packing ----------

  function PackedSize(n: nat): nat { (n + 3) / 4 }

  function SymbolOr0(s: seq<nat>, i: nat): nat { if i < |s| then s[i] else 0 }

  // Byte j of the packing: symbols 4j to 4j + 3, the first in the low bits.
  function PackedByte(s: seq<nat>, j: nat): nat {
    SymbolOr0(s, 4 * j) + 4 * SymbolOr0(s, 4 * j + 1) + 16 * SymbolOr0(s, 4 * j + 2) + 64 * SymbolOr0(s, 4 * j + 3)
  }

  ghost predicate Small(s: seq<nat>) {
    forall i :: 0 <= i < |s| ==> s[i] <= 3
  }

  ghost function Packed(s: seq<nat>, size: nat): (p: seq<Octet>)
    requires Small(s)
    ensures |p| == size && forall j :: 0 <= j < size ==> p[j] == PackedByte(s, j)
  {
    forall j: nat ensures PackedByte(s, j) < 256 {}
    seq(size, j requires 0 <= j < size => PackedByte(s, j))
  }

  // Two bits of a byte, and everything from them up.
  function Digit(b: Octet, k: nat): (s: nat)
    ensures s <= 3
  {
    Above(b, k) % 4
  }

  function Above(b: Octet, k: nat): nat {
    if k == 0 then b else if k == 1 then b / 4 else if k == 2 then b / 16 else b / 64
  }

  function SymbolAt(packed: seq<Octet>, i: nat): (s: nat)
    requires i / 4 < |packed|
    ensures s <= 3
  {
    Digit(packed[i / 4], i % 4)
  }

  lemma Digits(a: nat, b: nat, c: nat, d: nat)
    requires a <= 3 && b <= 3 && c <= 3 && d <= 3
    ensures var x := a + 4 * b + 16 * c + 64 * d; x % 4 == a && x / 4 % 4 == b && x / 16 % 4 == c && x / 64 % 4 == d
  {
    var x := a + 4 * b + 16 * c + 64 * d;
    assert x / 4 == b + 4 * c + 16 * d;
    assert x / 16 == c + 4 * d;
    assert x / 64 == d;
  }

  lemma PackedSymbol(s: seq<nat>, size: nat, i: nat)
    requires Small(s) && i < |s| && i / 4 < size
    ensures SymbolAt(Packed(s, size), i) == s[i]
  {
    var j, k := i / 4, i % 4;
    assert i == 4 * j + k;
    Digits(SymbolOr0(s, 4 * j), SymbolOr0(s, 4 * j + 1), SymbolOr0(s, 4 * j + 2), SymbolOr0(s, 4 * j + 3));
    assert SymbolAt(Packed(s, size), i) == Digit(PackedByte(s, j), k);
  }

  // ---------- The frame ----------

  function Flatten(hints: Hints): seq<Octet> {
    if hints == [] then [] else hints[0] + Flatten(hints[1..])
  }

  ghost function Lens(hints: Hints): (l: seq<nat>)
    ensures |l| == |hints| && forall i :: 0 <= i < |l| ==> l[i] == |hints[i]|
  {
    seq(|hints|, i requires 0 <= i < |hints| => |hints[i]|)
  }

  function Total(lens: seq<nat>): nat {
    if lens == [] then 0 else lens[0] + Total(lens[1..])
  }

  function CountBytes(lens: seq<nat>): seq<Octet> {
    if lens == [] then [] else Compact(lens[0]) + CountBytes(lens[1..])
  }

  // Every transaction within its bound, and the block within its own after `total` checks.
  predicate Bounded(lens: seq<nat>, total: nat)
    decreases lens
  {
    if lens == [] then total <= MAX_BLOCK_CHECKS
    else lens[0] <= MAX_CHECKS && total + lens[0] <= MAX_BLOCK_CHECKS && Bounded(lens[1..], total + lens[0])
  }

  lemma {:induction false} BoundedMeans(lens: seq<nat>, total: nat)
    ensures Bounded(lens, total) <==>
              (forall i :: 0 <= i < |lens| ==> lens[i] <= MAX_CHECKS) && total + Total(lens) <= MAX_BLOCK_CHECKS
    decreases lens
  {
    if lens != [] {
      BoundedMeans(lens[1..], total + lens[0]);
      assert lens == [lens[0]] + lens[1..];
      if Bounded(lens, total) {
        forall i | 0 <= i < |lens| ensures lens[i] <= MAX_CHECKS {
          if i > 0 { assert lens[i] == lens[1..][i - 1]; }
        }
      }
    }
  }

  ghost predicate Encodable(hints: Hints) {
    Bounded(Lens(hints), 0) && AllKnown(Flatten(hints))
  }

  ghost function PackedHints(hints: Hints): seq<Octet>
    requires AllKnown(Flatten(hints))
  {
    var flat := Flatten(hints);
    Packed(Symbols(flat), PackedSize(|flat|)) + Escapes(flat)
  }

  ghost function Body(hints: Hints): seq<Octet>
    requires Encodable(hints)
  {
    Compact(|hints|) + CountBytes(Lens(hints)) + PackedHints(hints)
  }

  // ---------- Reading a frame back ----------

  // k lengths within the bounds, `total` checks having come before them.
  datatype Lengths = Lengths(lens: seq<nat>, rest: seq<Octet>)

  function ReadLengths(data: seq<Octet>, k: nat, total: nat): Option<Lengths> {
    if k == 0 then Some(Lengths([], data))
    else
      match Count(data)
      case None => None
      case Some(r) =>
        if r.value > MAX_CHECKS || total + r.value > MAX_BLOCK_CHECKS then None
        else
          match ReadLengths(r.rest, k - 1, total + r.value)
          case None => None
          case Some(l) => Some(Lengths([r.value] + l.lens, l.rest))
  }

  // The hints from position i on, every escape used and none left.
  function ReadFlat(packed: seq<Octet>, total: nat, i: nat, escapes: seq<Octet>): (r: Option<seq<Octet>>)
    requires i <= total && total <= 4 * |packed|
    ensures r.Some? ==> |r.value| == total - i
    decreases total - i
  {
    if i == total then if escapes == [] then Some([]) else None
    else
      var symbol := SymbolAt(packed, i);
      if symbol == 3 && (escapes == [] || (escapes[0] != 2 && escapes[0] != 3)) then None
      else
        match ReadFlat(packed, total, i + 1, if symbol == 3 then escapes[1..] else escapes)
        case None => None
        case Some(flat) => Some([if symbol == 3 then escapes[0] else if symbol == 2 then 255 else symbol] + flat)
  }

  function Split(flat: seq<Octet>, lens: seq<nat>): (hints: Hints)
    requires |flat| == Total(lens)
    decreases lens
  {
    if lens == [] then [] else [flat[..lens[0]]] + Split(flat[lens[0]..], lens[1..])
  }

  function PaddingZero(packed: seq<Octet>, total: nat): bool
    requires PackedSize(total) == |packed|
  {
    total % 4 == 0 || Above(packed[|packed| - 1], total % 4) == 0
  }

  // The packed hints and escapes after the counts.
  function ReadHints(lens: seq<nat>, data: seq<Octet>): Option<Hints> {
    var total := Total(lens);
    var size := PackedSize(total);
    if size > |data| || !PaddingZero(data[..size], total) then None
    else
      match ReadFlat(data[..size], total, 0, data[size..])
      case None => None
      case Some(flat) => Some(Split(flat, lens))
  }

  /** What a body stands for, for a block of the expected number of transactions. */
  function Parse(data: seq<Octet>, expected: nat): Option<Hints> {
    match Count(data)
    case None => None
    case Some(n) =>
      if n.value != expected || n.value > MAX_TRANSACTIONS then None
      else
        match ReadLengths(n.rest, n.value, 0)
        case None => None
        case Some(l) => ReadHints(l.lens, l.rest)
  }

  // ---------- Reading what was written ----------

  lemma {:induction false} TotalIsFlat(hints: Hints)
    ensures Total(Lens(hints)) == |Flatten(hints)|
  {
    if hints != [] {
      TotalIsFlat(hints[1..]);
      assert Lens(hints)[1..] == Lens(hints[1..]);
    }
  }

  lemma {:induction false} LengthsRead(lens: seq<nat>, total: nat, rest: seq<Octet>)
    requires Bounded(lens, total)
    ensures ReadLengths(CountBytes(lens) + rest, |lens|, total) == Some(Lengths(lens, rest))
    decreases |lens|
  {
    hide Compact, Count;
    if lens == [] {
      assert CountBytes(lens) + rest == rest;
    } else {
      var more := CountBytes(lens[1..]) + rest;
      assert CountBytes(lens) + rest == Compact(lens[0]) + more;
      CompactReads(lens[0], more);
      LengthsRead(lens[1..], total + lens[0], rest);
      assert [lens[0]] + lens[1..] == lens;
    }
  }

  lemma EscapesStep(flat: seq<Octet>, i: nat)
    requires i < |flat|
    ensures Escapes(flat[i..]) == EscapeOf(flat[i]) + Escapes(flat[i + 1..])
    ensures flat[i..] == [flat[i]] + flat[i + 1..]
  {
    assert flat[i..][1..] == flat[i + 1..];
  }

  lemma {:induction false} FlatRead(flat: seq<Octet>, packed: seq<Octet>, i: nat)
    requires i <= |flat| <= 4 * |packed| && AllKnown(flat)
    requires forall k {:trigger SymbolAt(packed, k)} :: 0 <= k < |flat| ==> SymbolAt(packed, k) == Symbol(flat[k])
    ensures ReadFlat(packed, |flat|, i, Escapes(flat[i..])) == Some(flat[i..])
    decreases |flat| - i
  {
    if i == |flat| {
      assert flat[i..] == [];
    } else {
      FlatRead(flat, packed, i + 1);
      EscapesStep(flat, i);
      assert SymbolAt(packed, i) == Symbol(flat[i]);
      var e := Escapes(flat[i..]);
      if flat[i] == 2 || flat[i] == 3 {
        assert e[0] == flat[i] && e[1..] == Escapes(flat[i + 1..]);
        assert ReadFlat(packed, |flat|, i, e) == Some([flat[i]] + flat[i + 1..]);
      } else {
        assert e == Escapes(flat[i + 1..]);
        assert ReadFlat(packed, |flat|, i, e) == Some([flat[i]] + flat[i + 1..]);
      }
    }
  }

  lemma {:induction false} SplitFlatten(hints: Hints)
    requires |Flatten(hints)| == Total(Lens(hints))
    ensures Split(Flatten(hints), Lens(hints)) == hints
  {
    if hints != [] {
      TotalIsFlat(hints[1..]);
      assert Lens(hints)[1..] == Lens(hints[1..]);
      assert Flatten(hints)[..|hints[0]|] == hints[0] && Flatten(hints)[|hints[0]|..] == Flatten(hints[1..]);
      SplitFlatten(hints[1..]);
    }
  }

  lemma PaddingWritten(s: seq<nat>)
    requires Small(s)
    ensures PaddingZero(Packed(s, PackedSize(|s|)), |s|)
  {
    if |s| % 4 != 0 {
      var j := PackedSize(|s|) - 1;
      assert |s| == 4 * j + |s| % 4;
      assert Packed(s, PackedSize(|s|))[j] == PackedByte(s, j);
    }
  }

  lemma {:induction false} HintsRead(hints: Hints)
    requires AllKnown(Flatten(hints))
    ensures ReadHints(Lens(hints), PackedHints(hints)) == Some(hints)
  {
    var flat := Flatten(hints);
    var size := PackedSize(|flat|);
    var packed, escapes := Packed(Symbols(flat), size), Escapes(flat);
    TotalIsFlat(hints);
    assert (packed + escapes)[..size] == packed && (packed + escapes)[size..] == escapes;
    PaddingWritten(Symbols(flat));
    assert flat[0..] == flat;
    forall k | 0 <= k < |flat| ensures SymbolAt(packed, k) == Symbol(flat[k]) {
      PackedSymbol(Symbols(flat), size, k);
    }
    FlatRead(flat, packed, 0);
    SplitFlatten(hints);
  }

  /** Every encodable list of at most 100,000 transactions reads back as itself. */
  lemma ParseBody(hints: Hints)
    requires Encodable(hints) && |hints| <= MAX_TRANSACTIONS
    ensures Parse(Body(hints), |hints|) == Some(hints)
  {
    var tail := PackedHints(hints);
    assert Body(hints) == Compact(|hints|) + (CountBytes(Lens(hints)) + tail);
    CompactReads(|hints|, CountBytes(Lens(hints)) + tail);
    LengthsRead(Lens(hints), 0, tail);
    HintsRead(hints);
  }

  // ---------- Writing what was read ----------

  lemma {:induction false} OneMoreLength(data: seq<Octet>, r: Read, l: Lengths, total: nat)
    requires data == Compact(r.value) + r.rest && r.rest == CountBytes(l.lens) + l.rest
    requires r.value <= MAX_CHECKS && total + r.value <= MAX_BLOCK_CHECKS && Bounded(l.lens, total + r.value)
    ensures data == CountBytes([r.value] + l.lens) + l.rest && Bounded([r.value] + l.lens, total)
  {
    assert ([r.value] + l.lens)[1..] == l.lens;
    assert data == Compact(r.value) + (CountBytes(l.lens) + l.rest);
  }

  lemma {:induction false} LengthsWritten(data: seq<Octet>, k: nat, total: nat)
    requires ReadLengths(data, k, total).Some? && total <= MAX_BLOCK_CHECKS
    ensures var l := ReadLengths(data, k, total).value;
            |l.lens| == k && data == CountBytes(l.lens) + l.rest && Bounded(l.lens, total)
    decreases k
  {
    if k > 0 {
      var r := Count(data).value;
      CountCanonical(data);
      LengthsWritten(r.rest, k - 1, total + r.value);
      OneMoreLength(data, r, ReadLengths(r.rest, k - 1, total + r.value).value, total);
    }
  }

  // The symbols from position i on are those of the hints.
  ghost predicate SymbolsFrom(flat: seq<Octet>, packed: seq<Octet>, i: nat)
    requires (i + |flat| + 3) / 4 <= |packed|
  {
    forall k {:trigger flat[k]} :: 0 <= k < |flat| ==> Known(flat[k]) && Symbol(flat[k]) == SymbolAt(packed, i + k)
  }

  lemma OneMoreSymbol(h: Octet, flat: seq<Octet>, packed: seq<Octet>, i: nat)
    requires (i + 1 + |flat| + 3) / 4 <= |packed| && SymbolsFrom(flat, packed, i + 1)
    requires Known(h) && Symbol(h) == SymbolAt(packed, i)
    ensures SymbolsFrom([h] + flat, packed, i)
  {}

  lemma {:induction false} FlatWritten(packed: seq<Octet>, total: nat, i: nat, escapes: seq<Octet>)
    requires i <= total <= 4 * |packed| && ReadFlat(packed, total, i, escapes).Some?
    ensures var flat := ReadFlat(packed, total, i, escapes).value; SymbolsFrom(flat, packed, i) && escapes == Escapes(flat)
    decreases total - i
  {
    hide Digit;
    if i < total {
      var escaped := SymbolAt(packed, i) == 3;
      var rest := if escaped then escapes[1..] else escapes;
      FlatWritten(packed, total, i + 1, rest);
      var flat := ReadFlat(packed, total, i + 1, rest).value;
      var h := if escaped then escapes[0] else if SymbolAt(packed, i) == 2 then 255 else SymbolAt(packed, i);
      OneMoreSymbol(h, flat, packed, i);
      assert ([h] + flat)[1..] == flat;
      if escaped { assert escapes == [escapes[0]] + rest; }
    }
  }

  lemma {:induction false} SplitShape(flat: seq<Octet>, lens: seq<nat>)
    requires |flat| == Total(lens)
    ensures Lens(Split(flat, lens)) == lens && Flatten(Split(flat, lens)) == flat
    decreases lens
  {
    if lens != [] {
      var h := Split(flat, lens);
      SplitShape(flat[lens[0]..], lens[1..]);
      assert h[1..] == Split(flat[lens[0]..], lens[1..]);
      assert Lens(h) == [lens[0]] + Lens(h[1..]);
    }
  }

  // A byte is its four symbols.
  lemma ByteOfSymbols(b: Octet)
    ensures b == Digit(b, 0) + 4 * Digit(b, 1) + 16 * Digit(b, 2) + 64 * Digit(b, 3)
  {
    var p, q, r := b / 4, b / 16, b / 64;
    assert q == p / 4 && r == q / 4 && r < 4;
    assert b == 4 * p + b % 4 && p == 4 * q + p % 4 && q == 4 * r + q % 4;
  }

  // Symbols past the end are zero when the padding is.
  lemma PastTheEnd(b: Octet, used: nat, k: nat)
    requires 0 < used <= k < 4 && Above(b, used) == 0
    ensures Digit(b, k) == 0
  {}

  lemma SymbolOfByte(packed: seq<Octet>, total: nat, s: seq<nat>, j: nat, k: nat)
    requires |packed| == PackedSize(total) && PaddingZero(packed, total) && |s| == total && j < |packed| && k < 4
    requires forall i {:trigger SymbolAt(packed, i)} :: 0 <= i < total ==> s[i] == SymbolAt(packed, i)
    ensures SymbolOr0(s, 4 * j + k) == Digit(packed[j], k)
  {
    var i := 4 * j + k;
    assert i / 4 == j && i % 4 == k;
    if i < total {
      assert s[i] == SymbolAt(packed, i);
    } else {
      PastTheEnd(packed[j], total % 4, k);
    }
  }

  lemma Repacked(packed: seq<Octet>, total: nat, s: seq<nat>)
    requires |packed| == PackedSize(total) && PaddingZero(packed, total) && |s| == total && Small(s)
    requires forall i {:trigger SymbolAt(packed, i)} :: 0 <= i < total ==> s[i] == SymbolAt(packed, i)
    ensures Packed(s, |packed|) == packed
  {
    forall j | 0 <= j < |packed| ensures PackedByte(s, j) == packed[j] {
      SymbolOfByte(packed, total, s, j, 0);
      SymbolOfByte(packed, total, s, j, 1);
      SymbolOfByte(packed, total, s, j, 2);
      SymbolOfByte(packed, total, s, j, 3);
      ByteOfSymbols(packed[j]);
    }
  }

  lemma HintsWritten(lens: seq<nat>, data: seq<Octet>)
    requires ReadHints(lens, data).Some?
    ensures var hints := ReadHints(lens, data).value;
            Lens(hints) == lens && AllKnown(Flatten(hints)) && data == PackedHints(hints)
  {
    hide Digit, ReadFlat, Packed;
    var total := Total(lens);
    var size := PackedSize(total);
    var packed, escapes := data[..size], data[size..];
    var flat := ReadFlat(packed, total, 0, escapes).value;
    SplitShape(flat, lens);
    FlatWritten(packed, total, 0, escapes);
    forall i | 0 <= i < total ensures Symbols(flat)[i] == SymbolAt(packed, i) {
      assert Known(flat[i]) && Symbol(flat[i]) == SymbolAt(packed, 0 + i);
    }
    Repacked(packed, total, Symbols(flat));
    assert data == packed + escapes;
  }

  /** A body that reads as some hints is byte for byte the body written for them. */
  lemma BodyOfParse(data: seq<Octet>, expected: nat)
    requires Parse(data, expected).Some?
    ensures var hints := Parse(data, expected).value;
            Encodable(hints) && |hints| == expected <= MAX_TRANSACTIONS && data == Body(hints)
  {
    var n := Count(data).value;
    CountCanonical(data);
    var l := ReadLengths(n.rest, n.value, 0).value;
    LengthsWritten(n.rest, n.value, 0);
    HintsWritten(l.lens, l.rest);
    var hints := ReadHints(l.lens, l.rest).value;
    assert |Lens(hints)| == |hints|;
    assert data == Compact(|hints|) + (CountBytes(Lens(hints)) + PackedHints(hints));
  }

  lemma ManyRefused(data: seq<Octet>, expected: nat)
    requires expected > MAX_TRANSACTIONS
    ensures Parse(data, expected).None?
  {}
}
