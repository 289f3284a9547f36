/**
 The bytes of an advice frame, position by position: which bytes a count has,
 where each hint's two bits are and what they hold, and where the escapes are.
 */
module FrameBytes {
  import opened Wrappers
  import opened Arith
  import opened Counts
  import opened Codec
  import opened Frames
  import Readers

  // ---------- Strings joined end to end ----------

  // `whole` is the parts one after the other, part t from start[t] to start[t + 1].
  ghost predicate Joined(parts: seq<seq<Octet>>, start: seq<nat>, whole: seq<Octet>) {
    && |start| == |parts| + 1 && start[0] == 0 && start[|parts|] == |whole|
    && forall t {:trigger JoinedAt(parts, start, whole, t)} :: 0 <= t < |parts| ==> JoinedAt(parts, start, whole, t)
  }

  ghost predicate JoinedAt(parts: seq<seq<Octet>>, start: seq<nat>, whole: seq<Octet>, t: int) {
    0 <= t < |parts| && t + 1 < |start| && start[t] <= start[t + 1] <= |whole| && whole[start[t]..start[t + 1]] == parts[t]
  }

  lemma JoinedMore(parts: seq<seq<Octet>>, start: seq<nat>, whole: seq<Octet>, part: seq<Octet>)
    requires Joined(parts, start, whole)
    ensures Joined(parts + [part], start + [|whole| + |part|], whole + part)
  {
    var parts', start', whole' := parts + [part], start + [|whole| + |part|], whole + part;
    forall t | 0 <= t < |parts'| ensures JoinedAt(parts', start', whole', t) {
      if t < |parts| {
        assert JoinedAt(parts, start, whole, t);
        assert whole'[start[t]..start[t + 1]] == whole[start[t]..start[t + 1]];
      }
    }
  }

  lemma JoinedLess(parts: seq<seq<Octet>>, start: seq<nat>, whole: seq<Octet>)
    requires parts != [] && Joined(parts, start, whole)
    ensures var k := |parts| - 1;
            && start[k] <= |whole| && whole == whole[..start[k]] + parts[k]
            && Joined(parts[..k], start[..k + 1], whole[..start[k]])
  {
    var k := |parts| - 1;
    assert JoinedAt(parts, start, whole, k);
    StartsBelow(parts, start, whole, k);
    var parts', start', whole' := parts[..k], start[..k + 1], whole[..start[k]];
    forall t | 0 <= t < k ensures JoinedAt(parts', start', whole', t) {
      assert JoinedAt(parts, start, whole, t);
      StartsBelow(parts, start, whole, k);
    }
  }

  lemma {:induction false} StartsBelow(parts: seq<seq<Octet>>, start: seq<nat>, whole: seq<Octet>, k: nat)
    requires Joined(parts, start, whole) && k <= |parts|
    ensures forall t :: 0 <= t <= k ==> start[t] <= start[k]
  {
    if k > 0 {
      StartsBelow(parts, start, whole, k - 1);
      assert JoinedAt(parts, start, whole, k - 1);
    }
  }

  /** Parts are joined in one way only. */
  lemma {:induction false} JoinedUnique(parts: seq<seq<Octet>>, start: seq<nat>, whole: seq<Octet>, start': seq<nat>, whole': seq<Octet>)
    requires Joined(parts, start, whole) && Joined(parts, start', whole')
    ensures whole == whole'
    decreases |parts|
  {
    if parts != [] {
      var k := |parts| - 1;
      JoinedLess(parts, start, whole);
      JoinedLess(parts, start', whole');
      JoinedUnique(parts[..k], start[..k + 1], whole[..start[k]], start'[..k + 1], whole'[..start'[k]]);
    }
  }

  lemma {:induction false} FlattenAppend(parts: seq<seq<Octet>>, part: seq<Octet>)
    ensures Flatten(parts + [part]) == Flatten(parts) + part
    decreases |parts|
  {
    if parts == [] {
      assert [part][1..] == [] && Flatten([part]) == part + [];
    } else {
      assert (parts + [part])[1..] == parts[1..] + [part];
      FlattenAppend(parts[1..], part);
    }
  }

  lemma {:induction false} FlattenIsJoined(parts: seq<seq<Octet>>) returns (start: seq<nat>)
    ensures Joined(parts, start, Flatten(parts))
    decreases |parts|
  {
    if parts == [] {
      start := [0];
    } else {
      var k := |parts| - 1;
      var before := FlattenIsJoined(parts[..k]);
      assert parts == parts[..k] + [parts[k]];
      FlattenAppend(parts[..k], parts[k]);
      JoinedMore(parts[..k], before, Flatten(parts[..k]), parts[k]);
      start := before + [|Flatten(parts)|];
    }
  }

  // ---------- Counts ----------

  // The bytes of a count.
  predicate IsCount(bytes: seq<Octet>, n: nat) {
    if n <= 252 then bytes == [n]
    else if n <= 65_535 then bytes == [253, n % 256, n / 256]
    else n < 0x1_0000_0000 && bytes == [254, n % 256, n / 256 % 256, n / 65_536 % 256, n / 16_777_216]
  }

  lemma CompactBytes(n: nat)
    requires n < 0x1_0000_0000
    ensures IsCount(Compact(n), n)
  {
    if n > 65_535 {
      LeFour(n);
    } else if n > 252 {
      LeTwo(n);
    }
  }

  lemma {:induction false} LeTwo(n: nat)
    requires n < 65_536
    ensures Le(n, 2) == [n % 256, n / 256]
  {
    assert Le(n, 2) == [n % 256] + Le(n / 256, 1);
    assert Le(n / 256, 1) == [n / 256 % 256] + Le(n / 256 / 256, 0);
  }

  lemma {:induction false} LeFour(n: nat)
    requires n < 0x1_0000_0000
    ensures Le(n, 4) == [n % 256, n / 256 % 256, n / 65_536 % 256, n / 16_777_216]
  {
    assert Le(n, 4) == [n % 256] + Le(n / 256, 3);
    assert Le(n / 256, 3) == [n / 256 % 256] + Le(n / 65_536, 2);
    assert Le(n / 65_536, 2) == [n / 65_536 % 256] + Le(n / 16_777_216, 1);
    assert Le(n / 16_777_216, 1) == [n / 16_777_216 % 256] + Le(n / 0x1_0000_0000, 0);
  }

  // The count of the transactions, and then the count of each one's hints.
  ghost predicate CountParts(hints: Hints, parts: seq<seq<Octet>>) {
    && |parts| == |hints| + 1 && IsCount(parts[0], |hints|)
    && forall t {:trigger parts[t + 1]} {:trigger hints[t]} :: 0 <= t < |hints| ==> IsCount(parts[t + 1], |hints[t]|)
  }

  // ---------- Packed hints ----------

  // Two bits of a byte, the lowest first.
  function TwoBits(b: Octet, j: nat): nat {
    if j == 0 then b % 4 else if j == 1 then b / 4 % 4 else if j == 2 then b / 16 % 4 else b / 64
  }

  // What a hint's two bits hold; 3 for the hints that are escaped.
  predicate HasCode(hint: Octet, bits: nat) {
    || (hint == 0 && bits == 0) || (hint == 1 && bits == 1) || (hint == 255 && bits == 2)
    || ((hint == 2 || hint == 3) && bits == 3)
  }

  // Hint i is in byte i / 4, and the bits after the last hint are zero.
  ghost predicate Packs(flat: seq<Octet>, packed: seq<Octet>) {
    && |packed| == (|flat| + 3) / 4
    && (forall i: nat {:trigger flat[i]} :: i < |flat| ==> HasCode(flat[i], TwoBits(packed[i / 4], i % 4)))
    && (forall i: nat :: |flat| <= i < 4 * |packed| ==> TwoBits(packed[i / 4], i % 4) == 0)
  }

  lemma BitsAreDigits(b: Octet, j: nat)
    requires j < 4
    ensures TwoBits(b, j) == Digit(b, j)
  {}

  lemma PacksIsPacked(flat: seq<Octet>, packed: seq<Octet>)
    ensures Packs(flat, packed) <==> AllKnown(flat) && packed == Packed(Symbols(flat), PackedSize(|flat|))
  {
    if AllKnown(flat) && packed == Packed(Symbols(flat), PackedSize(|flat|)) { PackedPacks(flat); }
    if Packs(flat, packed) { PacksOnly(flat, packed); }
  }

  lemma PackedPacks(flat: seq<Octet>)
    requires AllKnown(flat)
    ensures Packs(flat, Packed(Symbols(flat), PackedSize(|flat|)))
  {
    var s, packed := Symbols(flat), Packed(Symbols(flat), PackedSize(|flat|));
    forall i: nat | i < |flat| ensures HasCode(flat[i], TwoBits(packed[i / 4], i % 4)) {
      PackedSymbol(s, |packed|, i);
      BitsAreDigits(packed[i / 4], i % 4);
    }
    forall i: nat | |flat| <= i < 4 * |packed| ensures TwoBits(packed[i / 4], i % 4) == 0 { PastZero(s, i); }
  }

  // The bits past the last symbol of its byte are zero.
  lemma PastZero(s: seq<nat>, i: nat)
    requires Small(s) && |s| <= i < 4 * PackedSize(|s|)
    ensures TwoBits(Packed(s, PackedSize(|s|))[i / 4], i % 4) == 0
  {
    var j := i / 4;
    Digits(SymbolOr0(s, 4 * j), SymbolOr0(s, 4 * j + 1), SymbolOr0(s, 4 * j + 2), SymbolOr0(s, 4 * j + 3));
    BitsAreDigits(Packed(s, PackedSize(|s|))[j], i % 4);
    assert SymbolOr0(s, i) == 0 && i == 4 * j + i % 4;
  }

  lemma PacksOnly(flat: seq<Octet>, packed: seq<Octet>)
    requires Packs(flat, packed)
    ensures AllKnown(flat) && packed == Packed(Symbols(flat), PackedSize(|flat|))
  {
    forall i | 0 <= i < |flat| ensures Known(flat[i]) { assert HasCode(flat[i], TwoBits(packed[i / 4], i % 4)); }
    var s := Symbols(flat);
    forall j | 0 <= j < |packed| ensures packed[j] == PackedByte(s, j) { SlotByte(flat, packed, j); }
  }

  lemma ByteOfBits(b: Octet)
    ensures b == TwoBits(b, 0) + 4 * TwoBits(b, 1) + 16 * TwoBits(b, 2) + 64 * TwoBits(b, 3)
  {
    BitsAreDigits(b, 0);
    BitsAreDigits(b, 1);
    BitsAreDigits(b, 2);
    BitsAreDigits(b, 3);
    ByteOfSymbols(b);
  }

  lemma SlotByte(flat: seq<Octet>, packed: seq<Octet>, j: nat)
    requires Packs(flat, packed) && AllKnown(flat) && j < |packed|
    ensures packed[j] == PackedByte(Symbols(flat), j)
  {
    hide TwoBits, Packs, Symbols;
    SlotBits(flat, packed, j, 0);
    SlotBits(flat, packed, j, 1);
    SlotBits(flat, packed, j, 2);
    SlotBits(flat, packed, j, 3);
    ByteOfBits(packed[j]);
  }

  lemma SlotBits(flat: seq<Octet>, packed: seq<Octet>, j: nat, k: nat)
    requires Packs(flat, packed) && AllKnown(flat) && j < |packed| && k < 4
    ensures TwoBits(packed[j], k) == SymbolOr0(Symbols(flat), 4 * j + k)
  {
    var i := 4 * j + k;
    assert i / 4 == j && i % 4 == k;
    if i < |flat| { assert HasCode(flat[i], TwoBits(packed[i / 4], i % 4)); }
  }

  // ---------- Escapes ----------

  // The escapes are the hints 2 and 3, whose positions are `order`.
  ghost predicate Escaped(flat: seq<Octet>, order: seq<nat>, escapes: seq<Octet>) {
    && |order| == |escapes|
    && (forall k :: 0 <= k < |order| ==> order[k] < |flat| && (flat[order[k]] == 2 || flat[order[k]] == 3) && escapes[k] == flat[order[k]])
    && (forall k, m :: 0 <= k < m < |order| ==> order[k] < order[m])
    && (forall i: nat {:trigger flat[i]} :: i < |flat| && (flat[i] == 2 || flat[i] == 3) ==> i in order)
  }

  lemma EscapedMore(flat: seq<Octet>, order: seq<nat>, escapes: seq<Octet>, hint: Octet)
    requires Escaped(flat, order, escapes)
    ensures var isEscape := hint == 2 || hint == 3;
            Escaped(flat + [hint], order + (if isEscape then [|flat|] else []), escapes + EscapeOf(hint))
  {
    var flat', more := flat + [hint], if hint == 2 || hint == 3 then [|flat|] else [];
    forall i: nat | i < |flat'| && (flat'[i] == 2 || flat'[i] == 3) ensures i in order + more {
      if i < |flat| { assert flat[i] == flat'[i]; }
    }
  }

  lemma {:induction false} EscapesAreEscaped(flat: seq<Octet>) returns (order: seq<nat>)
    ensures Escaped(flat, order, Escapes(flat))
    decreases |flat|
  {
    if flat == [] {
      order := [];
    } else {
      var k := |flat| - 1;
      var before := EscapesAreEscaped(flat[..k]);
      assert flat == flat[..k] + [flat[k]];
      EscapesAppend(flat[..k], flat[k]);
      EscapedMore(flat[..k], before, Escapes(flat[..k]), flat[k]);
      order := before + if flat[k] == 2 || flat[k] == 3 then [k] else [];
    }
  }

  lemma EscapedLess(flat: seq<Octet>, order: seq<nat>, escapes: seq<Octet>)
    requires flat != [] && Escaped(flat, order, escapes)
    ensures var k, n := |flat| - 1, |order| - 1;
            if flat[k] == 2 || flat[k] == 3
            then n >= 0 && order[n] == k && escapes[n] == flat[k] && Escaped(flat[..k], order[..n], escapes[..n])
            else Escaped(flat[..k], order, escapes)
  {
    var k, n := |flat| - 1, |order| - 1;
    forall i: nat | i < k && (flat[..k][i] == 2 || flat[..k][i] == 3) ensures i in order { assert flat[i] == flat[..k][i]; }
    if flat[k] == 2 || flat[k] == 3 {
      var m :| 0 <= m < |order| && order[m] == k;
      assert order[n] <= k;
      assert m == n;
      forall i: nat | i < k && (flat[..k][i] == 2 || flat[..k][i] == 3) ensures i in order[..n] { assert i in order; }
    }
  }

  lemma {:induction false} EscapedUnique(flat: seq<Octet>, order: seq<nat>, escapes: seq<Octet>)
    requires Escaped(flat, order, escapes)
    ensures escapes == Escapes(flat)
    decreases |flat|
  {
    if flat != [] {
      var k, n := |flat| - 1, |order| - 1;
      EscapedLess(flat, order, escapes);
      assert flat == flat[..k] + [flat[k]];
      EscapesAppend(flat[..k], flat[k]);
      if flat[k] == 2 || flat[k] == 3 {
        EscapedUnique(flat[..k], order[..n], escapes[..n]);
        assert escapes == escapes[..n] + [flat[k]];
      } else {
        EscapedUnique(flat[..k], order, escapes);
      }
    }
  }

  // ---------- A whole body ----------

  // The pieces of a body: the counts, the packed hints and the escapes, the hints taken in one row.
  datatype Pieces = Pieces(parts: seq<seq<Octet>>, at: seq<nat>, counts: seq<Octet>, start: seq<nat>, flat: seq<Octet>,
                           packed: seq<Octet>, order: seq<nat>, escapes: seq<Octet>)

  ghost predicate LaidOut(hints: Hints, body: seq<Octet>, p: Pieces) {
    && CountParts(hints, p.parts) && Joined(p.parts, p.at, p.counts)
    && Joined(hints, p.start, p.flat) && Packs(p.flat, p.packed) && Escaped(p.flat, p.order, p.escapes)
    && body == p.counts + p.packed + p.escapes
  }

  ghost predicate IsBody(hints: Hints, body: seq<Octet>) {
    exists p :: LaidOut(hints, body, p)
  }

  // At most 80,000 hints for a transaction and 500,000 for a block, each of them 0 to 3 or 255.
  ghost predicate WithinBounds(hints: Hints) {
    && (forall t :: 0 <= t < |hints| ==> |hints[t]| <= 80_000)
    && exists start, flat :: Joined(hints, start, flat) && |flat| <= 500_000 && AllUsed(flat)
  }

  ghost predicate AllUsed(flat: seq<Octet>) {
    forall i {:trigger flat[i]} :: 0 <= i < |flat| ==> flat[i] <= 3 || flat[i] == 255
  }

  lemma EncodableMeans(hints: Hints)
    ensures Encodable(hints) <==> WithinBounds(hints)
  {
    var start := FlattenIsJoined(hints);
    BoundedMeans(Lens(hints), 0);
    TotalIsFlat(hints);
    forall start', flat | Joined(hints, start', flat) ensures flat == Flatten(hints) {
      JoinedUnique(hints, start', flat, start, Flatten(hints));
    }
    if Encodable(hints) {
      forall t | 0 <= t < |hints| ensures |hints[t]| <= 80_000 { assert Lens(hints)[t] <= MAX_CHECKS; }
    }
  }

  function CountsOf(hints: Hints): seq<seq<Octet>> {
    [Compact(|hints|)] + seq(|hints|, t requires 0 <= t < |hints| => Compact(|hints[t]|))
  }

  lemma {:induction false} CountBytesJoin(hints: Hints, lens: seq<nat>)
    requires lens == Lens(hints)
    ensures Flatten(seq(|hints|, t requires 0 <= t < |hints| => Compact(|hints[t]|))) == CountBytes(lens)
    decreases |hints|
  {
    if hints != [] {
      var parts := seq(|hints|, t requires 0 <= t < |hints| => Compact(|hints[t]|));
      assert parts[1..] == seq(|hints[1..]|, t requires 0 <= t < |hints[1..]| => Compact(|hints[1..][t]|));
      CountBytesJoin(hints[1..], lens[1..]);
    }
  }

  lemma CountsJoin(hints: Hints)
    ensures Flatten(CountsOf(hints)) == Compact(|hints|) + CountBytes(Lens(hints))
  {
    CountBytesJoin(hints, Lens(hints));
    assert CountsOf(hints)[1..] == seq(|hints|, t requires 0 <= t < |hints| => Compact(|hints[t]|));
  }

  lemma CountPartsOnly(hints: Hints, parts: seq<seq<Octet>>)
    requires CountParts(hints, parts)
    ensures parts == CountsOf(hints)
  {
    CompactBytes(|hints|);
    forall t | 0 <= t < |hints| ensures parts[t + 1] == Compact(|hints[t]|) { CompactBytes(|hints[t]|); }
  }

  lemma CountsOfCounts(hints: Hints)
    requires |hints| < 0x1_0000_0000 && forall t :: 0 <= t < |hints| ==> |hints[t]| <= 80_000
    ensures CountParts(hints, CountsOf(hints))
  {
    CompactBytes(|hints|);
    forall t | 0 <= t < |hints| ensures IsCount(CountsOf(hints)[t + 1], |hints[t]|) { CompactBytes(|hints[t]|); }
  }

  lemma BodyIsLaidOut(hints: Hints)
    requires Encodable(hints) && |hints| < 0x1_0000_0000
    ensures IsBody(hints, Body(hints))
  {
    hide Joined, Packs, Escaped, CountParts, Packed, AllKnown, Symbols;
    var flat := Flatten(hints);
    EncodableMeans(hints);
    CountsOfCounts(hints);
    CountsJoin(hints);
    var at := FlattenIsJoined(CountsOf(hints));
    var start := FlattenIsJoined(hints);
    var packed := Packed(Symbols(flat), PackedSize(|flat|));
    PacksIsPacked(flat, packed);
    var order := EscapesAreEscaped(flat);
    var counts := Flatten(CountsOf(hints));
    assert Body(hints) == counts + packed + Escapes(flat);
    assert LaidOut(hints, Body(hints), Pieces(CountsOf(hints), at, counts, start, flat, packed, order, Escapes(flat)));
  }

  lemma LaidOutIsBody(hints: Hints, body: seq<Octet>, p: Pieces)
    requires Encodable(hints) && LaidOut(hints, body, p)
    ensures body == Body(hints)
  {
    hide Joined, Packs, Escaped, CountParts, Packed, Symbols;
    CountPartsOnly(hints, p.parts);
    CountsJoin(hints);
    var at := FlattenIsJoined(CountsOf(hints));
    JoinedUnique(p.parts, p.at, p.counts, at, Flatten(CountsOf(hints)));
    var start := FlattenIsJoined(hints);
    JoinedUnique(hints, p.start, p.flat, start, Flatten(hints));
    PacksIsPacked(p.flat, p.packed);
    EscapedUnique(p.flat, p.order, p.escapes);
    assert body == Compact(|hints|) + CountBytes(Lens(hints)) + (p.packed + p.escapes);
  }

  /** Decoding accepts exactly the bodies laid out for hints within the bounds, and gives those hints. */
  lemma DecodedBytes(data: seq<Octet>, expected: nat, hints: Hints)
    ensures Parse(data, expected) == Some(hints) <==>
              |hints| == expected && expected <= 100_000 && WithinBounds(hints) && IsBody(hints, data)
  {
    hide IsBody, WithinBounds, Encodable, Parse;
    EncodableMeans(hints);
    if Parse(data, expected) == Some(hints) {
      BodyOfParse(data, expected);
      BodyIsLaidOut(hints);
    }
    if |hints| == expected && expected <= 100_000 && WithinBounds(hints) && IsBody(hints, data) {
      BodyOnly(hints, data);
      ParseBody(hints);
    }
  }

  lemma BodyOnly(hints: Hints, body: seq<Octet>)
    requires Encodable(hints) && IsBody(hints, body)
    ensures body == Body(hints)
  {
    var p :| LaidOut(hints, body, p);
    LaidOutIsBody(hints, body, p);
  }

  lemma {:induction false} CountBytesLong(lens: seq<nat>)
    ensures |CountBytes(lens)| >= |lens|
    decreases |lens|
  {
    if lens != [] { CountBytesLong(lens[1..]); }
  }

  // The four bytes of a length, the lowest first.
  function LengthBytes(n: nat): seq<Octet>
    requires n < 0x1_0000_0000
  {
    [n % 256, n / 256 % 256, n / 65_536 % 256, n / 16_777_216]
  }

  // A frame: the hash, the four bytes of the body's length, and the body.
  ghost predicate IsFrame(hash: Hash, hints: Hints, frame: seq<Octet>, body: seq<Octet>) {
    && IsBody(hints, body) && |body| <= 1_048_576
    && frame == hash + LengthBytes(|body|) + body
  }

  /** The writer writes exactly the hints within the bounds whose body is short enough, as a frame laid out for them. */
  lemma WrittenBytes(hash: Hash, hints: Hints)
    ensures Writable(hints) <==> WithinBounds(hints) && exists body :: IsBody(hints, body) && |body| <= 1_048_576
    ensures Writable(hints) ==> IsFrame(hash, hints, Frame(hash, Body(hints)), Body(hints))
  {
    hide IsBody, WithinBounds, Encodable;
    EncodableMeans(hints);
    if Writable(hints) {
      CountBytesLong(Lens(hints));
      BodyIsLaidOut(hints);
      LeFour(|Body(hints)|);
    }
    if WithinBounds(hints) {
      forall body | IsBody(hints, body) ensures body == Body(hints) { BodyOnly(hints, body); }
    }
  }

  // ---------- A whole file ----------

  lemma PacketLeft(input: seq<Octet>, p: Readers.Packet, rest: seq<Octet>)
    requires Readers.ReadPacket(input) == Readers.Got(p, rest)
    ensures |p.body| <= 1_048_576 && input == p.hash + LengthBytes(|p.body|) + p.body + rest
  {
    FromLeRoundTrip(input[32..36]);
    LeFour(|p.body|);
    assert input == input[..32] + input[32..36] + input[36..36 + |p.body|] + input[36 + |p.body|..];
  }

  /** The reader takes a frame off a file exactly when a hash, the four bytes of a length up to 1,048,576 and that much body are there. */
  lemma PacketBytes(input: seq<Octet>, p: Readers.Packet, rest: seq<Octet>)
    ensures Readers.ReadPacket(input) == Readers.Got(p, rest) <==>
              |p.body| <= 1_048_576 && input == p.hash + LengthBytes(|p.body|) + p.body + rest
    ensures Readers.ReadPacket(input) == Readers.End <==> input == []
  {
    if Readers.ReadPacket(input) == Readers.Got(p, rest) { PacketLeft(input, p, rest); }
    if |p.body| <= 1_048_576 && input == p.hash + LengthBytes(|p.body|) + p.body + rest {
      LeFour(|p.body|);
      assert input == Frame(p.hash, p.body) + rest;
      Readers.FrameReads(p, rest);
    }
  }
}
