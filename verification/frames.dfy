/** Writing and decoding advice frames, byte by byte. */
module Frames {
  import opened Wrappers
  import opened Arith
  import opened Codec
  import opened Counts

  type Hash = s: seq<Octet> | |s| == 32 witness seq(32, _ => 0)

  // ---------- Writing ----------

  function Frame(hash: Hash, body: seq<Octet>): seq<Octet>
    requires |body| <= MAX_FRAME
  {
    hash + Le(|body|, 4) + body
  }

  ghost predicate Writable(hints: Hints) {
    Encodable(hints) && |Body(hints)| <= MAX_FRAME
  }

  lemma {:induction false} CountBytesAppend(lens: seq<nat>, n: nat)
    ensures CountBytes(lens + [n]) == CountBytes(lens) + Compact(n)
    decreases |lens|
  {
    if lens == [] {
      assert CountBytes([n]) == Compact(n) + CountBytes([]) by { assert [n][1..] == []; }
    } else {
      assert (lens + [n])[1..] == lens[1..] + [n];
      CountBytesAppend(lens[1..], n);
    }
  }

  lemma {:induction false} TotalAppend(lens: seq<nat>, n: nat)
    ensures Total(lens + [n]) == Total(lens) + n
    decreases |lens|
  {
    if lens == [] {
      assert [n][1..] == [];
    } else {
      assert (lens + [n])[1..] == lens[1..] + [n];
      TotalAppend(lens[1..], n);
    }
  }

  lemma {:induction false} TotalSplit(lens: seq<nat>, k: nat)
    requires k <= |lens|
    ensures Total(lens) == Total(lens[..k]) + Total(lens[k..])
  {
    if k > 0 {
      assert lens[..k][1..] == lens[1..][..k - 1] && lens[1..][k - 1..] == lens[k..];
      TotalSplit(lens[1..], k - 1);
    }
  }

  /** The counts, or nothing when a bound is broken. */
  method WriteCounts(hints: Hints) returns (ok: bool, bytes: seq<Octet>, total: nat)
    ensures ok == Bounded(Lens(hints), 0)
    ensures ok ==> bytes == CountBytes(Lens(hints)) && total == |Flatten(hints)|
  {
    bytes, total := [], 0;
    ghost var lens := Lens(hints);
    BoundedMeans(lens, 0);
    for i := 0 to |hints|
      invariant bytes == CountBytes(lens[..i]) && total == Total(lens[..i]) && total <= MAX_BLOCK_CHECKS
      invariant forall j :: 0 <= j < i ==> lens[j] <= MAX_CHECKS
    {
      if |hints[i]| > MAX_CHECKS {
        return false, [], 0;
      }
      total := total + |hints[i]|;
      assert lens[..i + 1] == lens[..i] + [lens[i]];
      TotalAppend(lens[..i], lens[i]);
      CountBytesAppend(lens[..i], lens[i]);
      TotalSplit(lens, i + 1);
      if total > MAX_BLOCK_CHECKS {
        return false, [], 0;
      }
      bytes := bytes + Compact(|hints[i]|);
    }
    assert lens[..|hints|] == lens;
    TotalIsFlat(hints);
    ok := true;
  }

  function Place(k: nat): nat { if k == 0 then 1 else if k == 1 then 4 else if k == 2 then 16 else 64 }

  /** One more symbol lands in the free bits of its byte. */
  lemma PackStep(s: seq<nat>, x: nat, size: nat)
    requires Small(s) && x <= 3 && |s| / 4 < size
    ensures var p, i := Packed(s, size), |s|;
            p[i / 4] + x * Place(i % 4) < 256 && Packed(s + [x], size) == p[i / 4 := p[i / 4] + x * Place(i % 4)]
  {
    var i, t := |s|, s + [x];
    forall j | 0 <= j < size
      ensures PackedByte(t, j) == PackedByte(s, j) + if j == i / 4 then x * Place(i % 4) else 0
    {
      OneSymbol(s, x, 4 * j);
      OneSymbol(s, x, 4 * j + 1);
      OneSymbol(s, x, 4 * j + 2);
      OneSymbol(s, x, 4 * j + 3);
    }
    assert Packed(t, size)[i / 4] < 256;
  }

  lemma OneSymbol(s: seq<nat>, x: nat, k: nat)
    ensures SymbolOr0(s + [x], k) == SymbolOr0(s, k) + if k == |s| then x else 0
  {}

  lemma {:induction false} EscapesAppend(flat: seq<Octet>, h: Octet)
    ensures Escapes(flat + [h]) == Escapes(flat) + EscapeOf(h)
    decreases |flat|
  {
    if flat == [] {
      assert [h][1..] == [];
    } else {
      assert (flat + [h])[1..] == flat[1..] + [h];
      EscapesAppend(flat[1..], h);
      assert EscapeOf(flat[0]) + (Escapes(flat[1..]) + EscapeOf(h)) == EscapeOf(flat[0]) + Escapes(flat[1..]) + EscapeOf(h);
    }
  }

  lemma PackedMore(head: seq<Octet>, flat: seq<Octet>, hint: Octet, size: nat)
    requires AllKnown(flat) && Known(hint) && |flat| / 4 < size
    ensures var body, i := head + Packed(Symbols(flat), size), |flat|;
            AllKnown(flat + [hint]) && body[|head| + i / 4] + Symbol(hint) * Place(i % 4) < 256 &&
            head + Packed(Symbols(flat + [hint]), size) ==
            body[|head| + i / 4 := body[|head| + i / 4] + Symbol(hint) * Place(i % 4)]
  {
    var packed, i := Packed(Symbols(flat), size), |flat|;
    assert Symbols(flat + [hint]) == Symbols(flat) + [Symbol(hint)];
    PackStep(Symbols(flat), Symbol(hint), size);
    assert (head + packed)[|head| + i / 4] == packed[i / 4];
  }

  // The first i hints are packed after `head` and their escapes collected.
  ghost predicate Packing(head: seq<Octet>, flat: seq<Octet>, i: nat, body: seq<Octet>, escapes: seq<Octet>)
    requires i <= |flat|
  {
    && AllKnown(flat[..i]) && escapes == Escapes(flat[..i])
    && body == head + Packed(Symbols(flat[..i]), PackedSize(|flat|))
  }

  lemma PackingStart(head: seq<Octet>, flat: seq<Octet>)
    ensures Packing(head, flat, 0, head + seq(PackedSize(|flat|), _ => 0), [])
  {
    assert flat[..0] == [];
    assert Packed([], PackedSize(|flat|)) == seq(PackedSize(|flat|), _ => 0);
  }

  lemma PackingStep(head: seq<Octet>, flat: seq<Octet>, i: nat, body: seq<Octet>, escapes: seq<Octet>)
    requires i < |flat| && Packing(head, flat, i, body, escapes) && Known(flat[i])
    ensures var k := |head| + i / 4;
            k < |body| && body[k] + Symbol(flat[i]) * Place(i % 4) < 256 &&
            Packing(head, flat, i + 1, body[k := body[k] + Symbol(flat[i]) * Place(i % 4)], escapes + EscapeOf(flat[i]))
  {
    PackedMore(head, flat[..i], flat[i], PackedSize(|flat|));
    EscapesAppend(flat[..i], flat[i]);
    assert flat[..i + 1] == flat[..i] + [flat[i]];
  }

  lemma {:induction false} PackingEnd(head: seq<Octet>, flat: seq<Octet>, body: seq<Octet>, escapes: seq<Octet>)
    requires Packing(head, flat, |flat|, body, escapes)
    ensures AllKnown(flat) && escapes == Escapes(flat) && body == head + Packed(Symbols(flat), PackedSize(|flat|))
  {
    assert flat[..|flat|] == flat;
  }

  /** Packs the symbols after `head`, the escapes kept aside. */
  method PackInto(head: seq<Octet>, flat: seq<Octet>) returns (ok: bool, body: seq<Octet>, escapes: seq<Octet>)
    ensures ok == AllKnown(flat)
    ensures ok ==> body == head + Packed(Symbols(flat), PackedSize(|flat|)) && escapes == Escapes(flat)
  {
    hide Packing, Packed, Escapes, Symbols;
    var start := |head|;
    body, escapes := head + seq(PackedSize(|flat|), _ => 0), [];
    PackingStart(head, flat);
    for i := 0 to |flat|
      invariant Packing(head, flat, i, body, escapes)
    {
      var hint := flat[i];
      if !Known(hint) {
        return false, [], [];
      }
      PackingStep(head, flat, i, body, escapes);
      var symbol := if hint <= 1 then hint else if hint == 255 then 2 else 3;
      if symbol == 3 {
        escapes := escapes + [hint];
      } else {
        assert escapes + [] == escapes;
      }
      body := body[start + i / 4 := body[start + i / 4] + symbol * Place(i % 4)];
    }
    PackingEnd(head, flat, body, escapes);
    ok := true;
  }

  /** A frame is written exactly for the hints within every bound. */
  method WriteFrame(hash: Hash, hints: Hints) returns (out: Option<seq<Octet>>)
    ensures out.Some? <==> Writable(hints)
    ensures out.Some? ==> out.value == Frame(hash, Body(hints))
  {
    var ok, counts, total := WriteCounts(hints);
    if !ok {
      return None;
    }
    var flat := Flatten(hints);
    var body, escapes;
    ok, body, escapes := PackInto(Compact(|hints|) + counts, flat);
    if !ok {
      return None;
    }
    body := body + escapes;
    assert body == Body(hints);
    if |body| > MAX_FRAME {
      return None;
    }
    return Some(hash + Le(|body|, 4) + body);
  }

  // ---------- Decoding ----------

  function WithCounts(lens: seq<nat>, more: Option<Lengths>): Option<Lengths> {
    match more case None => None case Some(l) => Some(Lengths(lens + l.lens, l.rest))
  }

  lemma CountsNext(lens: seq<nat>, n: nat, more: Option<Lengths>)
    ensures WithCounts(lens, WithCounts([n], more)) == WithCounts(lens + [n], more)
    ensures WithCounts([], more) == more
  {
    if more.Some? {
      assert lens + ([n] + more.value.lens) == lens + [n] + more.value.lens && [] + more.value.lens == more.value.lens;
    }
  }

  method DecodeCounts(data: seq<Octet>, n: nat) returns (out: Option<Lengths>, total: nat)
    ensures out == ReadLengths(data, n, 0)
    ensures out.Some? ==> total == Total(out.value.lens) && |out.value.lens| == n
  {
    var counts: seq<nat>, rest := [], data;
    total := 0;
    CountsNext([], 0, ReadLengths(data, n, 0));
    for i := 0 to n
      invariant ReadLengths(data, n, 0) == WithCounts(counts, ReadLengths(rest, n - i, total))
      invariant total == Total(counts) && |counts| == i
    {
      var checks := Count(rest);
      if checks.None? {
        return None, 0;
      }
      var c := checks.value.value;
      if c > MAX_CHECKS || total + c > MAX_BLOCK_CHECKS {
        return None, 0;
      }
      TotalAppend(counts, c);
      CountsNext(counts, c, ReadLengths(checks.value.rest, n - i - 1, total + c));
      counts, rest, total := counts + [c], checks.value.rest, total + c;
    }
    assert counts + [] == counts;
    out := Some(Lengths(counts, rest));
  }

  function WithFlat(flat: seq<Octet>, more: Option<seq<Octet>>): Option<seq<Octet>> {
    match more case None => None case Some(f) => Some(flat + f)
  }

  lemma FlatNext(flat: seq<Octet>, next: seq<Octet>, more: Option<seq<Octet>>)
    ensures WithFlat(flat, WithFlat(next, more)) == WithFlat(flat + next, more)
    ensures WithFlat([], more) == more
  {
    if more.Some? {
      assert flat + (next + more.value) == flat + next + more.value && [] + more.value == more.value;
    }
  }

  lemma {:induction false} SplitAppend(flat: seq<Octet>, lens: seq<nat>, hints: seq<Octet>)
    requires |flat| == Total(lens)
    ensures Total(lens + [|hints|]) == |flat + hints|
    ensures Split(flat + hints, lens + [|hints|]) == Split(flat, lens) + [hints]
    decreases lens
  {
    TotalAppend(lens, |hints|);
    if lens == [] {
      assert [|hints|][1..] == [] && flat + hints == hints && hints[..|hints|] == hints;
    } else {
      var rest := flat[lens[0]..];
      assert (lens + [|hints|])[1..] == lens[1..] + [|hints|];
      assert (flat + hints)[..lens[0]] == flat[..lens[0]] && (flat + hints)[lens[0]..] == rest + hints;
      SplitAppend(rest, lens[1..], hints);
    }
  }

  /** One transaction's hints from the packed symbols and the escapes. */
  method DecodeOne(packed: seq<Octet>, total: nat, start: nat, checks: nat, escapes: seq<Octet>)
      returns (ok: bool, hints: seq<Octet>, rest: seq<Octet>)
    requires start + checks <= total <= 4 * |packed|
    ensures !ok ==> ReadFlat(packed, total, start, escapes).None?
    ensures ok ==> |hints| == checks
    ensures ok ==> ReadFlat(packed, total, start, escapes) == WithFlat(hints, ReadFlat(packed, total, start + checks, rest))
  {
    hints, rest := [], escapes;
    FlatNext([], [], ReadFlat(packed, total, start, escapes));
    for k := 0 to checks
      invariant |hints| == k
      invariant ReadFlat(packed, total, start, escapes) == WithFlat(hints, ReadFlat(packed, total, start + k, rest))
    {
      var ordinal := start + k;
      var symbol := SymbolAt(packed, ordinal);
      var hint := if symbol == 2 then 255 else symbol;
      if symbol == 3 {
        if rest == [] || (rest[0] != 2 && rest[0] != 3) {
          return false, [], [];
        }
        hint, rest := rest[0], rest[1..];
      }
      FlatNext(hints, [hint], ReadFlat(packed, total, ordinal + 1, rest));
      hints := hints + [hint];
    }
    ok := true;
  }

  /** Every transaction's hints, the escapes all used up. */
  method DecodeHints(packed: seq<Octet>, total: nat, counts: seq<nat>, escapes: seq<Octet>) returns (out: Option<Hints>)
    requires total == Total(counts) && total <= 4 * |packed|
    ensures out == match ReadFlat(packed, total, 0, escapes) case None => None case Some(flat) => Some(Split(flat, counts))
  {
    var result: Hints, rest, ordinal := [], escapes, 0;
    ghost var flat := [];
    FlatNext([], [], ReadFlat(packed, total, 0, escapes));
    for t := 0 to |counts|
      invariant ordinal == |flat| == Total(counts[..t]) && result == Split(flat, counts[..t])
      invariant ordinal <= total
      invariant ReadFlat(packed, total, 0, escapes) == WithFlat(flat, ReadFlat(packed, total, ordinal, rest))
    {
      assert counts[..t + 1] == counts[..t] + [counts[t]];
      TotalAppend(counts[..t], counts[t]);
      TotalSplit(counts, t + 1);
      var ok, hints, rest' := DecodeOne(packed, total, ordinal, counts[t], rest);
      if !ok {
        return None;
      }
      SplitAppend(flat, counts[..t], hints);
      FlatNext(flat, hints, ReadFlat(packed, total, ordinal + counts[t], rest'));
      result, rest, ordinal := result + [hints], rest', ordinal + counts[t];
      flat := flat + hints;
    }
    assert counts[..|counts|] == counts && flat + [] == flat;
    if rest != [] {
      return None;
    }
    return Some(result);
  }

  /** Decoding accepts exactly the bodies that stand for some hints, and gives those. */
  method Decode(data: seq<Octet>, expected: nat) returns (out: Option<Hints>)
    ensures out == Parse(data, expected)
  {
    var n := Count(data);
    if n.None? || n.value.value != expected || n.value.value > MAX_TRANSACTIONS {
      return None;
    }
    var l, total := DecodeCounts(n.value.rest, n.value.value);
    if l.None? {
      return None;
    }
    var size := PackedSize(total);
    if size > |l.value.rest| {
      return None;
    }
    var packed := l.value.rest[..size];
    if total % 4 != 0 && Above(packed[size - 1], total % 4) != 0 {
      return None;
    }
    out := DecodeHints(packed, total, l.value.lens, l.value.rest[size..]);
  }

  // ---------- Exactly which written frames read back ----------

  /** What the writer writes reads back exactly when it has at most 100,000 transactions. */
  lemma RoundTripExactly(hints: Hints)
    requires Writable(hints)
    ensures Parse(Body(hints), |hints|) == Some(hints) <==> |hints| <= MAX_TRANSACTIONS
  {
    if |hints| <= MAX_TRANSACTIONS {
      ParseBody(hints);
    } else {
      ManyRefused(Body(hints), |hints|);
    }
  }

  function Unchecked(n: nat): Hints { seq(n, _ => []) }

  lemma {:induction false} UncheckedBytes(n: nat)
    ensures Flatten(Unchecked(n)) == [] && |CountBytes(seq(n, _ => 0))| == n
  {
    if n > 0 {
      UncheckedBytes(n - 1);
      assert Unchecked(n)[1..] == Unchecked(n - 1) && seq(n, _ => 0)[1..] == seq(n - 1, _ => 0);
    }
  }

  lemma {:induction false} UncheckedTotal(n: nat)
    ensures Total(seq(n, _ => 0)) == 0
  {
    if n > 0 {
      UncheckedTotal(n - 1);
      assert seq(n, _ => 0)[1..] == seq(n - 1, _ => 0);
    }
  }

  lemma UncheckedLens(n: nat)
    ensures |Unchecked(n)| == n && Lens(Unchecked(n)) == seq(n, _ => 0)
  {}

  /** A block of 100,001 transactions without checks is written, and then refused by the reader. */
  lemma WrittenYetRefused()
    ensures var hints := Unchecked(100_001); Writable(hints) && Parse(Body(hints), |hints|).None?
  {
    hide Unchecked, Parse;
    var n := 100_001;
    var hints := Unchecked(n);
    UncheckedBytes(n);
    UncheckedTotal(n);
    UncheckedLens(n);
    BoundedMeans(Lens(hints), 0);
    assert |Packed(Symbols([]), PackedSize(0))| == 0;
    ManyRefused(Body(hints), n);
  }
}
