/**
 The local UTXO helper: one walk over a chain that keeps a live map, the
 claims of each block, and the ordinals of the outputs that survive. Its
 reference is the list of spend and create events of the chain.
 */
module Utxo {
  import opened Wrappers

  const MAX_BLOCKS := 501
  const MAX_INPUTS_PER_BLOCK := 100_000
  const MAX_TOTAL_CLAIMS := 100_000
  const MAX_HELPER_COINS := 1_000_000

  type Hash = seq<Octet>

  datatype TxOut = TxOut(value: int, script: seq<Octet>)
  datatype Outpoint = Outpoint(txid: Hash, vout: nat)
  datatype Coin = Coin(output: TxOut, height: nat, coinbase: bool)
  datatype Tx = Tx(txid: Hash, inputs: seq<Outpoint>, outputs: seq<TxOut>, coinbase: bool)
  datatype Block = Block(hash: Hash, txs: seq<Tx>)
  datatype SpentRecord = SpentRecord(index: nat, coin: Coin)

  predicate Spendable(output: TxOut) {
    output.script == [] || output.script[0] != 0x6A
  }

  // ---------- Events ----------

  datatype Event =
    | Spend(op: Outpoint, height: nat, index: nat)
    | Create(op: Outpoint, coin: Coin)

  // The plain replay: a creation adds its coin, a spend removes it.
  function Next(m: map<Outpoint, Coin>, e: Event): map<Outpoint, Coin> {
    match e
    case Spend(op, _, _) => m - {op}
    case Create(op, coin) => m[op := coin]
  }

  function Live(es: seq<Event>): map<Outpoint, Coin> {
    if es == [] then map[] else Next(Live(es[..|es| - 1]), es[|es| - 1])
  }

  // A spend of a coin from an earlier height is a claim.
  function ClaimOf(m: map<Outpoint, Coin>, e: Event): seq<SpentRecord> {
    if e.Spend? && e.op in m && m[e.op].height < e.height then [SpentRecord(e.index, m[e.op])] else []
  }

  function Claims(es: seq<Event>): seq<SpentRecord> {
    if es == [] then [] else Claims(es[..|es| - 1]) + ClaimOf(Live(es[..|es| - 1]), es[|es| - 1])
  }

  // What the helper accepts at one event.
  predicate Fits(m: map<Outpoint, Coin>, claims: nat, e: Event) {
    match e
    case Spend(op, height, index) =>
      index < MAX_INPUTS_PER_BLOCK && op in m && (m[op].height < height ==> claims < MAX_TOTAL_CLAIMS)
    case Create(op, coin) => op !in m && |m| < MAX_HELPER_COINS
  }

  ghost predicate FitAt(es: seq<Event>, i: nat)
    requires i < |es|
  {
    Fits(Live(es[..i]), |Claims(es[..i])|, es[i])
  }

  ghost predicate AllFit(es: seq<Event>) {
    forall i: nat {:trigger FitAt(es, i)} :: i < |es| ==> FitAt(es, i)
  }

  lemma {:induction false} OneMore(es: seq<Event>, e: Event)
    ensures Live(es + [e]) == Next(Live(es), e)
    ensures Claims(es + [e]) == Claims(es) + ClaimOf(Live(es), e)
    ensures AllFit(es + [e]) <==> AllFit(es) && Fits(Live(es), |Claims(es)|, e)
  {
    assert (es + [e])[..|es|] == es;
    if AllFit(es + [e]) { FitPrefix(es, [e]); assert FitAt(es + [e], |es|); }
    if AllFit(es) && Fits(Live(es), |Claims(es)|, e) {
      forall i: nat | i < |es| + 1 ensures FitAt(es + [e], i) {
        if i < |es| { assert FitAt(es, i) && (es + [e])[..i] == es[..i]; }
      }
    }
  }

  lemma FitPrefix(es: seq<Event>, more: seq<Event>)
    requires AllFit(es + more)
    ensures AllFit(es)
  {
    forall i: nat | i < |es| ensures FitAt(es, i) {
      assert FitAt(es + more, i) && (es + more)[..i] == es[..i];
    }
  }

  // ---------- The events of a chain ----------

  function SpendEvents(inputs: seq<Outpoint>, height: nat, first: nat): (r: seq<Event>)
    ensures |r| == |inputs| && forall i :: 0 <= i < |r| ==> r[i] == Spend(inputs[i], height, first + i)
  {
    seq(|inputs|, i requires 0 <= i < |inputs| => Spend(inputs[i], height, first + i))
  }

  function CoinOf(tx: Tx, height: nat, vout: nat): Coin
    requires vout < |tx.outputs|
  {
    Coin(tx.outputs[vout], height, tx.coinbase)
  }

  // The spendable ones of the first v outputs.
  function CreateEvents(tx: Tx, height: nat, v: nat): seq<Event>
    requires v <= |tx.outputs|
  {
    if v == 0 then []
    else CreateEvents(tx, height, v - 1) + CreateOne(tx, height, v - 1)
  }

  function CreateOne(tx: Tx, height: nat, vout: nat): seq<Event>
    requires vout < |tx.outputs|
  {
    if Spendable(tx.outputs[vout]) then [Create(Outpoint(tx.txid, vout), CoinOf(tx, height, vout))] else []
  }

  function InputsOf(tx: Tx): seq<Outpoint> { if tx.coinbase then [] else tx.inputs }

  function InputCount(txs: seq<Tx>): nat {
    if txs == [] then 0 else InputCount(txs[..|txs| - 1]) + |InputsOf(txs[|txs| - 1])|
  }

  function TxEvents(tx: Tx, height: nat, first: nat): seq<Event> {
    SpendEvents(InputsOf(tx), height, first) + CreateEvents(tx, height, |tx.outputs|)
  }

  function BlockEvents(txs: seq<Tx>, height: nat): seq<Event> {
    if txs == [] then []
    else BlockEvents(txs[..|txs| - 1], height) + TxEvents(txs[|txs| - 1], height, InputCount(txs[..|txs| - 1]))
  }

  // The events of blocks 1 to n - 1; block 0 is the genesis block.
  function ChainEvents(blocks: seq<Block>, n: nat): seq<Event>
    requires n <= |blocks|
  {
    if n <= 1 then [] else ChainEvents(blocks, n - 1) + BlockEvents(blocks[n - 1].txs, n - 1)
  }

  // The outpoints created at a height, in order.
  function CreatedAt(es: seq<Event>, height: nat): seq<Outpoint> {
    if es == [] then []
    else
      var e := es[|es| - 1];
      CreatedAt(es[..|es| - 1], height) + if e.Create? && e.coin.height == height then [e.op] else []
  }

  // The ordinals of the outpoints that are still live.
  function Survivors(created: seq<Outpoint>, live: map<Outpoint, Coin>): seq<nat> {
    if created == [] then []
    else Survivors(created[..|created| - 1], live) + if created[|created| - 1] in live then [|created| - 1] else []
  }

  // ---------- The walk ----------

  // The walk's variables within one block.
  datatype Book = Book(live: map<Outpoint, Coin>, local: set<Outpoint>, records: seq<SpentRecord>,
                       index: nat, created: seq<Outpoint>, claims: nat)

  ghost predicate LocalAt(b: Book, height: nat, op: Outpoint) {
    op in b.local <==> op in b.live && b.live[op].height == height
  }

  // The book after the events es, `before` claims having been made by earlier blocks.
  ghost predicate Kept(b: Book, es: seq<Event>, height: nat, before: nat) {
    && AllFit(es) && b.live == Live(es) && b.claims == |Claims(es)|
    && before <= |Claims(es)| && b.records == Claims(es)[before..]
    && b.created == CreatedAt(es, height)
    && (forall op {:trigger LocalAt(b, height, op)} :: LocalAt(b, height, op))
    && (forall op :: op in b.live ==> b.live[op].height <= height)
  }

  lemma KeptFits(b: Book, es: seq<Event>, height: nat, before: nat)
    requires Kept(b, es, height, before)
    ensures AllFit(es)
  {}

  /** One input: a coin of this block disappears quietly, an earlier one becomes a claim. */
  method SpendInput(b: Book, previous: Outpoint, height: nat, ghost es: seq<Event>, ghost before: nat) returns (r: Option<Book>)
    requires Kept(b, es, height, before)
    ensures r.Some? <==> AllFit(es + [Spend(previous, height, b.index)])
    ensures r.Some? ==> Kept(r.value, es + [Spend(previous, height, b.index)], height, before) && r.value.index == b.index + 1
  {
    OneMore(es, Spend(previous, height, b.index));
    assert (es + [Spend(previous, height, b.index)])[..|es|] == es;
    assert LocalAt(b, height, previous);
    if b.index >= MAX_INPUTS_PER_BLOCK {
      return None;
    }
    var c := b;
    if previous in b.local {
      c := c.(local := b.local - {previous}, live := b.live - {previous});
    } else {
      if previous !in b.live || b.live[previous].height >= height {
        return None;
      }
      c := c.(live := b.live - {previous}, records := b.records + [SpentRecord(b.index, b.live[previous])], claims := b.claims + 1);
      if c.claims > MAX_TOTAL_CLAIMS {
        return None;
      }
    }
    c := c.(index := b.index + 1);
    forall op ensures LocalAt(c, height, op) { assert LocalAt(b, height, op); }
    r := Some(c);
  }

  /** One output: unspendable ones are skipped, a repeated live outpoint is an error. */
  method CreateOutput(b: Book, op: Outpoint, coin: Coin, height: nat, ghost es: seq<Event>, ghost before: nat) returns (r: Option<Book>)
    requires Kept(b, es, height, before) && coin.height == height
    ensures r.Some? <==> AllFit(es + [Create(op, coin)])
    ensures r.Some? ==> Kept(r.value, es + [Create(op, coin)], height, before) && r.value.index == b.index
  {
    OneMore(es, Create(op, coin));
    assert (es + [Create(op, coin)])[..|es|] == es;
    if op in b.live {
      return None;
    }
    var c := b.(live := b.live[op := coin], local := b.local + {op}, created := b.created + [op]);
    assert c.live.Keys == b.live.Keys + {op};
    if |c.live| > MAX_HELPER_COINS {
      return None;
    }
    forall o ensures LocalAt(c, height, o) { assert LocalAt(b, height, o); }
    r := Some(c);
  }

  /** All inputs of a transaction. */
  method SpendInputs(b: Book, inputs: seq<Outpoint>, height: nat, ghost es: seq<Event>, ghost before: nat) returns (r: Option<Book>)
    requires Kept(b, es, height, before)
    ensures r.Some? <==> AllFit(es + SpendEvents(inputs, height, b.index))
    ensures r.Some? ==> Kept(r.value, es + SpendEvents(inputs, height, b.index), height, before) && r.value.index == b.index + |inputs|
  {
    hide Kept, AllFit;
    ghost var all := SpendEvents(inputs, height, b.index);
    var c := b;
    assert es + all[..0] == es;
    for i := 0 to |inputs|
      invariant Kept(c, es + all[..i], height, before) && c.index == b.index + i
    {
      assert es + all[..i + 1] == es + all[..i] + [Spend(inputs[i], height, c.index)];
      var next := SpendInput(c, inputs[i], height, es + all[..i], before);
      if next.None? {
        assert es + all == es + all[..i + 1] + all[i + 1..];
        if AllFit(es + all) { FitPrefix(es + all[..i + 1], all[i + 1..]); }
        return None;
      }
      c := next.value;
    }
    assert all[..|inputs|] == all;
    KeptFits(c, es + all, height, before);
    r := Some(c);
  }

  /** One output of a transaction; an unspendable one leaves no trace. */
  method WalkOutput(b: Book, tx: Tx, height: nat, v: nat, ghost es: seq<Event>, ghost before: nat) returns (r: Option<Book>)
    requires Kept(b, es, height, before) && v < |tx.outputs|
    ensures r.Some? <==> AllFit(es + CreateOne(tx, height, v))
    ensures r.Some? ==> Kept(r.value, es + CreateOne(tx, height, v), height, before) && r.value.index == b.index
  {
    if !Spendable(tx.outputs[v]) {
      assert es + CreateOne(tx, height, v) == es;
      return Some(b);
    }
    r := CreateOutput(b, Outpoint(tx.txid, v), Coin(tx.outputs[v], height, tx.coinbase), height, es, before);
  }

  lemma {:induction false} CreatesSplit(tx: Tx, height: nat, v: nat, w: nat) returns (rest: seq<Event>)
    requires v <= w <= |tx.outputs|
    ensures CreateEvents(tx, height, w) == CreateEvents(tx, height, v) + rest
    decreases w
  {
    if v == w {
      rest := [];
    } else {
      rest := CreatesSplit(tx, height, v, w - 1);
      rest := rest + CreateOne(tx, height, w - 1);
    }
  }

  /** All outputs of a transaction. */
  method CreateOutputs(b: Book, tx: Tx, height: nat, ghost es: seq<Event>, ghost before: nat) returns (r: Option<Book>)
    requires Kept(b, es, height, before)
    ensures r.Some? <==> AllFit(es + CreateEvents(tx, height, |tx.outputs|))
    ensures r.Some? ==> Kept(r.value, es + CreateEvents(tx, height, |tx.outputs|), height, before) && r.value.index == b.index
  {
    hide Kept, AllFit;
    ghost var now := es;
    assert es + CreateEvents(tx, height, 0) == es;
    r := Some(b);
    for v := 0 to |tx.outputs|
      invariant r.Some? && now == es + CreateEvents(tx, height, v)
      invariant Kept(r.value, now, height, before) && r.value.index == b.index
    {
      r := WalkOutput(r.value, tx, height, v, now, before);
      now := now + CreateOne(tx, height, v);
      assert now == es + CreateEvents(tx, height, v + 1);
      if r.None? {
        ghost var rest := CreatesSplit(tx, height, v + 1, |tx.outputs|);
        assert es + CreateEvents(tx, height, |tx.outputs|) == now + rest;
        if AllFit(now + rest) { FitPrefix(now, rest); }
        return;
      }
    }
    KeptFits(r.value, now, height, before);
  }

  /** One transaction. */
  method WalkTx(b: Book, tx: Tx, height: nat, ghost es: seq<Event>, ghost before: nat) returns (r: Option<Book>)
    requires Kept(b, es, height, before)
    ensures r.Some? <==> AllFit(es + TxEvents(tx, height, b.index))
    ensures r.Some? ==> Kept(r.value, es + TxEvents(tx, height, b.index), height, before)
    ensures r.Some? ==> r.value.index == b.index + |InputsOf(tx)|
  {
    ghost var spends, creates := SpendEvents(InputsOf(tx), height, b.index), CreateEvents(tx, height, |tx.outputs|);
    assert es + (spends + creates) == es + spends + creates;
    if AllFit(es + spends + creates) { FitPrefix(es + spends, creates); }
    var c := b;
    if !tx.coinbase {
      r := SpendInputs(b, tx.inputs, height, es, before);
      if r.None? {
        return;
      }
      c := r.value;
    } else {
      assert es + spends == es;
    }
    r := CreateOutputs(c, tx, height, es + spends, before);
  }

  lemma Regroup(x: seq<Event>, y: seq<Event>, z: seq<Event>)
    ensures x + y + z == x + (y + z)
  {}

  lemma {:induction false} BlockSplit(txs: seq<Tx>, height: nat, t: nat) returns (rest: seq<Event>)
    requires t <= |txs|
    ensures BlockEvents(txs, height) == BlockEvents(txs[..t], height) + rest
    decreases |txs|
  {
    if t == |txs| {
      assert txs[..t] == txs;
      rest := [];
    } else {
      var k := |txs| - 1;
      var first := BlockSplit(txs[..k], height, t);
      assert txs[..k][..t] == txs[..t];
      var last := TxEvents(txs[k], height, InputCount(txs[..k]));
      rest := first + last;
      Regroup(BlockEvents(txs[..t], height), first, last);
    }
  }

  lemma {:induction false} TxNext(txs: seq<Tx>, height: nat, t: nat)
    requires t < |txs|
    ensures BlockEvents(txs[..t + 1], height) == BlockEvents(txs[..t], height) + TxEvents(txs[t], height, InputCount(txs[..t]))
    ensures InputCount(txs[..t + 1]) == InputCount(txs[..t]) + |InputsOf(txs[t])|
  {
    assert txs[..t + 1][..t] == txs[..t];
  }

  // A book at the start of a block: nothing local, nothing recorded.
  ghost predicate Fresh(live: map<Outpoint, Coin>, claims: nat, es: seq<Event>, height: nat) {
    && AllFit(es) && live == Live(es) && claims == |Claims(es)| && CreatedAt(es, height) == []
    && forall op :: op in live ==> live[op].height < height
  }

  // Stopping at transaction t is failing the block.
  lemma {:induction false} BlockFails(txs: seq<Tx>, height: nat, t: nat, es: seq<Event>)
    requires t <= |txs| && !AllFit(es + BlockEvents(txs[..t], height))
    ensures !AllFit(es + BlockEvents(txs, height))
  {
    var rest := BlockSplit(txs, height, t);
    Regroup(es, BlockEvents(txs[..t], height), rest);
    if AllFit(es + BlockEvents(txs, height)) { FitPrefix(es + BlockEvents(txs[..t], height), rest); }
  }

  /** One block. */
  method WalkBlock(live: map<Outpoint, Coin>, claims: nat, txs: seq<Tx>, height: nat, ghost es: seq<Event>) returns (r: Option<Book>)
    requires Fresh(live, claims, es, height)
    ensures r.Some? <==> AllFit(es + BlockEvents(txs, height))
    ensures r.Some? ==> Kept(r.value, es + BlockEvents(txs, height), height, |Claims(es)|)
  {
    var b := Book(live, {}, [], 0, [], claims);
    forall op ensures LocalAt(b, height, op) {}
    ghost var now, before := es, |Claims(es)|;
    assert Claims(es)[before..] == [];
    assert txs[..0] == [] && es + BlockEvents([], height) == es;
    for t := 0 to |txs|
      invariant now == es + BlockEvents(txs[..t], height)
      invariant Kept(b, now, height, before) && b.index == InputCount(txs[..t])
    {
      TxNext(txs, height, t);
      Regroup(es, BlockEvents(txs[..t], height), TxEvents(txs[t], height, b.index));
      r := WalkTx(b, txs[t], height, now, before);
      now := now + TxEvents(txs[t], height, b.index);
      if r.None? {
        BlockFails(txs, height, t + 1, es);
        return;
      }
      b := r.value;
    }
    assert txs[..|txs|] == txs;
    r := Some(b);
  }

  lemma {:induction false} ChainSplit(blocks: seq<Block>, h: nat, n: nat) returns (rest: seq<Event>)
    requires h <= n <= |blocks|
    ensures ChainEvents(blocks, n) == ChainEvents(blocks, h) + rest
    decreases n
  {
    if n == h || n <= 1 {
      rest := [];
      assert ChainEvents(blocks, n) == ChainEvents(blocks, h) == ChainEvents(blocks, h) + [];
    } else {
      var first := ChainSplit(blocks, h, n - 1);
      var last := BlockEvents(blocks[n - 1].txs, n - 1);
      rest := first + last;
      Regroup(ChainEvents(blocks, h), first, last);
    }
  }

  lemma {:induction false} ChainFails(blocks: seq<Block>, h: nat)
    requires h <= |blocks| && !AllFit(ChainEvents(blocks, h))
    ensures !AllFit(ChainEvents(blocks, |blocks|))
  {
    var rest := ChainSplit(blocks, h, |blocks|);
    if AllFit(ChainEvents(blocks, |blocks|)) { FitPrefix(ChainEvents(blocks, h), rest); }
  }

  // ---------- Which coins a height created ----------

  lemma {:induction false} CreatedAppend(es: seq<Event>, more: seq<Event>, height: nat)
    ensures CreatedAt(es + more, height) == CreatedAt(es, height) + CreatedAt(more, height)
    decreases |more|
  {
    if more == [] {
      assert es + more == es;
    } else {
      var k := |more| - 1;
      assert (es + more)[..|es| + k] == es + more[..k];
      CreatedAppend(es, more[..k], height);
    }
  }

  ghost predicate AllAt(es: seq<Event>, height: nat) {
    forall i :: 0 <= i < |es| ==> (if es[i].Create? then es[i].coin.height else es[i].height) == height
  }

  lemma {:induction false} CreatesAt(tx: Tx, height: nat, v: nat)
    requires v <= |tx.outputs|
    ensures AllAt(CreateEvents(tx, height, v), height)
  {
    if v > 0 { CreatesAt(tx, height, v - 1); }
  }

  lemma {:induction false} BlockAt(txs: seq<Tx>, height: nat)
    ensures AllAt(BlockEvents(txs, height), height)
  {
    if txs != [] {
      BlockAt(txs[..|txs| - 1], height);
      CreatesAt(txs[|txs| - 1], height, |txs[|txs| - 1].outputs|);
    }
  }

  lemma {:induction false} NoneCreated(es: seq<Event>, at: nat, height: nat)
    requires AllAt(es, at) && at != height
    ensures CreatedAt(es, height) == []
  {
    if es != [] {
      assert AllAt(es[..|es| - 1], at);
      NoneCreated(es[..|es| - 1], at, height);
    }
  }

  /** Only the block at a height creates coins of that height. */
  lemma {:induction false} CreatedByBlock(blocks: seq<Block>, n: nat, height: nat)
    requires n <= |blocks|
    ensures CreatedAt(ChainEvents(blocks, n), height) ==
            if 1 <= height < n then CreatedAt(BlockEvents(blocks[height].txs, height), height) else []
  {
    hide BlockEvents, AllAt, Live;
    if n > 1 {
      CreatedByBlock(blocks, n - 1, height);
      var block := BlockEvents(blocks[n - 1].txs, n - 1);
      CreatedAppend(ChainEvents(blocks, n - 1), block, height);
      BlockAt(blocks[n - 1].txs, n - 1);
      var before, added := CreatedAt(ChainEvents(blocks, n - 1), height), CreatedAt(block, height);
      if height == n - 1 {
        assert before == [] && before + added == added;
      } else {
        NoneCreated(block, n - 1, height);
        assert before + added == before;
      }
    }
  }
}
