/** The helper's answers for a whole chain, and what they mean. */
module UtxoHelper {
  import opened Wrappers
  import opened Utxo

  datatype Dataset = Dataset(responses: map<Hash, seq<SpentRecord>>, hints: seq<seq<nat>>, totalTxs: nat, totalClaims: nat)

  // ---------- The reference ----------

  function All(blocks: seq<Block>): seq<Event> { ChainEvents(blocks, |blocks|) }

  ghost predicate Accepted(blocks: seq<Block>) { AllFit(All(blocks)) }

  // The claims made by some events after others.
  function NewClaims(es: seq<Event>, more: seq<Event>): seq<SpentRecord> {
    if more == [] then []
    else NewClaims(es, more[..|more| - 1]) + ClaimOf(Live(es + more[..|more| - 1]), more[|more| - 1])
  }

  lemma {:induction false} ClaimsSplit(es: seq<Event>, more: seq<Event>)
    ensures Claims(es + more) == Claims(es) + NewClaims(es, more)
  {
    if more == [] {
      assert es + more == es;
    } else {
      var k := |more| - 1;
      assert es + more == (es + more[..k]) + [more[k]];
      OneMore(es + more[..k], more[k]);
      ClaimsSplit(es, more[..k]);
      Together(Claims(es), NewClaims(es, more[..k]), ClaimOf(Live(es + more[..k]), more[k]));
    }
  }

  lemma Together(x: seq<SpentRecord>, y: seq<SpentRecord>, z: seq<SpentRecord>)
    ensures x + y + z == x + (y + z)
  {}

  function BlockClaims(blocks: seq<Block>, h: nat): seq<SpentRecord>
    requires h < |blocks|
  {
    NewClaims(ChainEvents(blocks, h), BlockEvents(blocks[h].txs, h))
  }

  // Blocks with claims, by hash.
  function Responses(blocks: seq<Block>, n: nat): map<Hash, seq<SpentRecord>>
    requires n <= |blocks|
  {
    if n <= 1 then map[]
    else
      var before := Responses(blocks, n - 1);
      if BlockClaims(blocks, n - 1) == [] then before else before[blocks[n - 1].hash := BlockClaims(blocks, n - 1)]
  }

  function TxCount(blocks: seq<Block>, n: nat): nat
    requires n <= |blocks|
  {
    if n <= 1 then 0 else TxCount(blocks, n - 1) + |blocks[n - 1].txs|
  }

  function HintsAt(blocks: seq<Block>, h: nat): seq<nat> {
    Survivors(CreatedAt(All(blocks), h), Live(All(blocks)))
  }

  lemma {:induction false} HeightsBelow(es: seq<Event>, n: nat)
    requires forall i :: 0 <= i < |es| && es[i].Create? ==> es[i].coin.height < n
    ensures forall op :: op in Live(es) ==> Live(es)[op].height < n
  {
    if es != [] { HeightsBelow(es[..|es| - 1], n); }
  }

  lemma {:induction false} ChainHeights(blocks: seq<Block>, n: nat)
    requires n <= |blocks|
    ensures forall i :: 0 <= i < |ChainEvents(blocks, n)| && ChainEvents(blocks, n)[i].Create? ==>
              1 <= ChainEvents(blocks, n)[i].coin.height < n
  {
    if n > 1 {
      ChainHeights(blocks, n - 1);
      BlockAt(blocks[n - 1].txs, n - 1);
    }
  }

  // ---------- The helper ----------

  /** The survivors of one height. */
  method SurvivorsOf(created: seq<Outpoint>, live: map<Outpoint, Coin>) returns (hints: seq<nat>)
    ensures hints == Survivors(created, live)
  {
    hints := [];
    for i := 0 to |created|
      invariant hints == Survivors(created[..i], live)
    {
      assert created[..i + 1][..i] == created[..i];
      if created[i] in live { hints := hints + [i]; }
    }
    assert created[..|created|] == created;
  }

  // What each height had created after the first n blocks.
  ghost predicate CreatedSoFar(blocks: seq<Block>, n: nat, created: seq<seq<Outpoint>>)
    requires n <= |blocks|
  {
    |created| == MAX_BLOCKS && forall h {:trigger created[h]} :: 0 <= h < MAX_BLOCKS ==> created[h] == CreatedAt(ChainEvents(blocks, n), h)
  }

  lemma {:induction false} CreatedStep(blocks: seq<Block>, n: nat, created: seq<seq<Outpoint>>)
    requires 1 <= n < |blocks| && n < MAX_BLOCKS && CreatedSoFar(blocks, n, created)
    ensures CreatedSoFar(blocks, n + 1, created[n := CreatedAt(ChainEvents(blocks, n + 1), n)])
  {
    var es, block := ChainEvents(blocks, n), BlockEvents(blocks[n].txs, n);
    assert ChainEvents(blocks, n + 1) == es + block;
    BlockAt(blocks[n].txs, n);
    forall h | 0 <= h < MAX_BLOCKS && h != n ensures CreatedAt(ChainEvents(blocks, n + 1), h) == CreatedAt(es, h) {
      CreatedAppend(es, block, h);
      NoneCreated(block, n, h);
    }
  }

  // The book after block n.
  ghost predicate Stepped(blocks: seq<Block>, n: nat, b: Book)
    requires n < |blocks|
  {
    && AllFit(ChainEvents(blocks, n + 1)) && b.live == Live(ChainEvents(blocks, n + 1))
    && b.claims == |Claims(ChainEvents(blocks, n + 1))| && b.records == BlockClaims(blocks, n)
    && b.created == CreatedAt(ChainEvents(blocks, n + 1), n)
  }

  lemma {:induction false} FreshAt(blocks: seq<Block>, n: nat, live: map<Outpoint, Coin>, claims: nat)
    requires 1 <= n < |blocks| && AllFit(ChainEvents(blocks, n))
    requires live == Live(ChainEvents(blocks, n)) && claims == |Claims(ChainEvents(blocks, n))|
    ensures Fresh(live, claims, ChainEvents(blocks, n), n)
  {
    ChainHeights(blocks, n);
    HeightsBelow(ChainEvents(blocks, n), n);
    CreatedByBlock(blocks, n, n);
  }

  lemma {:induction false} KeptIsStepped(blocks: seq<Block>, n: nat, b: Book)
    requires 1 <= n < |blocks|
    requires Kept(b, ChainEvents(blocks, n) + BlockEvents(blocks[n].txs, n), n, |Claims(ChainEvents(blocks, n))|)
    ensures Stepped(blocks, n, b)
  {
    var es, block := ChainEvents(blocks, n), BlockEvents(blocks[n].txs, n);
    assert ChainEvents(blocks, n + 1) == es + block;
    ClaimsSplit(es, block);
  }

  lemma {:induction false} BlockStops(blocks: seq<Block>, n: nat)
    requires 1 <= n < |blocks| && !AllFit(ChainEvents(blocks, n) + BlockEvents(blocks[n].txs, n))
    ensures !Accepted(blocks)
  {
    hide AllFit, BlockEvents;
    assert ChainEvents(blocks, n + 1) == ChainEvents(blocks, n) + BlockEvents(blocks[n].txs, n);
    ChainFails(blocks, n + 1);
  }

  /** One block of the walk, or the failure of the whole. */
  method WalkOne(blocks: seq<Block>, n: nat, live: map<Outpoint, Coin>, claims: nat) returns (r: Option<Book>)
    requires 1 <= n < |blocks| && Fresh(live, claims, ChainEvents(blocks, n), n)
    ensures r.None? ==> !Accepted(blocks)
    ensures r.Some? ==> Stepped(blocks, n, r.value)
  {
    r := WalkBlock(live, claims, blocks[n].txs, n, ChainEvents(blocks, n));
    if r.None? {
      BlockStops(blocks, n);
    } else {
      KeptIsStepped(blocks, n, r.value);
    }
  }

  // The helper's variables before block n.
  datatype Totals = Totals(live: map<Outpoint, Coin>, created: seq<seq<Outpoint>>, responses: map<Hash, seq<SpentRecord>>,
                           txs: nat, claims: nat)

  ghost predicate Walked(blocks: seq<Block>, n: nat, t: Totals)
    requires n <= |blocks|
  {
    && AllFit(ChainEvents(blocks, n)) && t.live == Live(ChainEvents(blocks, n)) && t.claims == |Claims(ChainEvents(blocks, n))|
    && t.responses == Responses(blocks, n) && t.txs == TxCount(blocks, n) && CreatedSoFar(blocks, n, t.created)
  }

  function Start(): Totals { Totals(map[], seq(MAX_BLOCKS, _ => []), map[], 0, 0) }

  lemma WalkStart(blocks: seq<Block>, n: nat)
    requires n <= |blocks| && n <= 1
    ensures Walked(blocks, n, Start())
  {}

  /** What a block adds to the totals. */
  method Absorb(blocks: seq<Block>, n: nat, t: Totals, b: Book) returns (t': Totals)
    requires 1 <= n < |blocks| && n < MAX_BLOCKS && Walked(blocks, n, t) && Stepped(blocks, n, b)
    ensures Walked(blocks, n + 1, t')
  {
    CreatedStep(blocks, n, t.created);
    var responses := t.responses;
    if b.records != [] {
      responses := responses[blocks[n].hash := b.records];
    }
    t' := Totals(b.live, t.created[n := b.created], responses, t.txs + |blocks[n].txs|, b.claims);
  }

  /** One block into the totals, or the failure of the whole. */
  method WalkNext(blocks: seq<Block>, n: nat, t: Totals) returns (r: Option<Totals>)
    requires 1 <= n < |blocks| && n < MAX_BLOCKS && Walked(blocks, n, t)
    ensures r.None? ==> !Accepted(blocks)
    ensures r.Some? ==> Walked(blocks, n + 1, r.value)
  {
    FreshAt(blocks, n, t.live, t.claims);
    var b := WalkOne(blocks, n, t.live, t.claims);
    if b.None? {
      return None;
    }
    var t' := Absorb(blocks, n, t, b.value);
    return Some(t');
  }

  lemma WalkEnd(blocks: seq<Block>, n: nat, t: Totals)
    requires n == |blocks| && Walked(blocks, n, t)
    ensures Accepted(blocks)
  {}

  /** The walk over all blocks: what was created at each height, the claims, and the live map. */
  method Walk(blocks: seq<Block>) returns (r: Option<Totals>)
    requires |blocks| <= MAX_BLOCKS
    ensures r.Some? <==> Accepted(blocks)
    ensures r.Some? ==> Walked(blocks, |blocks|, r.value)
  {
    hide Walked, Accepted;
    var t := Start();
    var n := if blocks == [] then 0 else 1;
    WalkStart(blocks, n);
    while n < |blocks|
      invariant n <= |blocks| && (n == 0 ==> blocks == []) && Walked(blocks, n, t)
    {
      var next := WalkNext(blocks, n, t);
      if next.None? {
        return None;
      }
      n, t := n + 1, next.value;
    }
    WalkEnd(blocks, n, t);
    r := Some(t);
  }

  /** The helper succeeds exactly on the chains whose events all fit, and then its answers are those of the replay. */
  method HelperDataset(blocks: seq<Block>) returns (r: Option<Dataset>)
    requires |blocks| <= MAX_BLOCKS
    ensures r.Some? <==> Accepted(blocks)
    ensures r.Some? ==> r.value.responses == Responses(blocks, |blocks|) && r.value.totalTxs == TxCount(blocks, |blocks|)
    ensures r.Some? ==> r.value.totalClaims == |Claims(All(blocks))| && |r.value.hints| == 501 && r.value.hints[0] == []
    ensures r.Some? ==> forall h :: 1 <= h < 501 ==> r.value.hints[h] == HintsAt(blocks, h)
  {
    var walked := Walk(blocks);
    if walked.None? {
      return None;
    }
    var t := walked.value;
    var hints: seq<seq<nat>> := seq(MAX_BLOCKS, _ => []);
    for h := 1 to MAX_BLOCKS
      invariant |hints| == MAX_BLOCKS && hints[0] == []
      invariant forall k :: 1 <= k < h ==> hints[k] == HintsAt(blocks, k)
    {
      var survivors := SurvivorsOf(t.created[h], t.live);
      hints := hints[h := survivors];
    }
    return Some(Dataset(t.responses, hints, t.txs, t.claims));
  }

  // ---------- Claims ----------

  // At position k the input numbered rec.index spends a live coin of an earlier height, and rec holds that coin.
  ghost predicate ClaimedAt(es: seq<Event>, more: seq<Event>, k: nat, rec: SpentRecord)
    requires k < |more|
  {
    var live, e := Live(es + more[..k]), more[k];
    && e.Spend? && e.index == rec.index
    && e.op in live && live[e.op] == rec.coin && rec.coin.height < e.height
  }

  lemma {:induction false} ClaimIsSpend(es: seq<Event>, more: seq<Event>, rec: SpentRecord) returns (k: nat)
    requires rec in NewClaims(es, more)
    ensures k < |more| && ClaimedAt(es, more, k, rec)
    decreases |more|
  {
    var e := |more| - 1;
    if rec in NewClaims(es, more[..e]) {
      k := ClaimIsSpend(es, more[..e], rec);
      assert more[..e][..k] == more[..k];
    } else {
      k := e;
    }
  }

  lemma {:induction false} SpendIsClaim(es: seq<Event>, more: seq<Event>, k: nat, rec: SpentRecord)
    requires k < |more| && ClaimedAt(es, more, k, rec)
    ensures rec in NewClaims(es, more)
    decreases |more|
  {
    var e := |more| - 1;
    if k < e {
      assert more[..e][..k] == more[..k];
      SpendIsClaim(es, more[..e], k, rec);
    }
  }

  ghost predicate Claimed(es: seq<Event>, more: seq<Event>, rec: SpentRecord) {
    exists k: nat {:trigger ClaimedAt(es, more, k, rec)} :: k < |more| && ClaimedAt(es, more, k, rec)
  }

  /** A claim list holds exactly the inputs that spend coins of earlier heights, with those coins. */
  lemma {:induction false} ClaimsAreSpends(es: seq<Event>, more: seq<Event>, rec: SpentRecord)
    ensures rec in NewClaims(es, more) <==> Claimed(es, more, rec)
  {
    if rec in NewClaims(es, more) {
      var k := ClaimIsSpend(es, more, rec);
    } else if Claimed(es, more, rec) {
      var k: nat :| k < |more| && ClaimedAt(es, more, k, rec);
      SpendIsClaim(es, more, k, rec);
    }
  }

  // The spends of a block number its inputs in order, all below n.
  ghost predicate Numbered(es: seq<Event>, n: nat) {
    && (forall i :: 0 <= i < |es| && es[i].Spend? ==> es[i].index < n)
    && (forall i, j :: 0 <= i < j < |es| && es[i].Spend? && es[j].Spend? ==> es[i].index < es[j].index)
  }

  lemma {:induction false} OnlyCreates(tx: Tx, height: nat, v: nat)
    requires v <= |tx.outputs|
    ensures forall i :: 0 <= i < |CreateEvents(tx, height, v)| ==> CreateEvents(tx, height, v)[i].Create?
  {
    if v > 0 { OnlyCreates(tx, height, v - 1); }
  }

  lemma {:induction false} BlockNumbered(txs: seq<Tx>, height: nat)
    ensures Numbered(BlockEvents(txs, height), InputCount(txs))
  {
    if txs != [] {
      var k := |txs| - 1;
      BlockNumbered(txs[..k], height);
      OnlyCreates(txs[k], height, |txs[k].outputs|);
    }
  }

  ghost predicate Increasing(records: seq<SpentRecord>) {
    forall i, j :: 0 <= i < j < |records| ==> records[i].index < records[j].index
  }

  ghost predicate Below(records: seq<SpentRecord>, n: nat) {
    forall i :: 0 <= i < |records| ==> records[i].index < n
  }

  lemma OneMoreRecord(records: seq<SpentRecord>, rec: SpentRecord, n: nat)
    requires Increasing(records) && Below(records, rec.index) && rec.index < n
    ensures Increasing(records + [rec]) && Below(records + [rec], n)
  {}

  lemma NumberedPrefix(es: seq<Event>, n: nat)
    requires es != [] && Numbered(es, n)
    ensures var k := |es| - 1; Numbered(es[..k], if es[k].Spend? then es[k].index else n) && (es[k].Spend? ==> es[k].index < n)
  {}

  /** Claims come in strictly increasing input order. */
  lemma {:induction false} ClaimsIncrease(es: seq<Event>, more: seq<Event>, n: nat)
    requires Numbered(more, n)
    ensures Increasing(NewClaims(es, more)) && Below(NewClaims(es, more), n)
    decreases |more|
  {
    if more != [] {
      var k := |more| - 1;
      var e, first := more[k], NewClaims(es, more[..k]);
      NumberedPrefix(more, n);
      ClaimsIncrease(es, more[..k], if e.Spend? then e.index else n);
      var claim := ClaimOf(Live(es + more[..k]), e);
      if claim == [] {
        assert first + claim == first;
      } else {
        OneMoreRecord(first, claim[0], n);
      }
    }
  }

  lemma BlockClaimsIncrease(blocks: seq<Block>, h: nat)
    requires h < |blocks|
    ensures Increasing(BlockClaims(blocks, h))
  {
    BlockNumbered(blocks[h].txs, h);
    ClaimsIncrease(ChainEvents(blocks, h), BlockEvents(blocks[h].txs, h), InputCount(blocks[h].txs));
  }
}
