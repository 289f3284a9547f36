/**
 What the helper's walk and its answers are, block by block: which events a
 chain has and in what order, and which claims are filed under which hash.
 */
module UtxoAnswers {
  import opened Wrappers
  import opened Utxo
  import opened UtxoHelper

  // ---------- The places of a chain ----------

  // Input i or output i of transaction t of the block at height h.
  datatype Place = In(h: nat, t: nat, i: nat) | Out(h: nat, t: nat, i: nat)

  // Earlier blocks and transactions come first, and a transaction's inputs before its outputs.
  predicate Before(p: Place, q: Place) {
    p.h < q.h || (p.h == q.h && (p.t < q.t || (p.t == q.t && ((p.In? && q.Out?) || (p.In? == q.In? && p.i < q.i)))))
  }

  // The inputs of all but coinbase transactions, and the outputs whose script does not start with byte 106; height 0 has none.
  predicate IsPlace(blocks: seq<Block>, p: Place) {
    && 1 <= p.h < |blocks| && p.t < |blocks[p.h].txs|
    && var tx := blocks[p.h].txs[p.t];
       match p
       case In(_, _, i) => !tx.coinbase && i < |tx.inputs|
       case Out(_, _, i) => i < |tx.outputs| && (tx.outputs[i].script == [] || tx.outputs[i].script[0] != 106)
  }

  // The inputs of the block before transaction t.
  ghost function InputsBefore(txs: seq<Tx>, t: nat): set<(int, int)>
    requires t <= |txs|
  {
    set u, i | 0 <= u < t && !txs[u].coinbase && 0 <= i < |txs[u].inputs| :: (u, i)
  }

  // What happens at a place: an input spends its outpoint, an output creates its coin.
  ghost predicate Happens(blocks: seq<Block>, p: Place, e: Event) {
    && IsPlace(blocks, p)
    && var txs := blocks[p.h].txs;
       var tx := txs[p.t];
       match p
       case In(h, t, i) => e == Spend(tx.inputs[i], h, |InputsBefore(txs, t)| + i)
       case Out(h, t, i) => e == Create(Outpoint(tx.txid, i), Coin(tx.outputs[i], h, tx.coinbase))
  }

  // The events are those of the places before `end`, all of them and in order.
  ghost predicate ListedUpTo(blocks: seq<Block>, es: seq<Event>, places: seq<Place>, end: Place) {
    && |places| == |es|
    && (forall k {:trigger places[k]} :: 0 <= k < |es| ==> Happens(blocks, places[k], es[k]) && Before(places[k], end))
    && (forall k, m {:trigger places[k], places[m]} :: 0 <= k < m < |es| ==> Before(places[k], places[m]))
    && (forall p {:trigger IsPlace(blocks, p)} :: IsPlace(blocks, p) && Before(p, end) ==> p in places)
  }

  lemma ListedOne(blocks: seq<Block>, es: seq<Event>, places: seq<Place>, p: Place, e: Event)
    requires ListedUpTo(blocks, es, places, p) && Happens(blocks, p, e)
    ensures ListedUpTo(blocks, es + [e], places + [p], p.(i := p.i + 1))
  {
    var end := p.(i := p.i + 1);
    forall q | IsPlace(blocks, q) && Before(q, end) ensures q in places + [p] {
      assert q == p || Before(q, p);
    }
  }

  lemma ListedSkip(blocks: seq<Block>, es: seq<Event>, places: seq<Place>, p: Place, end: Place)
    requires ListedUpTo(blocks, es, places, p)
    requires forall q {:trigger IsPlace(blocks, q)} :: IsPlace(blocks, q) && Before(q, end) ==> Before(q, p)
    requires forall q :: Before(q, p) ==> Before(q, end)
    ensures ListedUpTo(blocks, es, places, end)
  {}

  lemma {:induction false} InputsCounted(txs: seq<Tx>, t: nat)
    requires t <= |txs|
    ensures |InputsBefore(txs, t)| == InputCount(txs[..t])
  {
    if t > 0 {
      InputsCounted(txs, t - 1);
      assert txs[..t][..t - 1] == txs[..t - 1];
      RowCounted(t - 1, |InputsOf(txs[t - 1])|);
      assert InputsBefore(txs, t) == InputsBefore(txs, t - 1) + InputRow(t - 1, |InputsOf(txs[t - 1])|);
      assert InputsBefore(txs, t - 1) !! InputRow(t - 1, |InputsOf(txs[t - 1])|);
    }
  }

  ghost function InputRow(u: int, n: nat): set<(int, int)> { set i | 0 <= i < n :: (u, i) }

  lemma {:induction false} RowCounted(u: int, n: nat)
    ensures |InputRow(u, n)| == n
  {
    if n > 0 {
      RowCounted(u, n - 1);
      assert InputRow(u, n) == InputRow(u, n - 1) + {(u, n - 1)};
    }
  }

  lemma {:induction false} SpendsListed(blocks: seq<Block>, es: seq<Event>, places: seq<Place>, h: nat, t: nat, n: nat)
      returns (more: seq<Place>)
    requires 1 <= h < |blocks| && t < |blocks[h].txs| && n <= |InputsOf(blocks[h].txs[t])|
    requires ListedUpTo(blocks, es, places, In(h, t, 0))
    ensures var txs := blocks[h].txs;
            ListedUpTo(blocks, es + SpendEvents(InputsOf(txs[t]), h, InputCount(txs[..t]))[..n], more, In(h, t, n))
    decreases n
  {
    var txs := blocks[h].txs;
    var spends := SpendEvents(InputsOf(txs[t]), h, InputCount(txs[..t]));
    if n == 0 {
      more := places;
      assert es + spends[..0] == es;
    } else {
      var before := SpendsListed(blocks, es, places, h, t, n - 1);
      InputsCounted(txs, t);
      ListedOne(blocks, es + spends[..n - 1], before, In(h, t, n - 1), spends[n - 1]);
      more := before + [In(h, t, n - 1)];
      assert es + spends[..n] == es + spends[..n - 1] + [spends[n - 1]];
    }
  }

  lemma {:induction false} CreatesListed(blocks: seq<Block>, es: seq<Event>, places: seq<Place>, h: nat, t: nat, n: nat)
      returns (more: seq<Place>)
    requires 1 <= h < |blocks| && t < |blocks[h].txs| && n <= |blocks[h].txs[t].outputs|
    requires ListedUpTo(blocks, es, places, Out(h, t, 0))
    ensures ListedUpTo(blocks, es + CreateEvents(blocks[h].txs[t], h, n), more, Out(h, t, n))
    decreases n
  {
    var tx := blocks[h].txs[t];
    if n == 0 {
      more := places;
      assert es + CreateEvents(tx, h, 0) == es;
    } else {
      var before := CreatesListed(blocks, es, places, h, t, n - 1);
      var p, so := Out(h, t, n - 1), es + CreateEvents(tx, h, n - 1);
      assert es + CreateEvents(tx, h, n) == so + CreateOne(tx, h, n - 1);
      if Spendable(tx.outputs[n - 1]) {
        ListedOne(blocks, so, before, p, CreateOne(tx, h, n - 1)[0]);
        more := before + [p];
      } else {
        more := before;
        ListedSkip(blocks, so, before, p, Out(h, t, n));
        assert so + [] == so;
      }
    }
  }

  lemma SkipToOutputs(blocks: seq<Block>, es: seq<Event>, places: seq<Place>, h: nat, t: nat)
    requires h < |blocks| && t < |blocks[h].txs|
    requires ListedUpTo(blocks, es, places, In(h, t, |InputsOf(blocks[h].txs[t])|))
    ensures ListedUpTo(blocks, es, places, Out(h, t, 0))
  {
    ListedSkip(blocks, es, places, In(h, t, |InputsOf(blocks[h].txs[t])|), Out(h, t, 0));
  }

  lemma SkipToNext(blocks: seq<Block>, es: seq<Event>, places: seq<Place>, h: nat, t: nat)
    requires h < |blocks| && t < |blocks[h].txs|
    requires ListedUpTo(blocks, es, places, Out(h, t, |blocks[h].txs[t].outputs|))
    ensures ListedUpTo(blocks, es, places, In(h, t + 1, 0))
  {
    ListedSkip(blocks, es, places, Out(h, t, |blocks[h].txs[t].outputs|), In(h, t + 1, 0));
  }

  lemma {:induction false} TxListed(blocks: seq<Block>, es: seq<Event>, places: seq<Place>, h: nat, t: nat)
      returns (more: seq<Place>)
    requires 1 <= h < |blocks| && t < |blocks[h].txs| && ListedUpTo(blocks, es, places, In(h, t, 0))
    ensures ListedUpTo(blocks, es + TxEvents(blocks[h].txs[t], h, InputCount(blocks[h].txs[..t])), more, In(h, t + 1, 0))
  {
    hide ListedUpTo;
    var tx, n := blocks[h].txs[t], |InputsOf(blocks[h].txs[t])|;
    var spends := SpendEvents(InputsOf(tx), h, InputCount(blocks[h].txs[..t]));
    more := SpendsListed(blocks, es, places, h, t, n);
    assert spends[..n] == spends;
    SkipToOutputs(blocks, es + spends, more, h, t);
    more := CreatesListed(blocks, es + spends, more, h, t, |tx.outputs|);
    assert es + TxEvents(tx, h, InputCount(blocks[h].txs[..t])) == es + spends + CreateEvents(tx, h, |tx.outputs|);
    SkipToNext(blocks, es + spends + CreateEvents(tx, h, |tx.outputs|), more, h, t);
  }

  lemma {:induction false} TxsListed(blocks: seq<Block>, es: seq<Event>, places: seq<Place>, h: nat, t: nat)
      returns (more: seq<Place>)
    requires 1 <= h < |blocks| && t <= |blocks[h].txs|
    requires ListedUpTo(blocks, es, places, In(h, 0, 0))
    ensures ListedUpTo(blocks, es + BlockEvents(blocks[h].txs[..t], h), more, In(h, t, 0))
    decreases t
  {
    hide ListedUpTo;
    var txs := blocks[h].txs;
    if t == 0 {
      more := places;
      assert es + BlockEvents(txs[..0], h) == es;
    } else {
      var u := t - 1;
      var so := es + BlockEvents(txs[..u], h);
      more := TxsListed(blocks, es, places, h, u);
      more := TxListed(blocks, so, more, h, u);
      TxNext(txs, h, u);
      assert es + BlockEvents(txs[..t], h) == so + TxEvents(txs[u], h, InputCount(txs[..u]));
    }
  }

  lemma SkipToBlock(blocks: seq<Block>, es: seq<Event>, places: seq<Place>, h: nat)
    requires h < |blocks| && ListedUpTo(blocks, es, places, In(h, |blocks[h].txs|, 0))
    ensures ListedUpTo(blocks, es, places, In(h + 1, 0, 0))
  {
    ListedSkip(blocks, es, places, In(h, |blocks[h].txs|, 0), In(h + 1, 0, 0));
  }

  lemma {:induction false} NothingListed(blocks: seq<Block>)
    requires |blocks| >= 1
    ensures ListedUpTo(blocks, ChainEvents(blocks, 1), [], In(1, 0, 0))
  {}

  lemma {:induction false} ChainNext(blocks: seq<Block>, h: nat)
    requires 1 <= h < |blocks|
    ensures ChainEvents(blocks, h + 1) == ChainEvents(blocks, h) + BlockEvents(blocks[h].txs[..|blocks[h].txs|], h)
  {
    assert blocks[h].txs[..|blocks[h].txs|] == blocks[h].txs;
  }

  lemma {:induction false} ChainListed(blocks: seq<Block>, n: nat) returns (places: seq<Place>)
    requires 1 <= n <= |blocks|
    ensures ListedUpTo(blocks, ChainEvents(blocks, n), places, In(n, 0, 0))
    decreases n
  {
    hide ListedUpTo, ChainEvents, BlockEvents;
    if n == 1 {
      places := [];
      NothingListed(blocks);
    } else {
      var h := n - 1;
      places := ChainListed(blocks, h);
      places := TxsListed(blocks, ChainEvents(blocks, h), places, h, |blocks[h].txs|);
      ChainNext(blocks, h);
      SkipToBlock(blocks, ChainEvents(blocks, n), places, h);
    }
  }

  // The events of the whole chain, at their places.
  ghost predicate Listed(blocks: seq<Block>, es: seq<Event>, places: seq<Place>) {
    && |places| == |es|
    && (forall k {:trigger places[k]} :: 0 <= k < |es| ==> Happens(blocks, places[k], es[k]))
    && (forall k, m {:trigger places[k], places[m]} :: 0 <= k < m < |es| ==> Before(places[k], places[m]))
    && (forall p {:trigger IsPlace(blocks, p)} :: IsPlace(blocks, p) ==> p in places)
  }

  /** The chain's events are those of its inputs and spendable outputs, each once and in chain order. */
  lemma EventsAreListed(blocks: seq<Block>) returns (places: seq<Place>)
    ensures Listed(blocks, All(blocks), places)
  {
    if blocks == [] {
      places := [];
    } else {
      places := ChainListed(blocks, |blocks|);
    }
  }

  // ---------- Bounds ----------

  /** An event is accepted when its coin is there, or not yet there, and no cap is passed afterwards. */
  lemma FitsMeans(m: map<Outpoint, Coin>, claims: nat, e: Event)
    ensures Fits(m, claims, e) <==>
              if e.Spend? then e.op in m && e.index < 100_000 && (m[e.op].height < e.height ==> claims + 1 <= 100_000)
              else e.op !in m && |Next(m, e)| <= 1_000_000
  {
    if e.Create? && e.op !in m {
      assert Next(m, e).Keys == m.Keys + {e.op};
      assert |Next(m, e).Keys| == |Next(m, e)| && |m.Keys| == |m|;
    }
  }

  // ---------- Claims by hash ----------

  // rec is a claim of the block at height h.
  ghost predicate ClaimedBy(blocks: seq<Block>, h: nat, rec: SpentRecord) {
    1 <= h < |blocks| && Claimed(ChainEvents(blocks, h), BlockEvents(blocks[h].txs, h), rec)
  }

  // Some input of the block spends a coin of an earlier height.
  ghost predicate SpendsEarlier(blocks: seq<Block>, h: nat) {
    exists rec :: ClaimedBy(blocks, h, rec)
  }

  // The list has exactly the block's claims, in increasing order of their inputs.
  ghost predicate AnswersFor(blocks: seq<Block>, h: nat, list: seq<SpentRecord>) {
    && (forall rec :: rec in list <==> ClaimedBy(blocks, h, rec))
    && (forall i, j :: 0 <= i < j < |list| ==> list[i].index < list[j].index)
  }

  // Below n, the last block of that hash with a claim is the one at height h.
  ghost predicate LastClaiming(blocks: seq<Block>, n: nat, hash: Hash, h: nat) {
    && 1 <= h < n <= |blocks| && blocks[h].hash == hash && SpendsEarlier(blocks, h)
    && forall g: nat {:trigger SpendsEarlier(blocks, g)} :: h < g < n && blocks[g].hash == hash ==> !SpendsEarlier(blocks, g)
  }

  lemma BlockClaimsAnswer(blocks: seq<Block>, h: nat)
    requires 1 <= h < |blocks|
    ensures AnswersFor(blocks, h, BlockClaims(blocks, h))
    ensures BlockClaims(blocks, h) != [] <==> SpendsEarlier(blocks, h)
  {
    hide ClaimedAt, NewClaims;
    var claims := BlockClaims(blocks, h);
    BlockClaimsIncrease(blocks, h);
    forall rec ensures rec in claims <==> ClaimedBy(blocks, h, rec) {
      ClaimsAreSpends(ChainEvents(blocks, h), BlockEvents(blocks[h].txs, h), rec);
    }
    if claims != [] { assert ClaimedBy(blocks, h, claims[0]); }
  }

  lemma LastClaimingNext(blocks: seq<Block>, n: nat, hash: Hash, h: nat)
    requires 1 <= n < |blocks|
    ensures LastClaiming(blocks, n + 1, hash, h) <==>
              if blocks[n].hash == hash && SpendsEarlier(blocks, n) then h == n else LastClaiming(blocks, n, hash, h)
  {
    hide SpendsEarlier;
  }

  // The claims filed under the hash below n are those of the block at height h.
  ghost predicate FiledFrom(blocks: seq<Block>, n: nat, hash: Hash, h: nat)
    requires n <= |blocks|
  {
    hash in Responses(blocks, n) && AnswersFor(blocks, h, Responses(blocks, n)[hash])
  }

  lemma {:induction false} FiledFromNext(blocks: seq<Block>, n: nat, hash: Hash)
    requires 1 <= n < |blocks|
    ensures blocks[n].hash == hash && SpendsEarlier(blocks, n) ==> FiledFrom(blocks, n + 1, hash, n)
    ensures !(blocks[n].hash == hash && SpendsEarlier(blocks, n)) ==>
              (hash in Responses(blocks, n + 1) <==> hash in Responses(blocks, n)) &&
              forall h :: FiledFrom(blocks, n, hash, h) ==> FiledFrom(blocks, n + 1, hash, h)
  {
    hide SpendsEarlier, AnswersFor, BlockClaims;
    BlockClaimsAnswer(blocks, n);
  }

  lemma {:induction false} ResponsesUpTo(blocks: seq<Block>, n: nat, hash: Hash)
    requires n <= |blocks|
    ensures hash in Responses(blocks, n) <==> exists h :: LastClaiming(blocks, n, hash, h)
    ensures forall h :: LastClaiming(blocks, n, hash, h) ==> FiledFrom(blocks, n, hash, h)
    decreases n
  {
    if n > 1 {
      hide SpendsEarlier, Responses, LastClaiming;
      var k := n - 1;
      ResponsesUpTo(blocks, k, hash);
      FiledFromNext(blocks, k, hash);
      forall h ensures LastClaiming(blocks, n, hash, h) <==>
                         if blocks[k].hash == hash && SpendsEarlier(blocks, k) then h == k else LastClaiming(blocks, k, hash, h)
      {
        LastClaimingNext(blocks, k, hash, h);
      }
      if blocks[k].hash == hash && SpendsEarlier(blocks, k) { assert LastClaiming(blocks, n, hash, k); }
    }
  }

  /** A hash is answered exactly when a block of that hash has claims, with exactly those of the last such block, in order. */
  lemma {:induction false} ResponsesMean(blocks: seq<Block>, hash: Hash)
    ensures hash in Responses(blocks, |blocks|) <==> exists h :: LastClaiming(blocks, |blocks|, hash, h)
    ensures forall h {:trigger LastClaiming(blocks, |blocks|, hash, h)} :: LastClaiming(blocks, |blocks|, hash, h) ==>
              hash in Responses(blocks, |blocks|) && AnswersFor(blocks, h, Responses(blocks, |blocks|)[hash])
  {
    ResponsesUpTo(blocks, |blocks|, hash);
  }

  /** With distinct hashes every block that spends earlier coins has its own claims under its own hash. */
  lemma {:induction false} DistinctHashesAnswered(blocks: seq<Block>, h: nat)
    requires 1 <= h < |blocks| && forall g, k :: 1 <= g < k < |blocks| ==> blocks[g].hash != blocks[k].hash
    ensures blocks[h].hash in Responses(blocks, |blocks|) <==> SpendsEarlier(blocks, h)
    ensures SpendsEarlier(blocks, h) ==> AnswersFor(blocks, h, Responses(blocks, |blocks|)[blocks[h].hash])
  {
    hide SpendsEarlier, AnswersFor, Responses;
    ResponsesMean(blocks, blocks[h].hash);
    if SpendsEarlier(blocks, h) { assert LastClaiming(blocks, |blocks|, blocks[h].hash, h); }
    forall g | LastClaiming(blocks, |blocks|, blocks[h].hash, g) ensures g == h {}
  }

  // ---------- Transactions ----------

  ghost function Transactions(blocks: seq<Block>, n: nat): set<(int, int)>
    requires n <= |blocks|
  {
    set h, t | 1 <= h < n && 0 <= t < |blocks[h].txs| :: (h, t)
  }

  /** The transaction total counts every transaction above height 0 once. */
  lemma {:induction false} TxCountMeans(blocks: seq<Block>, n: nat)
    requires n <= |blocks|
    ensures TxCount(blocks, n) == |Transactions(blocks, n)|
  {
    if n <= 1 {
      assert Transactions(blocks, n) == {};
    } else {
      var h := n - 1;
      TxCountMeans(blocks, h);
      RowCounted(h, |blocks[h].txs|);
      assert Transactions(blocks, n) == Transactions(blocks, h) + InputRow(h, |blocks[h].txs|);
      assert Transactions(blocks, h) !! InputRow(h, |blocks[h].txs|);
    }
  }

  // ---------- Outputs of a height ----------

  // The positions of the creations of a height, in order.
  ghost predicate CreationOrder(es: seq<Event>, height: nat, at: seq<nat>) {
    && (forall k :: 0 <= k < |at| ==> at[k] < |es| && es[at[k]].Create? && es[at[k]].coin.height == height)
    && (forall k, m :: 0 <= k < m < |at| ==> at[k] < at[m])
    && (forall j: nat :: j < |es| && es[j].Create? && es[j].coin.height == height ==> j in at)
  }

  lemma OneMoreCreation(es: seq<Event>, height: nat, at: seq<nat>)
    requires es != [] && CreationOrder(es[..|es| - 1], height, at)
    ensures var last := |es| - 1;
            CreationOrder(es, height, at + if es[last].Create? && es[last].coin.height == height then [last] else [])
  {
    var last := |es| - 1;
    var more := if es[last].Create? && es[last].coin.height == height then [last] else [];
    forall j: nat | j < |es| && es[j].Create? && es[j].coin.height == height ensures j in at + more {
      if j < last { assert es[..last][j] == es[j]; }
    }
  }

  lemma {:induction false} CreatedLast(es: seq<Event>, height: nat)
    requires es != []
    ensures var last := |es| - 1;
            CreatedAt(es, height) == CreatedAt(es[..last], height) +
              if es[last].Create? && es[last].coin.height == height then [es[last].op] else []
  {}

  /** Ordinal k of a height is its k-th created output. */
  lemma {:induction false} CreatedInOrder(es: seq<Event>, height: nat) returns (at: seq<nat>)
    ensures CreationOrder(es, height, at) && |at| == |CreatedAt(es, height)|
    ensures forall k :: 0 <= k < |at| ==> at[k] < |es| && CreatedAt(es, height)[k] == es[at[k]].op
    decreases |es|
  {
    if es == [] {
      at := [];
    } else {
      hide CreationOrder, CreatedAt;
      CreatedLast(es, height);
      var last := |es| - 1;
      var before := CreatedInOrder(es[..last], height);
      OneMoreCreation(es, height, before);
      if es[last].Create? && es[last].coin.height == height {
        at := before + [last];
      } else {
        at := before + [];
      }
    }
  }

  /** The hints of a height come in increasing order. */
  lemma {:induction false} SurvivorsIncrease(created: seq<Outpoint>, live: map<Outpoint, Coin>)
    ensures var s := Survivors(created, live);
            (forall i, j :: 0 <= i < j < |s| ==> s[i] < s[j]) && (forall i :: 0 <= i < |s| ==> s[i] < |created|)
    decreases |created|
  {
    if created != [] {
      var k := |created| - 1;
      SurvivorsIncrease(created[..k], live);
      if created[k] in live {
        assert Survivors(created, live) == Survivors(created[..k], live) + [k];
      } else {
        assert Survivors(created, live) == Survivors(created[..k], live);
      }
    }
  }
}
