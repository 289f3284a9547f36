/**
 What survives a chain: which coins the hints name, when those are exactly the
 outputs that are never spent, and how the created outputs are accounted for.
 */
module UtxoSurvivors {
  import opened Wrappers
  import opened Utxo
  import opened UtxoHelper

  ghost predicate CreatedIn(es: seq<Event>, op: Outpoint) {
    exists i :: 0 <= i < |es| && es[i].Create? && es[i].op == op
  }

  ghost predicate SpentIn(es: seq<Event>, op: Outpoint) {
    exists i :: 0 <= i < |es| && es[i].Spend? && es[i].op == op
  }

  // Positions i and j create the same outpoint.
  ghost predicate Repeats(es: seq<Event>, i: int, j: int) {
    0 <= i < j < |es| && es[i].Create? && es[j].Create? && es[i].op == es[j].op
  }

  ghost predicate DistinctCreates(es: seq<Event>) {
    forall i, j {:trigger Repeats(es, i, j)} :: !Repeats(es, i, j)
  }

  /** An outpoint that is created again is spent again afterwards. */
  ghost predicate RepeatsAreSpent(es: seq<Event>) {
    forall i, j {:trigger Repeats(es, i, j)} :: Repeats(es, i, j) ==> SpentIn(es[j..], es[j].op)
  }

  // No outpoint of the map is created twice.
  ghost predicate OnceAmong(es: seq<Event>, live: map<Outpoint, Coin>) {
    forall i, j {:trigger Repeats(es, i, j)} :: Repeats(es, i, j) ==> es[i].op !in live
  }

  // ---------- Live and spent ----------

  lemma {:induction false} LiveWasCreated(es: seq<Event>, op: Outpoint)
    requires op in Live(es)
    ensures CreatedIn(es, op)
  {
    var k := |es| - 1;
    if es[k].Create? && es[k].op == op {
    } else {
      LiveWasCreated(es[..k], op);
    }
  }

  lemma SpentInPart(es: seq<Event>, i: nat, j: nat, op: Outpoint)
    requires i <= j <= |es| && SpentIn(es[..j][i..], op)
    ensures SpentIn(es[i..], op) && SpentIn(es, op)
  {
    var k :| 0 <= k < j - i && es[..j][i..][k].Spend? && es[..j][i..][k].op == op;
    assert es[i..][k] == es[i + k] == es[..j][i..][k];
  }

  lemma SpentAfter(es: seq<Event>, j: nat, k: nat)
    requires j <= k < |es| && es[k].Spend?
    ensures SpentIn(es[j..], es[k].op)
  {
    assert es[j..][k - j] == es[k];
  }

  lemma SpentInTail(es: seq<Event>, j: nat, op: Outpoint)
    requires j <= |es| && SpentIn(es[j..], op)
    ensures SpentIn(es, op)
  {
    var k :| 0 <= k < |es| - j && es[j..][k].Spend? && es[j..][k].op == op;
    assert es[j..][k] == es[j + k];
  }

  /** A created coin that is not spent afterwards stays live. */
  lemma {:induction false} CreatedStays(es: seq<Event>, j: nat)
    requires j < |es| && es[j].Create? && !SpentIn(es[j..], es[j].op)
    ensures es[j].op in Live(es)
  {
    var k := |es| - 1;
    if j < k {
      if SpentIn(es[..k][j..], es[j].op) { SpentInPart(es, j, k, es[j].op); }
      if es[k].Spend? { SpentAfter(es, j, k); }
      CreatedStays(es[..k], j);
    }
  }

  /** A live coin has a creation after which it is not spent. */
  lemma {:induction false} LastCreation(es: seq<Event>, op: Outpoint) returns (j: nat)
    requires op in Live(es)
    ensures j < |es| && es[j].Create? && es[j].op == op && !SpentIn(es[j..], op)
  {
    var k := |es| - 1;
    if es[k].Create? && es[k].op == op {
      j := k;
      assert es[k..] == [es[k]];
    } else {
      j := LastCreation(es[..k], op);
      assert es[j..] == es[..k][j..] + [es[k]];
    }
  }

  /** An accepted walk creates an outpoint again only after it was spent. */
  lemma RepeatFollowsSpend(es: seq<Event>, i: nat, j: nat)
    requires AllFit(es) && Repeats(es, i, j)
    ensures SpentIn(es[..j][i..], es[i].op) && SpentIn(es, es[i].op)
  {
    assert FitAt(es, j);
    if !SpentIn(es[..j][i..], es[i].op) { CreatedStays(es[..j], i); }
    SpentInPart(es, i, j, es[i].op);
  }

  /** A coin that is live although it was spent was created again. */
  lemma SpentYetLive(es: seq<Event>, op: Outpoint) returns (i: nat, j: nat)
    requires AllFit(es) && op in Live(es) && SpentIn(es, op)
    ensures Repeats(es, i, j) && es[j].op == op && !SpentIn(es[j..], op)
  {
    j := LastCreation(es, op);
    var k :| 0 <= k < |es| && es[k].Spend? && es[k].op == op;
    assert FitAt(es, k);
    LiveWasCreated(es[..k], op);
    i :| 0 <= i < |es[..k]| && es[..k][i].Create? && es[..k][i].op == op;
    if k >= j { SpentAfter(es, j, k); }
  }

  lemma {:induction false} RepeatsAreOnce(es: seq<Event>)
    requires AllFit(es)
    ensures RepeatsAreSpent(es) <==> OnceAmong(es, Live(es))
  {
    if RepeatsAreSpent(es) {
      forall i, j | Repeats(es, i, j) ensures es[i].op !in Live(es) {
        if es[i].op in Live(es) {
          RepeatFollowsSpend(es, i, j);
          var i', j' := SpentYetLive(es, es[i].op);
        }
      }
    }
    if OnceAmong(es, Live(es)) {
      forall i, j | Repeats(es, i, j) ensures SpentIn(es[j..], es[j].op) {
        if !SpentIn(es[j..], es[j].op) { CreatedStays(es, j); }
      }
    }
  }

  // Being live is being created and never spent.
  ghost predicate LiveIsUnspent(es: seq<Event>) {
    forall op {:trigger SpentIn(es, op)} :: op in Live(es) <==> CreatedIn(es, op) && !SpentIn(es, op)
  }

  /** The live coins are the created and never spent ones exactly when every repeated outpoint is spent again. */
  lemma LiveMeansUnspent(es: seq<Event>)
    requires AllFit(es)
    ensures LiveIsUnspent(es) <==> RepeatsAreSpent(es)
  {
    if RepeatsAreSpent(es) {
      forall op ensures op in Live(es) <==> CreatedIn(es, op) && !SpentIn(es, op) {
        if op in Live(es) {
          LiveWasCreated(es, op);
          if SpentIn(es, op) {
            var i, j := SpentYetLive(es, op);
          }
        } else if CreatedIn(es, op) && !SpentIn(es, op) {
          var j :| 0 <= j < |es| && es[j].Create? && es[j].op == op;
          if SpentIn(es[j..], op) { SpentInTail(es, j, op); } else { CreatedStays(es, j); }
        }
      }
    }
    if LiveIsUnspent(es) {
      forall i, j | Repeats(es, i, j) ensures SpentIn(es[j..], es[j].op) {
        RepeatFollowsSpend(es, i, j);
        if !SpentIn(es[j..], es[j].op) { CreatedStays(es, j); }
      }
    }
  }

  // ---------- Hints ----------

  lemma {:induction false} SurvivorsMeans(created: seq<Outpoint>, live: map<Outpoint, Coin>, i: nat)
    ensures i in Survivors(created, live) <==> i < |created| && created[i] in live
  {
    if created != [] { SurvivorsMeans(created[..|created| - 1], live, i); }
  }

  lemma AddEvent(es: seq<Event>, op: Outpoint)
    requires es != []
    ensures var e := es[|es| - 1]; CreatedIn(es, op) <==> CreatedIn(es[..|es| - 1], op) || (e.Create? && e.op == op)
  {}

  lemma {:induction false} CreatedAtIn(es: seq<Event>, h: nat, i: nat)
    requires i < |CreatedAt(es, h)|
    ensures CreatedIn(es, CreatedAt(es, h)[i])
  {
    var k := |es| - 1;
    AddEvent(es, CreatedAt(es, h)[i]);
    if i < |CreatedAt(es[..k], h)| { CreatedAtIn(es[..k], h, i); }
  }

  // The ordinal of a creation among those of its height.
  lemma {:induction false} OrdinalOf(es: seq<Event>, j: nat) returns (i: nat)
    requires j < |es| && es[j].Create?
    ensures var created := CreatedAt(es, es[j].coin.height); i < |created| && created[i] == es[j].op
  {
    var k := |es| - 1;
    if j < k {
      i := OrdinalOf(es[..k], j);
    } else {
      i := |CreatedAt(es[..k], es[j].coin.height)|;
    }
  }

  // Ordinal i of height h is hinted exactly when it is an output that is never spent.
  ghost predicate HintRight(blocks: seq<Block>, h: nat, i: nat) {
    var created := CreatedAt(All(blocks), h);
    i in HintsAt(blocks, h) <==> i < |created| && !SpentIn(All(blocks), created[i])
  }

  ghost predicate HintsRight(blocks: seq<Block>) {
    forall h: nat, i: nat {:trigger HintRight(blocks, h, i)} :: HintRight(blocks, h, i)
  }

  /**
   The hints of every height are exactly the ordinals of its outputs that are
   never spent if and only if every repeated outpoint is spent again.
   */
  lemma HintsAreSurvivors(blocks: seq<Block>)
    requires Accepted(blocks)
    ensures HintsRight(blocks) <==> RepeatsAreSpent(All(blocks))
  {
    var es := All(blocks);
    LiveMeansUnspent(es);
    if RepeatsAreSpent(es) {
      forall h: nat, i: nat ensures HintRight(blocks, h, i) {
        SurvivorsMeans(CreatedAt(es, h), Live(es), i);
        if i < |CreatedAt(es, h)| {
          CreatedAtIn(es, h, i);
          assert SpentIn(es, CreatedAt(es, h)[i]) || !SpentIn(es, CreatedAt(es, h)[i]);
        }
      }
    }
    if HintsRight(blocks) {
      forall i, j | Repeats(es, i, j) ensures SpentIn(es[j..], es[j].op) {
        if !SpentIn(es[j..], es[j].op) {
          var h := es[j].coin.height;
          var q := OrdinalOf(es, j);
          assert HintRight(blocks, h, q);
          RepeatFollowsSpend(es, i, j);
          SurvivorsMeans(CreatedAt(es, h), Live(es), q);
          CreatedStays(es, j);
        }
      }
    }
  }

  // ---------- Conservation ----------

  function CountCreates(es: seq<Event>): nat {
    if es == [] then 0 else CountCreates(es[..|es| - 1]) + if es[|es| - 1].Create? then 1 else 0
  }

  // Spends of coins of the spending block itself.
  function SameBlockSpends(es: seq<Event>): nat {
    if es == [] then 0
    else
      var m, e := Live(es[..|es| - 1]), es[|es| - 1];
      SameBlockSpends(es[..|es| - 1]) + if e.Spend? && e.op in m && m[e.op].height >= e.height then 1 else 0
  }

  /** Every created coin is live, claimed, or spent within its own block. */
  lemma {:induction false} Conservation(es: seq<Event>)
    requires AllFit(es)
    ensures CountCreates(es) == |Live(es)| + |Claims(es)| + SameBlockSpends(es)
  {
    if es != [] {
      var k := |es| - 1;
      var m, e := Live(es[..k]), es[k];
      assert es == es[..k] + [e];
      FitPrefix(es[..k], [e]);
      assert FitAt(es, k);
      Conservation(es[..k]);
      if e.Create? {
        assert m[e.op := e.coin].Keys == m.Keys + {e.op};
      } else {
        assert (m - {e.op}).Keys == m.Keys - {e.op};
      }
    }
  }

  // ---------- Survivors in all ----------

  function SurvivorTotal(es: seq<Event>, live: map<Outpoint, Coin>, n: nat): nat {
    if n <= 1 then 0 else SurvivorTotal(es, live, n - 1) + |Survivors(CreatedAt(es, n - 1), live)|
  }

  predicate CreatesLive(e: Event, live: map<Outpoint, Coin>) { e.Create? && e.op in live }

  function LiveCreates(es: seq<Event>, live: map<Outpoint, Coin>): nat {
    if es == [] then 0 else LiveCreates(es[..|es| - 1], live) + if CreatesLive(es[|es| - 1], live) then 1 else 0
  }

  lemma {:induction false} SurvivorsStep(created: seq<Outpoint>, op: Outpoint, live: map<Outpoint, Coin>)
    ensures |Survivors(created + [op], live)| == |Survivors(created, live)| + if op in live then 1 else 0
  {
    assert (created + [op])[..|created|] == created;
  }

  lemma {:induction false} TotalStep(es: seq<Event>, live: map<Outpoint, Coin>, n: nat)
    requires es != []
    ensures var k := |es| - 1;
            SurvivorTotal(es, live, n) == SurvivorTotal(es[..k], live, n)
              + if CreatesLive(es[k], live) && 1 <= es[k].coin.height < n then 1 else 0
  {
    if n > 1 {
      var k := |es| - 1;
      TotalStep(es, live, n - 1);
      if es[k].Create? && es[k].coin.height == n - 1 {
        SurvivorsStep(CreatedAt(es[..k], n - 1), es[k].op, live);
        assert CreatedAt(es, n - 1) == CreatedAt(es[..k], n - 1) + [es[k].op];
      } else {
        assert CreatedAt(es, n - 1) == CreatedAt(es[..k], n - 1) + [] == CreatedAt(es[..k], n - 1);
      }
    }
  }

  lemma {:induction false} NoEvents(live: map<Outpoint, Coin>, n: nat)
    ensures SurvivorTotal([], live, n) == 0
  {
    if n > 1 { NoEvents(live, n - 1); }
  }

  lemma {:induction false} TotalIsLiveCreates(es: seq<Event>, live: map<Outpoint, Coin>, n: nat)
    requires forall i :: 0 <= i < |es| && es[i].Create? ==> 1 <= es[i].coin.height < n
    ensures SurvivorTotal(es, live, n) == LiveCreates(es, live)
  {
    if es == [] {
      NoEvents(live, n);
    } else {
      TotalStep(es, live, n);
      TotalIsLiveCreates(es[..|es| - 1], live, n);
    }
  }

  ghost function CreatedSet(es: seq<Event>): (s: set<Outpoint>)
    ensures forall op :: op in s <==> CreatedIn(es, op)
  {
    set i | 0 <= i < |es| && es[i].Create? :: es[i].op
  }

  lemma RepeatsStep(es: seq<Event>, live: map<Outpoint, Coin>)
    requires es != []
    ensures var k := |es| - 1;
            OnceAmong(es, live) <==> OnceAmong(es[..k], live) && !(CreatesLive(es[k], live) && CreatedIn(es[..k], es[k].op))
  {
    var k := |es| - 1;
    if OnceAmong(es, live) {
      forall i, j | Repeats(es[..k], i, j) ensures es[..k][i].op !in live { assert Repeats(es, i, j); }
      if CreatesLive(es[k], live) && CreatedIn(es[..k], es[k].op) {
        var i :| 0 <= i < k && es[..k][i].Create? && es[..k][i].op == es[k].op;
        assert Repeats(es, i, k);
      }
    } else {
      var i, j :| Repeats(es, i, j) && es[i].op in live;
      if j < k { assert Repeats(es[..k], i, j); } else { assert es[..k][i] == es[i]; }
    }
  }

  /** Creations of live outpoints are as many as those outpoints exactly when none of them is repeated. */
  lemma {:induction false} LiveCreatesCounts(es: seq<Event>, live: map<Outpoint, Coin>)
    ensures LiveCreates(es, live) >= |CreatedSet(es) * live.Keys|
    ensures LiveCreates(es, live) == |CreatedSet(es) * live.Keys| <==> OnceAmong(es, live)
  {
    if es == [] {
      assert CreatedSet(es) * live.Keys == {};
    } else {
      var k := |es| - 1;
      var e := es[k];
      LiveCreatesCounts(es[..k], live);
      RepeatsStep(es, live);
      forall op ensures op in CreatedSet(es) <==> op in CreatedSet(es[..k]) || (e.Create? && op == e.op) { AddEvent(es, op); }
      if CreatesLive(e, live) {
        assert CreatedSet(es) * live.Keys == CreatedSet(es[..k]) * live.Keys + {e.op};
      } else {
        assert CreatedSet(es) * live.Keys == CreatedSet(es[..k]) * live.Keys;
      }
    }
  }

  // Created outputs are survivors, claims and same-block spends.
  ghost predicate AccountedFor(blocks: seq<Block>) {
    var es := All(blocks);
    CountCreates(es) == SurvivorTotal(es, Live(es), |blocks|) + |Claims(es)| + SameBlockSpends(es)
  }

  /**
   Counting survivors by the hints, the created outputs balance if and only if
   every repeated outpoint is spent again; otherwise some output is hinted twice.
   */
  lemma CreatedIsAccountedFor(blocks: seq<Block>)
    requires Accepted(blocks)
    ensures AccountedFor(blocks) <==> RepeatsAreSpent(All(blocks))
  {
    var es := All(blocks);
    Conservation(es);
    ChainHeights(blocks, |blocks|);
    TotalIsLiveCreates(es, Live(es), |blocks|);
    LiveCreatesCounts(es, Live(es));
    RepeatsAreOnce(es);
    forall op | op in Live(es) ensures op in CreatedSet(es) { LiveWasCreated(es, op); }
    assert CreatedSet(es) * Live(es).Keys == Live(es).Keys;
    assert |Live(es).Keys| == |Live(es)|;
  }

  /** On a chain with distinct outpoints both hold. */
  lemma DistinctChain(blocks: seq<Block>)
    requires Accepted(blocks) && DistinctCreates(All(blocks))
    ensures HintsRight(blocks) && AccountedFor(blocks)
  {
    HintsAreSurvivors(blocks);
    CreatedIsAccountedFor(blocks);
  }

  // ---------- A chain that repeats an outpoint ----------

  /** Block 1 creates an output, block 2 spends it, and block 3 has the transaction of block 1 again. */
  function Recreating(txid: Hash, spender: Hash, output: TxOut): seq<Block> {
    var first := Tx(txid, [], [output], true);
    [Block([0], []), Block([1], [first]), Block([2], [Tx(spender, [Outpoint(txid, 0)], [], false)]), Block([3], [first])]
  }

  lemma {:induction false} OneTx(tx: Tx, height: nat)
    ensures BlockEvents([tx], height) == TxEvents(tx, height, 0)
  {
    assert [tx][..0] == [] && BlockEvents([], height) == [] && InputCount([]) == 0;
  }

  lemma {:induction false} OneOutput(tx: Tx, height: nat)
    requires tx.coinbase && |tx.outputs| == 1 && Spendable(tx.outputs[0])
    ensures TxEvents(tx, height, 0) == [Create(Outpoint(tx.txid, 0), CoinOf(tx, height, 0))]
  {
    assert CreateEvents(tx, height, 0) == [];
    assert CreateEvents(tx, height, 1) == CreateOne(tx, height, 0);
  }

  lemma {:induction false} OneInput(tx: Tx, height: nat)
    requires !tx.coinbase && |tx.inputs| == 1 && tx.outputs == []
    ensures TxEvents(tx, height, 0) == [Spend(tx.inputs[0], height, 0)]
  {
    assert CreateEvents(tx, height, 0) == [];
  }

  lemma RecreatingEvents(txid: Hash, spender: Hash, output: TxOut)
    requires Spendable(output)
    ensures var op := Outpoint(txid, 0);
            All(Recreating(txid, spender, output)) ==
            [Create(op, Coin(output, 1, true)), Spend(op, 2, 0), Create(op, Coin(output, 3, true))]
  {
    var blocks := Recreating(txid, spender, output);
    OneTx(blocks[1].txs[0], 1);
    OneTx(blocks[2].txs[0], 2);
    OneTx(blocks[3].txs[0], 3);
    OneOutput(blocks[1].txs[0], 1);
    OneInput(blocks[2].txs[0], 2);
    OneOutput(blocks[3].txs[0], 3);
    assert ChainEvents(blocks, 1) == [];
    assert ChainEvents(blocks, 2) == ChainEvents(blocks, 1) + BlockEvents(blocks[1].txs, 1);
    assert ChainEvents(blocks, 3) == ChainEvents(blocks, 2) + BlockEvents(blocks[2].txs, 2);
    assert ChainEvents(blocks, 4) == ChainEvents(blocks, 3) + BlockEvents(blocks[3].txs, 3);
  }

  // An outpoint created, spent and created again is still hinted at its first height.
  lemma CreatedSpentCreated(op: Outpoint, first: Coin, second: Coin)
    requires first.height == 1 && second.height == 3
    ensures var es := [Create(op, first), Spend(op, 2, 0), Create(op, second)];
            AllFit(es) && SpentIn(es, op) && CreatedAt(es, 1) == [op] && Survivors([op], Live(es)) == [0]
  {
    var e1, e2, e3 := Create(op, first), Spend(op, 2, 0), Create(op, second);
    OneMore([], e1);
    OneMore([e1], e2);
    OneMore([e1, e2], e3);
    assert [] + [e1] == [e1] && [e1] + [e2] == [e1, e2] && [e1, e2] + [e3] == [e1, e2, e3];
    assert [e1, e2, e3][..2] == [e1, e2] && [e1, e2][..1] == [e1] && [e1][..0] == [];
    assert CreatedAt([e1], 1) == [op] && CreatedAt([e1, e2], 1) == [op];
    assert [e1, e2, e3][1] == e2;
    assert [op][..0] == [];
  }

  /** The helper accepts that chain, and hints the spent output of block 1. */
  lemma RecreatedIsHinted(txid: Hash, spender: Hash, output: TxOut)
    requires Spendable(output)
    ensures var blocks, op := Recreating(txid, spender, output), Outpoint(txid, 0);
            && Accepted(blocks)
            && CreatedAt(All(blocks), 1) == [op] && SpentIn(All(blocks), op) && HintsAt(blocks, 1) == [0]
            && !HintsRight(blocks) && !AccountedFor(blocks)
  {
    hide Recreating, ChainEvents, HintsRight, AccountedFor, CreatedAt, Survivors, Live, FitAt;
    var blocks, op := Recreating(txid, spender, output), Outpoint(txid, 0);
    RecreatingEvents(txid, spender, output);
    CreatedSpentCreated(op, Coin(output, 1, true), Coin(output, 3, true));
    assert Repeats(All(blocks), 0, 2) && All(blocks)[2..] == [All(blocks)[2]];
    HintsAreSurvivors(blocks);
    CreatedIsAccountedFor(blocks);
  }
}
