/** What ordinary execution, its counts and its hints are, without the recursions that compute them. */
module OrdinaryRuns {
  import opened Scripts
  import opened Hook
  import opened Wrappers

  // ---------- Executions ----------

  // Every tree but the last asks a check, and its verified answer leads to the next; the last is a verdict.
  ghost predicate Runs(c: Crypto, trees: seq<Script>, v: Verdict) {
    && trees != [] && trees[|trees| - 1] == Done(v)
    && forall i {:trigger AskedAt(c, trees, i)} :: 0 <= i < |trees| - 1 ==> AskedAt(c, trees, i)
  }

  ghost predicate AskedAt(c: Crypto, trees: seq<Script>, i: int) {
    && 0 <= i < |trees| - 1 && trees[i].Ask?
    && trees[i + 1] == if c.valid(trees[i].query) then trees[i].ifTrue else trees[i].ifFalse
  }

  /** The ordinary verdict and path are those of the one run in which every answer is the verified one. */
  lemma {:induction false} RunIsOrdinary(c: Crypto, trees: seq<Script>, v: Verdict)
    requires Runs(c, trees, v)
    ensures Exec(c, trees[0]) == v && |OrdinaryPath(c, trees[0])| == |trees| - 1
    ensures forall i :: 0 <= i < |trees| - 1 ==>
              trees[i].Ask? && OrdinaryPath(c, trees[0])[i] == Step(trees[i].query, c.valid(trees[i].query))
    decreases |trees|
  {
    if |trees| > 1 {
      assert AskedAt(c, trees, 0);
      var rest := trees[1..];
      forall i | 0 <= i < |rest| - 1 ensures AskedAt(c, rest, i) { assert AskedAt(c, trees, i + 1); }
      RunIsOrdinary(c, rest, v);
      assert OrdinaryPath(c, trees[0]) == [Step(trees[0].query, c.valid(trees[0].query))] + OrdinaryPath(c, rest[0]);
      forall i | 0 <= i < |trees| - 1
        ensures trees[i].Ask? && OrdinaryPath(c, trees[0])[i] == Step(trees[i].query, c.valid(trees[i].query))
      {
        if i > 0 { assert rest[i - 1] == trees[i]; }
      }
    }
  }

  /** Every Script has that run. */
  lemma {:induction false} EveryScriptRuns(c: Crypto, s: Script) returns (trees: seq<Script>)
    ensures Runs(c, trees, Exec(c, s)) && trees[0] == s
    decreases s
  {
    if s.Done? {
      trees := [s];
    } else {
      var rest := EveryScriptRuns(c, if c.valid(s.query) then s.ifTrue else s.ifFalse);
      trees := [s] + rest;
      forall i | 0 <= i < |trees| - 1 ensures AskedAt(c, trees, i) {
        if i > 0 { assert AskedAt(c, rest, i - 1); }
      }
    }
  }

  // ---------- Counts ----------

  // Step k of path t, as a pair of positions.
  ghost function Steps(paths: seq<Path>): set<(int, int)> {
    set t, k | 0 <= t < |paths| && 0 <= k < |paths[t]| :: (t, k)
  }

  ghost function FalseSteps(paths: seq<Path>): set<(int, int)> {
    set t, k | 0 <= t < |paths| && 0 <= k < |paths[t]| && !paths[t][k].answer :: (t, k)
  }

  ghost function Row(t: int, path: Path, upto: nat): set<(int, int)>
    requires upto <= |path|
  {
    set k | 0 <= k < upto :: (t, k)
  }

  ghost function FalseRow(t: int, path: Path, upto: nat): set<(int, int)>
    requires upto <= |path|
  {
    set k | 0 <= k < upto && !path[k].answer :: (t, k)
  }

  lemma {:induction false} RowCounts(t: int, path: Path, upto: nat)
    requires upto <= |path|
    ensures |Row(t, path, upto)| == upto
    decreases upto
  {
    if upto > 0 {
      RowCounts(t, path, upto - 1);
      assert Row(t, path, upto) == Row(t, path, upto - 1) + {(t, upto - 1)};
    }
  }

  lemma {:induction false} FalseRowCounts(t: int, path: Path, upto: nat)
    requires upto <= |path|
    ensures |FalseRow(t, path, upto)| == Falses(path[..upto])
    decreases upto
  {
    if upto > 0 {
      var k := upto - 1;
      FalseRowCounts(t, path, k);
      assert path[..upto][..k] == path[..k];
      if path[k].answer {
        assert FalseRow(t, path, upto) == FalseRow(t, path, k);
      } else {
        assert FalseRow(t, path, upto) == FalseRow(t, path, k) + {(t, k)};
      }
    }
  }

  lemma {:induction false} StepsMore(paths: seq<Path>)
    requires paths != []
    ensures var t := |paths| - 1;
            && Steps(paths) == Steps(paths[..t]) + Row(t, paths[t], |paths[t]|)
            && Steps(paths[..t]) !! Row(t, paths[t], |paths[t]|)
  {}

  lemma {:induction false} FalseStepsMore(paths: seq<Path>)
    requires paths != []
    ensures var t := |paths| - 1;
            && FalseSteps(paths) == FalseSteps(paths[..t]) + FalseRow(t, paths[t], |paths[t]|)
            && FalseSteps(paths[..t]) !! FalseRow(t, paths[t], |paths[t]|)
  {}

  /** The totals count every check once, and every false one once. */
  lemma {:induction false} TotalsCount(paths: seq<Path>)
    ensures TotalChecks(paths) == |Steps(paths)| && TotalFalses(paths) == |FalseSteps(paths)|
    decreases |paths|
  {
    if paths == [] {
      assert Steps(paths) == {} && FalseSteps(paths) == {};
    } else {
      hide Steps, FalseSteps, Row, FalseRow;
      var t := |paths| - 1;
      TotalsCount(paths[..t]);
      RowCounts(t, paths[t], |paths[t]|);
      FalseRowCounts(t, paths[t], |paths[t]|);
      assert paths[t][..|paths[t]|] == paths[t];
      StepsMore(paths);
      FalseStepsMore(paths);
    }
  }

  // ---------- Hints ----------

  /** A check's exact advice: 255 unless it is canonical and true, and then the worker's hint for its record. */
  lemma HintMeans(c: Crypto, q: Query)
    requires c.Sound()
    ensures c.canonical(q).None? || !c.valid(q) ==> c.HintOf(q) == 255
    ensures c.canonical(q).Some? && c.valid(q) ==> c.HintOf(q) <= 3 && c.HintOf(q) == c.exactHint(c.canonical(q).value)
  {}

  // ---------- Settling ----------

  ghost predicate LastReply(slots: seq<(nat, nat)>, slot: (nat, nat), i: int) {
    0 <= i < |slots| && slots[i] == slot && forall j :: i < j < |slots| ==> slots[j] != slot
  }

  /** After settling, an entry is the last reply for its slot, and entries without a reply are as before. */
  lemma {:induction false} WrittenMeans(generated: seq<Frame>, slots: seq<(nat, nat)>, hints: seq<Byte>, t: nat, k: nat)
    requires |slots| == |hints| && t < |generated| && k < |generated[t].1|
    ensures var after := Written(generated, slots, hints);
            && |after| == |generated| && after[t].0 == generated[t].0 && |after[t].1| == |generated[t].1|
            && ((t, k) !in slots ==> after[t].1[k] == generated[t].1[k])
            && (forall i {:trigger LastReply(slots, (t, k), i)} :: LastReply(slots, (t, k), i) ==> after[t].1[k] == hints[i])
    decreases |slots|
  {
    if slots != [] {
      var n := |slots| - 1;
      WrittenMeans(generated, slots[..n], hints[..n], t, k);
      forall i | LastReply(slots, (t, k), i) ensures Written(generated, slots, hints)[t].1[k] == hints[i] {
        if i < n {
          assert slots[n] != (t, k);
          assert LastReply(slots[..n], (t, k), i);
        }
      }
    }
  }

  /** A group reports an error exactly when some verdict is a failure. */
  lemma {:induction false} AnyFailsMeans(results: seq<Verdict>)
    ensures AnyFails(results) <==> exists t :: 0 <= t < |results| && results[t].Fail?
    decreases |results|
  {
    if results != [] { AnyFailsMeans(results[..|results| - 1]); }
  }
}
