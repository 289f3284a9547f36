/**
 The batched producer hook: one group of jobs is run speculatively, its queued
 equations are settled in batches, and whatever the batches did not confirm is
 run again.

 Another thread may raise the session's `disabled` flag before any read of it,
 and the worker may fail at any call.
 */
module Hook {
  import opened Scripts
  import opened Wrappers

  const MAX_BATCH := 8192
  const MAX_TX_HINTS := 80_000

  datatype Mode = Baseline | Candidate | Stream | Produce | ProduceBatch | ProduceReplay | Pack

  type Key = seq<Byte>

  // One transaction: its Script, its identifier, and the hints its stream token points at.
  datatype Job = Job(script: Script, key: Key, token: Option<seq<Byte>>)

  // A queued check. The hint is only a guess at the nonce point.
  datatype Equation = Equation(input: Input, hint: Byte)

  datatype Completed = Completed(verdict: Verdict, checks: nat, falseChecks: nat)

  type Frame = (Key, seq<Byte>)

  datatype Reusable = Reusable(frame: Frame, verdict: Completed)

  // ---------- What a group of jobs gives when run ordinarily ----------

  function OrdinaryResults(c: Crypto, jobs: seq<Job>): seq<Verdict> {
    seq(|jobs|, j requires 0 <= j < |jobs| => Exec(c, jobs[j].script))
  }

  function OrdinaryPaths(c: Crypto, jobs: seq<Job>): seq<Path> {
    seq(|jobs|, j requires 0 <= j < |jobs| => OrdinaryPath(c, jobs[j].script))
  }

  function OrdinaryFrames(c: Crypto, jobs: seq<Job>): seq<seq<Byte>> {
    seq(|jobs|, j requires 0 <= j < |jobs| => Hints(c, OrdinaryPath(c, jobs[j].script)))
  }

  function TotalChecks(paths: seq<Path>): nat {
    if paths == [] then 0 else TotalChecks(paths[..|paths| - 1]) + |paths[|paths| - 1]|
  }

  function TotalFalses(paths: seq<Path>): nat {
    if paths == [] then 0 else TotalFalses(paths[..|paths| - 1]) + Falses(paths[|paths| - 1])
  }

  ghost predicate CountsAre(checks: nat, falseChecks: nat, paths: seq<Path>) {
    checks == TotalChecks(paths) && falseChecks == TotalFalses(paths)
  }

  // Exactly one entry per check of the path, in order, and none of them wrong.
  ghost predicate Aligned(c: Crypto, path: Path, frame: seq<Byte>) {
    && |frame| == |path|
    && forall k :: 0 <= k < |path| ==> frame[k] == UNKNOWN || frame[k] == c.HintOf(path[k].query)
  }

  /** The frames that reach the advice file: empty and oversized ones are dropped. */
  function Emitted(jobs: seq<Job>, frames: seq<seq<Byte>>): seq<Frame>
    requires |jobs| == |frames|
  {
    if jobs == [] then []
    else
      var last := |jobs| - 1;
      Emitted(jobs[..last], frames[..last]) +
      if 0 < |frames[last]| <= MAX_TX_HINTS then [(jobs[last].key, frames[last])] else []
  }

  // The positions of the frames with 1 to 80,000 hints, in order.
  ghost predicate FilingOrder(frames: seq<seq<Byte>>, at: seq<nat>) {
    && (forall k, m :: 0 <= k < m < |at| ==> at[k] < at[m])
    && (forall k :: 0 <= k < |at| ==> at[k] < |frames| && 1 <= |frames[at[k]]| <= 80_000)
    && (forall t: nat :: t < |frames| && 1 <= |frames[t]| <= 80_000 ==> t in at)
  }

  // The entries of `added` are the keys and frames of those positions.
  ghost predicate FiledAt(jobs: seq<Job>, frames: seq<seq<Byte>>, at: seq<nat>, added: seq<Frame>) {
    && FilingOrder(frames, at) && |jobs| == |frames| && |at| == |added|
    && forall k :: 0 <= k < |at| ==> at[k] < |jobs| && added[k] == (jobs[at[k]].key, frames[at[k]])
  }

  ghost predicate Filed(jobs: seq<Job>, frames: seq<seq<Byte>>, added: seq<Frame>) {
    exists at :: FiledAt(jobs, frames, at, added)
  }

  lemma OneMoreFiled(frames: seq<seq<Byte>>, at: seq<nat>)
    requires frames != [] && FilingOrder(frames[..|frames| - 1], at)
    ensures var last := |frames| - 1; FilingOrder(frames, at + if 1 <= |frames[last]| <= 80_000 then [last] else [])
  {
    var last := |frames| - 1;
    var more := if 1 <= |frames[last]| <= 80_000 then [last] else [];
    forall t: nat | t < |frames| && 1 <= |frames[t]| <= 80_000 ensures t in at + more {
      if t < last { assert frames[..last][t] == frames[t]; }
    }
  }

  lemma FiledMore(jobs: seq<Job>, frames: seq<seq<Byte>>, at: seq<nat>, added: seq<Frame>)
    requires |jobs| == |frames| > 0 && FiledAt(jobs[..|jobs| - 1], frames[..|jobs| - 1], at, added)
    ensures var last := |jobs| - 1;
            var fits := 1 <= |frames[last]| <= 80_000;
            FiledAt(jobs, frames, at + (if fits then [last] else []),
                    added + (if fits then [(jobs[last].key, frames[last])] else []))
  {
    hide FilingOrder;
    var last := |jobs| - 1;
    OneMoreFiled(frames, at);
    forall k | 0 <= k < |at| ensures at[k] < last && added[k] == (jobs[at[k]].key, frames[at[k]]) {
      assert jobs[..last][at[k]] == jobs[at[k]] && frames[..last][at[k]] == frames[at[k]];
    }
    if !(1 <= |frames[last]| <= 80_000) { assert at + [] == at && added + [] == added; }
  }

  lemma NothingFiled(jobs: seq<Job>, frames: seq<seq<Byte>>)
    requires jobs == [] && frames == []
    ensures FiledAt(jobs, frames, [], [])
  {}

  lemma {:induction false} EmittedLast(jobs: seq<Job>, frames: seq<seq<Byte>>)
    requires |jobs| == |frames| > 0
    ensures var last := |jobs| - 1;
            Emitted(jobs, frames) == Emitted(jobs[..last], frames[..last]) +
              if 1 <= |frames[last]| <= 80_000 then [(jobs[last].key, frames[last])] else []
  {}

  /** Exactly the frames of one to 80,000 hints are filed, under their jobs' keys and in order. */
  lemma {:induction false} EmittedIsFiled(jobs: seq<Job>, frames: seq<seq<Byte>>) returns (at: seq<nat>)
    requires |jobs| == |frames|
    ensures FiledAt(jobs, frames, at, Emitted(jobs, frames))
    decreases |jobs|
  {
    hide FiledAt;
    if jobs == [] {
      at := [];
      NothingFiled(jobs, frames);
    } else {
      var last := |jobs| - 1;
      var before := EmittedIsFiled(jobs[..last], frames[..last]);
      FiledMore(jobs, frames, before, Emitted(jobs[..last], frames[..last]));
      EmittedLast(jobs, frames);
      at := before + if 1 <= |frames[last]| <= 80_000 then [last] else [];
    }
  }

  // ---------- What a partly settled group keeps ----------

  ghost predicate EveryExact(c: Crypto, paths: seq<Path>) {
    forall t {:trigger AllExact(c, paths[t])} :: 0 <= t < |paths| ==> AllExact(c, paths[t])
  }

  // A step whose answer is right, or the optimistic answer to a queued equation.
  ghost predicate Queued(c: Crypto, st: Step, pending: seq<Equation>) {
    && st.answer
    && c.canonical(st.query).Some?
    && exists i :: 0 <= i < |pending| && pending[i].input == c.canonical(st.query).value
  }

  ghost predicate ConsumerOpen(c: Crypto, paths: seq<Path>, pending: seq<Equation>) {
    forall t, k {:trigger OpenAt(c, paths, pending, t, k)} ::
      0 <= t < |paths| && 0 <= k < |paths[t]| ==> OpenAt(c, paths, pending, t, k)
  }

  ghost predicate OpenAt(c: Crypto, paths: seq<Path>, pending: seq<Equation>, t: int, k: int)
    requires 0 <= t < |paths| && 0 <= k < |paths[t]|
  {
    Exact(c, paths[t][k]) || Queued(c, paths[t][k], pending)
  }

  // The step is right and its frame entry is the exact hint.
  ghost predicate Settled(c: Crypto, st: Step, entry: Byte) {
    Exact(c, st) && entry == c.HintOf(st.query)
  }

  ghost predicate SameShape(paths: seq<Path>, generated: seq<Frame>, retry: seq<bool>) {
    && |generated| == |paths| == |retry|
    && forall t {:trigger SameLength(paths, generated, t)} :: 0 <= t < |paths| ==> SameLength(paths, generated, t)
  }

  ghost predicate SameLength(paths: seq<Path>, generated: seq<Frame>, t: int) {
    0 <= t < |paths| && t < |generated| && |generated[t].1| == |paths[t]|
  }

  ghost predicate KeysMatch(started: seq<Job>, generated: seq<Frame>) {
    && |generated| == |started|
    && forall t {:trigger SameKey(started, generated, t)} :: 0 <= t < |started| ==> SameKey(started, generated, t)
  }

  ghost predicate SameKey(started: seq<Job>, generated: seq<Frame>, t: int) {
    0 <= t < |started| && t < |generated| && generated[t].0 == started[t].key
  }

  ghost predicate NoRetry(retry: seq<bool>) {
    forall t {:trigger retry[t]} :: 0 <= t < |retry| ==> !retry[t]
  }

  // Each slot names the optimistic step whose equation is queued beside it.
  ghost predicate SlotsNameSteps(c: Crypto, paths: seq<Path>, pending: seq<Equation>, slots: seq<(nat, nat)>) {
    && |pending| == |slots|
    && forall i {:trigger NamesStep(c, paths, pending[i].input, slots[i])} :: 0 <= i < |slots| ==>
      NamesStep(c, paths, pending[i].input, slots[i])
  }

  ghost predicate NamesStep(c: Crypto, paths: seq<Path>, input: Input, slot: (nat, nat)) {
    && slot.0 < |paths|
    && slot.1 < |paths[slot.0]|
    && paths[slot.0][slot.1].answer
    && c.canonical(paths[slot.0][slot.1].query) == Some(input)
  }

  // Outside the transactions already marked for retry, every step is settled or still queued.
  ghost predicate ProducerOpen(c: Crypto, paths: seq<Path>, generated: seq<Frame>,
                               slots: seq<(nat, nat)>, retry: seq<bool>)
    requires |retry| == |paths|
  {
    forall t, k {:trigger SettledAt(c, paths, generated, slots, t, k)} ::
      0 <= t < |paths| && 0 <= k < |paths[t]| && !retry[t] ==> SettledAt(c, paths, generated, slots, t, k)
  }

  ghost predicate SettledAt(c: Crypto, paths: seq<Path>, generated: seq<Frame>, slots: seq<(nat, nat)>, t: int, k: int)
  {
    && SameLength(paths, generated, t)
    && 0 <= k < |paths[t]|
    && (Settled(c, paths[t][k], generated[t].1[k]) || (t, k) in slots)
  }

  // A frame produced check by check; it is exact unless the session was disabled.
  ghost predicate DirectFrame(c: Crypto, path: Path, frame: seq<Byte>, disabled: bool) {
    Aligned(c, path, frame) && (!disabled ==> frame == Hints(c, path))
  }

  ghost predicate DirectFrames(c: Crypto, started: seq<Job>, paths: seq<Path>, generated: seq<Frame>, disabled: bool) {
    && |generated| == |paths|
    && KeysMatch(started, generated)
    && forall t {:trigger DirectFrame(c, paths[t], generated[t].1, disabled)} :: 0 <= t < |paths| ==>
         DirectFrame(c, paths[t], generated[t].1, disabled)
  }

  ghost predicate CacheExact(c: Crypto, cache: map<Input, Byte>) {
    forall r {:trigger cache[r]} :: r in cache ==> cache[r] == c.exactHint(r)
  }

  // The current path, which is the last one, with one more answered check.
  function Push(paths: seq<Path>, st: Step): seq<Path>
    requires paths != []
  {
    var last := |paths| - 1;
    paths[last := paths[last] + [st]]
  }

  lemma {:induction false} PushCounts(paths: seq<Path>, st: Step)
    requires paths != []
    ensures TotalChecks(Push(paths, st)) == TotalChecks(paths) + 1
    ensures TotalFalses(Push(paths, st)) == TotalFalses(paths) + if st.answer then 0 else 1
  {
    var last := |paths| - 1;
    assert Push(paths, st)[..last] == paths[..last];
    assert (paths[last] + [st])[..|paths[last]|] == paths[last];
  }

  lemma {:induction false} StartCounts(paths: seq<Path>, path: Path)
    ensures TotalChecks(paths + [path]) == TotalChecks(paths) + |path|
    ensures TotalFalses(paths + [path]) == TotalFalses(paths) + Falses(path)
  {
    assert (paths + [path])[..|paths|] == paths;
  }

  lemma CountsGrew(paths0: seq<Path>, paths: seq<Path>, checks0: nat, falses0: nat, checks: nat, falses: nat)
    requires CountsAre(checks0, falses0, paths0) && CountsAre(checks, falses, paths)
    requires |paths| == |paths0| + 1 && paths[..|paths0|] == paths0
    ensures checks == checks0 + |paths[|paths0|]| && falses == falses0 + Falses(paths[|paths0|])
  {
    assert paths == paths0 + [paths[|paths0|]];
    StartCounts(paths0, paths[|paths0|]);
  }

  lemma PushExact(c: Crypto, paths: seq<Path>, st: Step)
    requires paths != [] && EveryExact(c, paths) && Exact(c, st)
    ensures EveryExact(c, Push(paths, st))
  {
    forall t | 0 <= t < |paths| ensures AllExact(c, Push(paths, st)[t]) {
      assert AllExact(c, paths[t]);
    }
  }

  lemma HintsPush(c: Crypto, path: Path, st: Step)
    ensures Hints(c, path + [st]) == Hints(c, path) + [c.HintOf(st.query)]
  {}

  // What each finished transaction's answers led to.
  ghost predicate Ran(started: seq<Job>, paths: seq<Path>, results: seq<Verdict>) {
    && |started| == |paths| == |results|
    && forall t {:trigger RanAt(started[t], paths[t], results[t])} :: 0 <= t < |paths| ==>
         RanAt(started[t], paths[t], results[t])
  }

  ghost predicate RanAt(job: Job, path: Path, verdict: Verdict) {
    After(job.script, path) == Some(Done(verdict))
  }

  // The verdicts kept for reuse, with the counts of the answers behind them.
  function CompletedOf(results: seq<Verdict>, paths: seq<Path>): seq<Completed>
    requires |results| == |paths|
  {
    seq(|paths|, t requires 0 <= t < |paths| => Completed(results[t], |paths[t]|, Falses(paths[t])))
  }

  predicate AnyFails(results: seq<Verdict>) {
    results != [] && (AnyFails(results[..|results| - 1]) || results[|results| - 1].Fail?)
  }

  // A reusable entry is exactly what a fresh ordinary run of its transaction would give.
  ghost predicate ReusableExact(c: Crypto, job: Job, entry: Reusable) {
    var path := OrdinaryPath(c, job.script);
    && entry.frame == (job.key, Hints(c, path))
    && entry.verdict == Completed(Exec(c, job.script), |path|, Falses(path))
  }

  ghost predicate AllReusableExact(c: Crypto, jobs: seq<Job>, reusable: seq<Option<Reusable>>) {
    && |reusable| <= |jobs|
    && forall t {:trigger reusable[t]} :: 0 <= t < |reusable| && reusable[t].Some? ==>
         ReusableExact(c, jobs[t], reusable[t].value)
  }

  lemma StartProducer(c: Crypto, started: seq<Job>, paths: seq<Path>, generated: seq<Frame>, retry: seq<bool>,
                      pending: seq<Equation>, slots: seq<(nat, nat)>, job: Job)
    requires |started| == |paths| && SameShape(paths, generated, retry) && KeysMatch(started, generated)
    requires SlotsNameSteps(c, paths, pending, slots) && ProducerOpen(c, paths, generated, slots, retry)
    ensures SameShape(paths + [[]], generated + [(job.key, [])], retry + [false])
    ensures KeysMatch(started + [job], generated + [(job.key, [])])
    ensures SlotsNameSteps(c, paths + [[]], pending, slots)
    ensures ProducerOpen(c, paths + [[]], generated + [(job.key, [])], slots, retry + [false])
  {
    var paths' := paths + [[]];
    var generated' := generated + [(job.key, [])];
    forall t | 0 <= t < |paths'| ensures SameLength(paths', generated', t) {
      if t < |paths| { assert SameLength(paths, generated, t); }
    }
    forall t | 0 <= t <= |started| ensures SameKey(started + [job], generated', t) {
      if t < |started| { assert SameKey(started, generated, t); }
    }
    forall i | 0 <= i < |slots| ensures NamesStep(c, paths', pending[i].input, slots[i]) {
      assert NamesStep(c, paths, pending[i].input, slots[i]);
    }
    forall t, k | 0 <= t < |paths'| && 0 <= k < |paths'[t]| && !(retry + [false])[t]
      ensures SettledAt(c, paths', generated', slots, t, k)
    {
      assert SettledAt(c, paths, generated, slots, t, k);
    }
  }

  lemma StartConsumer(c: Crypto, paths: seq<Path>, pending: seq<Equation>)
    ensures ConsumerOpen(c, paths, pending) ==> ConsumerOpen(c, paths + [[]], pending)
    ensures EveryExact(c, paths) ==> EveryExact(c, paths + [[]])
  {
    if EveryExact(c, paths) { StartExact(c, paths, []); }
    if ConsumerOpen(c, paths, pending) {
      var paths' := paths + [[]];
      forall t, k | 0 <= t < |paths'| && 0 <= k < |paths'[t]| ensures OpenAt(c, paths', pending, t, k) {
        assert OpenAt(c, paths, pending, t, k);
      }
    }
  }

  lemma StartExact(c: Crypto, paths: seq<Path>, path: Path)
    requires EveryExact(c, paths) && AllExact(c, path)
    ensures EveryExact(c, paths + [path])
  {
    forall t | 0 <= t <= |paths| ensures AllExact(c, (paths + [path])[t]) {
      if t < |paths| { assert AllExact(c, paths[t]); }
    }
  }

  lemma StartDirect(c: Crypto, started: seq<Job>, paths: seq<Path>, generated: seq<Frame>, disabled: bool,
                    job: Job, path: Path)
    requires |started| == |paths| && DirectFrames(c, started, paths, generated, disabled)
    ensures DirectFrames(c, started + [job], paths + [path], generated + [(job.key, Hints(c, path))], disabled)
  {
    var generated' := generated + [(job.key, Hints(c, path))];
    forall t | 0 <= t <= |paths| ensures DirectFrame(c, (paths + [path])[t], generated'[t].1, disabled) {
      if t < |paths| { assert DirectFrame(c, paths[t], generated[t].1, disabled); }
    }
    forall t | 0 <= t <= |started| ensures SameKey(started + [job], generated', t) {
      if t < |started| { assert SameKey(started, generated, t); }
    }
  }

  lemma RanPush(started: seq<Job>, paths: seq<Path>, results: seq<Verdict>, job: Job, path: Path, verdict: Verdict)
    requires Ran(started, paths, results) && RanAt(job, path, verdict)
    ensures Ran(started + [job], paths + [path], results + [verdict])
  {
    var started', paths', results' := started + [job], paths + [path], results + [verdict];
    forall t | 0 <= t < |paths'| ensures RanAt(started'[t], paths'[t], results'[t]) {
      if t < |paths| { assert RanAt(started[t], paths[t], results[t]); }
    }
  }

  lemma {:induction false} CompletedPush(paths: seq<Path>, results: seq<Verdict>, path: Path, verdict: Verdict)
    requires |paths| == |results|
    ensures CompletedOf(results + [verdict], paths + [path]) ==
            CompletedOf(results, paths) + [Completed(verdict, |path|, Falses(path))]
  {}

  /** With every answer right, a group has given the ordinary results. */
  lemma ExactGroup(c: Crypto, jobs: seq<Job>, paths: seq<Path>, results: seq<Verdict>)
    requires Ran(jobs, paths, results) && EveryExact(c, paths)
    ensures results == OrdinaryResults(c, jobs) && paths == OrdinaryPaths(c, jobs)
  {
    forall t | 0 <= t < |jobs| ensures results[t] == Exec(c, jobs[t].script) && paths[t] == OrdinaryPath(c, jobs[t].script) {
      assert RanAt(jobs[t], paths[t], results[t]) && AllExact(c, paths[t]);
      ExactIsOrdinary(c, jobs[t].script, paths[t], results[t]);
    }
  }

  /** Once nothing is queued, an unmarked transaction has an exact path and an exact frame. */
  lemma UnmarkedIsExact(c: Crypto, paths: seq<Path>, generated: seq<Frame>, retry: seq<bool>, t: int)
    requires SameShape(paths, generated, retry) && ProducerOpen(c, paths, generated, [], retry)
    requires 0 <= t < |paths| && !retry[t]
    ensures AllExact(c, paths[t]) && generated[t].1 == Hints(c, paths[t])
  {
    assert SameLength(paths, generated, t);
    forall k | 0 <= k < |paths[t]|
      ensures Exact(c, paths[t][k]) && generated[t].1[k] == Hints(c, paths[t])[k]
    {
      assert SettledAt(c, paths, generated, [], t, k);
    }
  }

  lemma NothingMarked(c: Crypto, paths: seq<Path>, generated: seq<Frame>, retry: seq<bool>)
    requires SameShape(paths, generated, retry) && ProducerOpen(c, paths, generated, [], retry)
    requires NoRetry(retry)
    ensures EveryExact(c, paths)
    ensures forall t :: 0 <= t < |paths| ==> generated[t].1 == Hints(c, paths[t])
  {
    forall t | 0 <= t < |paths| ensures AllExact(c, paths[t]) && generated[t].1 == Hints(c, paths[t]) {
      UnmarkedIsExact(c, paths, generated, retry, t);
    }
  }

  // The frames, verdicts and counts of the unmarked transactions, by position.
  function Reusables(generated: seq<Frame>, completed: seq<Completed>, retry: seq<bool>): seq<Option<Reusable>>
    requires |generated| == |completed| == |retry|
  {
    seq(|retry|, t requires 0 <= t < |retry| => if retry[t] then None else Some(Reusable(generated[t], completed[t])))
  }

  /** Everything kept for reuse is what a fresh run would give. */
  lemma ReusablesExact(c: Crypto, jobs: seq<Job>, paths: seq<Path>, generated: seq<Frame>, retry: seq<bool>,
                       results: seq<Verdict>)
    requires SameShape(paths, generated, retry) && ProducerOpen(c, paths, generated, [], retry)
    requires Ran(jobs, paths, results) && KeysMatch(jobs, generated)
    ensures AllReusableExact(c, jobs, Reusables(generated, CompletedOf(results, paths), retry))
  {
    var completed := CompletedOf(results, paths);
    forall t | 0 <= t < |retry| && !retry[t]
      ensures ReusableExact(c, jobs[t], Reusable(generated[t], completed[t]))
    {
      UnmarkedIsExact(c, paths, generated, retry, t);
      assert RanAt(jobs[t], paths[t], results[t]) && SameKey(jobs, generated, t);
      ExactIsOrdinary(c, jobs[t].script, paths[t], results[t]);
    }
  }

  function HintRows(generated: seq<Frame>): seq<seq<Byte>> {
    seq(|generated|, t requires 0 <= t < |generated| => generated[t].1)
  }

  // Each frame lines up with the ordinary execution of its transaction.
  ghost predicate AllAligned(c: Crypto, jobs: seq<Job>, frames: seq<seq<Byte>>) {
    && |frames| == |jobs|
    && forall t :: 0 <= t < |jobs| ==> Aligned(c, OrdinaryPath(c, jobs[t].script), frames[t])
  }

  lemma DirectAligned(c: Crypto, jobs: seq<Job>, generated: seq<Frame>, disabled: bool)
    requires DirectFrames(c, jobs, OrdinaryPaths(c, jobs), generated, disabled)
    ensures AllAligned(c, jobs, HintRows(generated))
    ensures !disabled ==> HintRows(generated) == OrdinaryFrames(c, jobs)
  {
    forall t | 0 <= t < |jobs|
      ensures Aligned(c, OrdinaryPath(c, jobs[t].script), generated[t].1)
      ensures !disabled ==> generated[t].1 == OrdinaryFrames(c, jobs)[t]
    {
      assert DirectFrame(c, OrdinaryPaths(c, jobs)[t], generated[t].1, disabled);
    }
  }

  lemma {:induction false} ReuseKeeps(c: Crypto, started: seq<Job>, paths: seq<Path>, generated: seq<Frame>, disabled: bool,
                   job: Job, entry: Reusable)
    requires EveryExact(c, paths) && DirectFrames(c, started, paths, generated, disabled) && |started| == |paths|
    requires ReusableExact(c, job, entry)
    ensures var paths' := paths + [OrdinaryPath(c, job.script)];
            && EveryExact(c, paths')
            && DirectFrames(c, started + [job], paths', generated + [entry.frame], disabled)
            && TotalChecks(paths') == TotalChecks(paths) + entry.verdict.checks
            && TotalFalses(paths') == TotalFalses(paths) + entry.verdict.falseChecks
            && RanAt(job, OrdinaryPath(c, job.script), entry.verdict.verdict)
  {
    var path := OrdinaryPath(c, job.script);
    OrdinaryIsExact(c, job.script);
    StartCounts(paths, path);
    StartExact(c, paths, path);
    StartDirect(c, started, paths, generated, disabled, job, path);
  }

  function Write(generated: seq<Frame>, slot: (nat, nat), hint: Byte): seq<Frame>
    requires slot.0 < |generated| && slot.1 < |generated[slot.0].1|
  {
    generated[slot.0 := (generated[slot.0].0, generated[slot.0].1[slot.1 := hint])]
  }

  // All replies written to their slots, in order.
  function Written(generated: seq<Frame>, slots: seq<(nat, nat)>, hints: seq<Byte>): seq<Frame>
    requires |slots| == |hints|
  {
    if slots == [] then generated
    else
      var k := |slots| - 1;
      var before, slot := Written(generated, slots[..k], hints[..k]), slots[k];
      if slot.0 < |before| && slot.1 < |before[slot.0].1| then Write(before, slot, hints[k]) else before
  }

  // All transactions with an unknown reply marked.
  function Marked(retry: seq<bool>, slots: seq<(nat, nat)>, hints: seq<Byte>): (r: seq<bool>)
    requires |slots| == |hints|
    ensures |r| == |retry|
  {
    if slots == [] then retry
    else
      var k := |slots| - 1;
      var before, slot := Marked(retry, slots[..k], hints[..k]), slots[k];
      if slot.0 < |before| then before[slot.0 := before[slot.0] || hints[k] == UNKNOWN] else before
  }

  lemma {:induction false} WrittenMore(generated: seq<Frame>, retry: seq<bool>, slots: seq<(nat, nat)>, hints: seq<Byte>, i: nat)
    requires |slots| == |hints| && i < |slots|
    ensures var before, slot := Written(generated, slots[..i], hints[..i]), slots[i];
            slot.0 < |before| && slot.1 < |before[slot.0].1| ==>
              Written(generated, slots[..i + 1], hints[..i + 1]) == Write(before, slot, hints[i])
    ensures var before, slot := Marked(retry, slots[..i], hints[..i]), slots[i];
            slot.0 < |before| ==>
              Marked(retry, slots[..i + 1], hints[..i + 1]) == before[slot.0 := before[slot.0] || hints[i] == UNKNOWN]
  {
    assert slots[..i + 1][..i] == slots[..i] && hints[..i + 1][..i] == hints[..i];
  }

  /** Exactly the transactions with an unknown reply are newly marked. */
  lemma {:induction false} MarkedMeans(retry: seq<bool>, slots: seq<(nat, nat)>, hints: seq<Byte>, t: nat)
    requires |slots| == |hints| && t < |retry|
    ensures Marked(retry, slots, hints)[t] <==> retry[t] || exists i :: 0 <= i < |slots| && slots[i].0 == t && hints[i] == UNKNOWN
  {
    if slots != [] { MarkedMeans(retry, slots[..|slots| - 1], hints[..|slots| - 1], t); }
  }

  lemma MarkOne(c: Crypto, paths: seq<Path>, generated: seq<Frame>, retry: seq<bool>,
                slot: (nat, nat), rest: seq<(nat, nat)>)
    requires SameShape(paths, generated, retry) && slot.0 < |paths|
    requires ProducerOpen(c, paths, generated, [slot] + rest, retry)
    ensures ProducerOpen(c, paths, generated, rest, retry[slot.0 := true])
  {
    forall t, k | 0 <= t < |paths| && 0 <= k < |paths[t]| && !retry[slot.0 := true][t]
      ensures SettledAt(c, paths, generated, rest, t, k)
    {
      assert SettledAt(c, paths, generated, [slot] + rest, t, k);
    }
  }

  lemma NothingQueued(c: Crypto, paths: seq<Path>)
    ensures ConsumerOpen(c, paths, []) <==> EveryExact(c, paths)
  {
    if ConsumerOpen(c, paths, []) {
      forall t | 0 <= t < |paths| ensures AllExact(c, paths[t]) {
        forall k | 0 <= k < |paths[t]| ensures Exact(c, paths[t][k]) {
          assert OpenAt(c, paths, [], t, k);
        }
      }
    }
    if EveryExact(c, paths) {
      forall t, k | 0 <= t < |paths| && 0 <= k < |paths[t]| ensures OpenAt(c, paths, [], t, k) {
        assert AllExact(c, paths[t]);
      }
    }
  }

  lemma AllQueuedValid(c: Crypto, paths: seq<Path>, pending: seq<Equation>)
    requires c.Sound() && ConsumerOpen(c, paths, pending)
    requires forall i :: 0 <= i < |pending| ==> c.inputValid(pending[i].input)
    ensures ConsumerOpen(c, paths, [])
  {
    forall t, k | 0 <= t < |paths| && 0 <= k < |paths[t]| ensures OpenAt(c, paths, [], t, k) {
      assert OpenAt(c, paths, pending, t, k);
    }
  }

  lemma NoRetryYet(retry: seq<bool>, t: nat, unknown: bool)
    requires t < |retry|
    ensures NoRetry(retry) && !unknown ==> NoRetry(retry[t := retry[t] || unknown])
  {}

  /** One reply settles its step, or its transaction is marked. */
  lemma SettleOne(c: Crypto, started: seq<Job>, paths: seq<Path>, generated: seq<Frame>, retry: seq<bool>,
                  slot: (nat, nat), rest: seq<(nat, nat)>, input: Input, hint: Byte)
    requires c.Sound() && SameShape(paths, generated, retry)
    requires ProducerOpen(c, paths, generated, [slot] + rest, retry)
    requires KeysMatch(started, generated)
    requires NamesStep(c, paths, input, slot) && hint == c.exactHint(input)
    ensures slot.0 < |generated| && slot.1 < |generated[slot.0].1|
    ensures var generated' := Write(generated, slot, hint);
            var retry' := retry[slot.0 := retry[slot.0] || hint == UNKNOWN];
            && SameShape(paths, generated', retry') && KeysMatch(started, generated')
            && ProducerOpen(c, paths, generated', rest, retry')
  {
    assert SameLength(paths, generated, slot.0);
    var generated' := Write(generated, slot, hint);
    forall t | 0 <= t < |paths| ensures SameLength(paths, generated', t) { assert SameLength(paths, generated, t); }
    forall t | 0 <= t < |started| ensures SameKey(started, generated', t) { assert SameKey(started, generated, t); }
    var retry' := retry[slot.0 := retry[slot.0] || hint == UNKNOWN];
    forall t, k | 0 <= t < |paths| && 0 <= k < |paths[t]| && !retry'[t]
      ensures SettledAt(c, paths, generated', rest, t, k)
    {
      assert SettledAt(c, paths, generated, [slot] + rest, t, k);
      if (t, k) == slot {
        assert c.canonical(paths[t][k].query).Some?;
      }
    }
  }

  // The current frame, which is the last one, with one more entry.
  function PushEntry(generated: seq<Frame>, entry: Byte): seq<Frame>
    requires generated != []
  {
    var last := |generated| - 1;
    generated[last := (generated[last].0, generated[last].1 + [entry])]
  }

  lemma PushConsumer(c: Crypto, paths: seq<Path>, pending: seq<Equation>, st: Step, more: seq<Equation>)
    requires paths != [] && ConsumerOpen(c, paths, pending)
    requires Exact(c, st) || Queued(c, st, pending + more)
    ensures ConsumerOpen(c, Push(paths, st), pending + more)
  {
    var paths' := Push(paths, st);
    forall t, k | 0 <= t < |paths'| && 0 <= k < |paths'[t]|
      ensures OpenAt(c, paths', pending + more, t, k)
    {
      if t < |paths| - 1 || k < |paths[t]| {
        assert paths'[t][k] == paths[t][k];
        assert OpenAt(c, paths, pending, t, k);
        if !Exact(c, paths[t][k]) {
          var i :| 0 <= i < |pending| && pending[i].input == c.canonical(paths[t][k].query).value;
          assert (pending + more)[i] == pending[i];
        }
      }
    }
  }

  lemma PushProducer(c: Crypto, started: seq<Job>, paths: seq<Path>, generated: seq<Frame>, retry: seq<bool>, pending: seq<Equation>,
                     slots: seq<(nat, nat)>, st: Step, entry: Byte, more: seq<Equation>)
    requires paths != [] && SameShape(paths, generated, retry) && KeysMatch(started, generated)
    requires SlotsNameSteps(c, paths, pending, slots) && ProducerOpen(c, paths, generated, slots, retry)
    requires if more == [] then Settled(c, st, entry)
             else |more| == 1 && st.answer && c.canonical(st.query) == Some(more[0].input)
    ensures var slots' := slots + if more == [] then [] else [(|paths| - 1, |paths[|paths| - 1]|)];
            && SameShape(Push(paths, st), PushEntry(generated, entry), retry)
            && KeysMatch(started, PushEntry(generated, entry))
            && SlotsNameSteps(c, Push(paths, st), pending + more, slots')
            && ProducerOpen(c, Push(paths, st), PushEntry(generated, entry), slots', retry)
  {
    var paths': seq<Path> := Push(paths, st);
    var generated' := PushEntry(generated, entry);
    forall t | 0 <= t < |paths| ensures SameLength(paths', generated', t) { assert SameLength(paths, generated, t); }
    forall t | 0 <= t < |started| ensures SameKey(started, generated', t) { assert SameKey(started, generated, t); }
    var slots': seq<(nat, nat)> := slots + if more == [] then [] else [(|paths| - 1, |paths[|paths| - 1]|)];
    forall i | 0 <= i < |slots'| ensures NamesStep(c, paths', (pending + more)[i].input, slots'[i]) {
      if i < |slots| {
        assert NamesStep(c, paths, pending[i].input, slots[i]);
        assert paths'[slots[i].0][slots[i].1] == paths[slots[i].0][slots[i].1];
      }
    }
    forall t, k | 0 <= t < |paths'| && 0 <= k < |paths'[t]| && !retry[t]
      ensures SettledAt(c, paths', generated', slots', t, k)
    {
      if t < |paths| - 1 || k < |paths[t]| {
        assert SettledAt(c, paths, generated, slots, t, k);
      } else if more != [] {
        assert slots'[|slots|] == (t, k);
      }
    }
  }

  lemma PushDirect(c: Crypto, started: seq<Job>, paths: seq<Path>, generated: seq<Frame>, st: Step, entry: Byte,
                   before: bool, after: bool)
    requires paths != [] && DirectFrames(c, started, paths, generated, before)
    requires before ==> after
    requires entry == UNKNOWN || entry == c.HintOf(st.query)
    requires !after ==> entry == c.HintOf(st.query)
    ensures DirectFrames(c, started, Push(paths, st), PushEntry(generated, entry), after)
  {
    var last := |paths| - 1;
    var paths', generated' := Push(paths, st), PushEntry(generated, entry);
    forall t | 0 <= t < |paths| ensures DirectFrame(c, paths'[t], generated'[t].1, after) {
      assert DirectFrame(c, paths[t], generated[t].1, before);
      if t == last { HintsPush(c, paths[last], st); }
    }
    forall t | 0 <= t < |started| ensures SameKey(started, generated', t) { assert SameKey(started, generated, t); }
  }

  // ---------- The session and one group ----------

  class Session {
    const crypto: Crypto
    const mode: Mode
    const hints: map<Key, seq<Byte>>
    const batchSize: nat
    const minimum: nat
    // true: verdicts of confirmed transactions are reused on replay;
    // false: the fork that always replays the whole group.
    const reuse: bool
    var disabled: bool
    var trace: seq<Frame>
    var checks: nat
    var falseChecks: nat

    ghost predicate Valid() {
      && crypto.Sound()
      && 1 <= batchSize <= MAX_BATCH
      && mode != ProduceReplay
    }

    constructor (crypto: Crypto, mode: Mode, hints: map<Key, seq<Byte>>, sidecarRejected: bool,
                 batchSize: nat, minimum: nat, reuse: bool)
      requires crypto.Sound() && 1 <= batchSize <= MAX_BATCH && mode != ProduceReplay
      ensures Valid()
      ensures this.crypto == crypto && this.mode == mode && this.hints == hints && this.reuse == reuse
      ensures this.batchSize == batchSize && this.minimum == minimum
      ensures disabled == sidecarRejected && trace == [] && checks == falseChecks == 0
    {
      this.crypto, this.mode, this.hints := crypto, mode, hints;
      this.batchSize, this.minimum, this.reuse := batchSize, minimum, reuse;
      disabled := sidecarRejected;
      trace, checks, falseChecks := [], 0, 0;
    }

    /** The untrusted hints for a transaction; missing ones read as unknown. */
    function Advice(mode: Mode, job: Job): seq<Byte> {
      if mode == Stream then (if job.token.Some? then job.token.value else [])
      else if job.key in hints then hints[job.key] else []
    }

    /** Reads the flag; another thread may have raised it just before. */
    method LoadDisabled() returns (seen: bool)
      modifies this`disabled
      ensures seen == disabled && (old(disabled) ==> disabled)
    {
      if * { disabled := true; }
      seen := disabled;
    }

    /** A batch reply. A rejection may be wrong; an acceptance never is. */
    method WorkerBatch(pending: seq<Equation>) returns (reply: Option<bool>)
      ensures reply == Some(true) ==> forall i :: 0 <= i < |pending| ==> crypto.inputValid(pending[i].input)
    {
      var all := AllValid(pending);
      if * { reply := None; } else if * { reply := Some(false); } else { reply := Some(all); }
    }

    /** Small batches: each equation is checked ordinarily. */
    method AllValid(pending: seq<Equation>) returns (all: bool)
      ensures all <==> forall i :: 0 <= i < |pending| ==> crypto.inputValid(pending[i].input)
    {
      for i := 0 to |pending|
        invariant forall k :: 0 <= k < i ==> crypto.inputValid(pending[k].input)
      {
        if !crypto.inputValid(pending[i].input) { return false; }
      }
      return true;
    }

    method WorkerProduce(input: Input) returns (reply: Option<Byte>)
      ensures reply.Some? ==> reply.value == crypto.exactHint(input)
    {
      if * { reply := None; } else { reply := Some(crypto.exactHint(input)); }
    }

    method WorkerProduceMany(pending: seq<Equation>) returns (reply: Option<seq<Byte>>)
      ensures reply.Some? ==> |reply.value| == |pending|
      ensures reply.Some? ==> forall i :: 0 <= i < |pending| ==> reply.value[i] == crypto.exactHint(pending[i].input)
    {
      if * { return None; }
      reply := Some(seq(|pending|, i requires 0 <= i < |pending| => crypto.exactHint(pending[i].input)));
    }

    /**
     Runs one bounded group of immutable transactions. Whatever the hints, the
     batches, the worker and the other threads do, the results are the ordinary ones.
     */
    method RunGroup(jobs: seq<Job>, estimate: nat)
        returns (results: seq<Verdict>, ghost frames: seq<seq<Byte>>, ghost failed: bool)
      requires Valid()
      modifies this
      ensures old(disabled) ==> disabled
      ensures results == OrdinaryResults(crypto, jobs)
      ensures failed ==> disabled && !old(disabled) && mode in {Candidate, Stream} && estimate >= minimum
      ensures !failed ==>
                && checks == old(checks) + TotalChecks(OrdinaryPaths(crypto, jobs))
                && falseChecks == old(falseChecks) + TotalFalses(OrdinaryPaths(crypto, jobs))
      ensures mode !in {Produce, ProduceBatch} ==> trace == old(trace)
      ensures mode in {Produce, ProduceBatch} ==>
                && AllAligned(crypto, jobs, frames) && trace == old(trace) + Emitted(jobs, frames)
                && Filed(jobs, frames, trace[|old(trace)|..])
      ensures mode in {Produce, ProduceBatch} && !disabled ==> frames == OrdinaryFrames(crypto, jobs)
    {
      var groupMode := ChooseMode(estimate);
      var group;
      group, results := Judge(groupMode, jobs);
      failed := group.failed;
      frames := HintRows(group.generated);
      if mode == Produce || mode == ProduceBatch {
        DirectAligned(crypto, jobs, group.generated, disabled);
        Emit(jobs, group.generated);
        ghost var at := EmittedIsFiled(jobs, frames);
        assert trace[|old(trace)|..] == Emitted(jobs, frames);
      }
      checks := checks + group.checks;
      falseChecks := falseChecks + group.falseChecks;
    }

    /** The group's final form and results: the first pass, resolved by replay where it has to be. */
    method Judge(groupMode: Mode, jobs: seq<Job>) returns (group: Group, results: seq<Verdict>)
      requires Valid() && groupMode != Pack && groupMode != ProduceReplay
      modifies this`disabled
      ensures old(disabled) ==> disabled
      ensures results == OrdinaryResults(crypto, jobs)
      ensures group.failed ==> disabled && groupMode in {Candidate, Stream}
      ensures !group.failed ==> CountsAre(group.checks, group.falseChecks, OrdinaryPaths(crypto, jobs))
      ensures groupMode in {Produce, ProduceBatch} ==>
                DirectFrames(crypto, jobs, OrdinaryPaths(crypto, jobs), group.generated, disabled)
    {
      var error;
      group, results, error := FirstPass(groupMode, jobs);
      if group.mode == ProduceBatch {
        group, results := Resolve(group, jobs, results, error);
        ExactGroup(crypto, jobs, group.paths, results);
      } else {
        if !group.failed { ExactGroup(crypto, jobs, group.paths, results); }
        if group.failed || (error && group.hinted > 0) {
          disabled := true;
          results := RunPlain(jobs);
        }
      }
    }

    method ChooseMode(estimate: nat) returns (chosen: Mode)
      requires Valid()
      modifies this`disabled
      ensures old(disabled) ==> disabled
      ensures chosen == Baseline || chosen == mode || (mode == ProduceBatch && chosen == Produce)
      ensures chosen in {Produce, ProduceBatch} <==> mode in {Produce, ProduceBatch}
      ensures mode == Pack || (mode in {Candidate, Stream} && estimate < minimum) ==> chosen == Baseline
      ensures old(disabled) ==> chosen == if mode in {Produce, ProduceBatch} then Produce else Baseline
      ensures !disabled && mode != Pack && !(mode in {Candidate, Stream} && estimate < minimum) ==> chosen == mode
    {
      var seen := LoadDisabled();
      if (seen && mode != Produce && mode != ProduceBatch)
        || ((mode == Candidate || mode == Stream) && estimate < minimum) || mode == Pack
      {
        return Baseline;
      }
      if mode == ProduceBatch {
        seen := LoadDisabled();
        if seen { return Produce; }
      }
      return mode;
    }

    /** The speculative pass, with everything it queued settled. */
    method FirstPass(groupMode: Mode, jobs: seq<Job>) returns (group: Group, results: seq<Verdict>, error: bool)
      requires Valid() && groupMode != Pack && groupMode != ProduceReplay
      modifies this`disabled
      ensures old(disabled) ==> disabled
      ensures fresh(group) && group.session == this && group.mode == groupMode && group.Valid() && group.pending == []
      ensures group.started == jobs && Ran(jobs, group.paths, results)
      ensures error <==> AnyFails(results)
      ensures groupMode == ProduceBatch ==> group.completed == CompletedOf(results, group.paths)
      ensures groupMode != ProduceBatch && !group.failed ==> EveryExact(crypto, group.paths)
    {
      group := new Group(this, groupMode);
      results, error := group.Work(jobs);
      group.Flush();
    }

    method RunPlain(jobs: seq<Job>) returns (results: seq<Verdict>)
      requires Valid()
      modifies this`disabled
      ensures old(disabled) ==> disabled
      ensures results == OrdinaryResults(crypto, jobs)
    {
      var plain := new Group(this, Baseline);
      var error;
      results, error := plain.Work(jobs);
      ExactGroup(crypto, jobs, plain.paths, results);
    }

    /** Accepts a batched group whose optimism was justified, and replays one whose was not. */
    method Resolve(group: Group, jobs: seq<Job>, results0: seq<Verdict>, error: bool)
      returns (exact: Group, results: seq<Verdict>)
      requires group.session == this && group.mode == ProduceBatch && group.Valid()
      requires group.pending == [] && group.started == jobs && Ran(jobs, group.paths, results0)
      requires error <==> AnyFails(results0)
      requires group.completed == CompletedOf(results0, group.paths)
      modifies this`disabled
      ensures old(disabled) ==> disabled
      ensures exact.started == jobs && EveryExact(crypto, exact.paths) && Ran(jobs, exact.paths, results) && !exact.failed
      ensures CountsAre(exact.checks, exact.falseChecks, exact.paths)
      ensures DirectFrames(crypto, jobs, exact.paths, exact.generated, disabled)
    {
      if group.producerRetry || (error && group.provisional > 0) {
        exact := new Group(this, ProduceReplay);
        ReusablesExact(crypto, jobs, group.paths, group.generated, group.txRetry, results0);
        exact.reusable := if reuse then Reusables(group.generated, group.completed, group.txRetry) else [];
        exact.cache := group.cache;
        var replayError;
        results, replayError := exact.Work(jobs);
      } else {
        exact, results := group, results0;
        NothingMarked(crypto, group.paths, group.generated, group.txRetry);
      }
    }

    method Emit(ghost jobs: seq<Job>, generated: seq<Frame>)
      requires KeysMatch(jobs, generated)
      modifies this`trace
      ensures trace == old(trace) + Emitted(jobs, HintRows(generated))
    {
      ghost var rows := HintRows(generated);
      for t := 0 to |generated|
        invariant trace == old(trace) + Emitted(jobs[..t], rows[..t])
      {
        assert SameKey(jobs, generated, t);
        assert jobs[..t + 1][..t] == jobs[..t] && rows[..t + 1][..t] == rows[..t];
        if 0 < |generated[t].1| <= MAX_TX_HINTS {
          trace := trace + [generated[t]];
        }
      }
      assert jobs[..|generated|] == jobs && rows[..|generated|] == rows;
    }
  }

  class Group {
    const session: Session
    const mode: Mode
    var hints: seq<Byte>
    var generated: seq<Frame>
    var cache: map<Input, Byte>
    var pending: seq<Equation>
    var pendingSlots: seq<(nat, nat)>
    var producerRetry: bool
    var provisional: nat
    var txRetry: seq<bool>
    var completed: seq<Completed>
    var reusable: seq<Option<Reusable>>
    var ordinal: nat
    var failed: bool
    var jobs: nat
    var hinted: nat
    var checks: nat
    var falseChecks: nat
    // The jobs started so far and the answers each has been given.
    ghost var started: seq<Job>
    ghost var paths: seq<Path>

    ghost predicate Counted()
      reads this
    {
      && |started| == |paths| == jobs
      && CountsAre(checks, falseChecks, paths)
      && |cache| <= MAX_BATCH
      && CacheExact(session.crypto, cache)
      && |pending| < session.batchSize
    }

    ghost predicate ConsumerValid()
      reads this
    {
      && pendingSlots == [] && generated == []
      && (hinted == 0 ==> pending == [] && EveryExact(session.crypto, paths) && !failed)
      && (!failed ==> ConsumerOpen(session.crypto, paths, pending))
    }

    // Answers given in these modes are never provisional.
    ghost predicate DirectValid()
      reads this, session
    {
      && pending == [] && pendingSlots == []
      && !failed && hinted == 0
      && EveryExact(session.crypto, paths)
      && (mode == Baseline ==> generated == [])
      && (mode != Baseline ==> DirectFrames(session.crypto, started, paths, generated, session.disabled))
    }

    ghost predicate ProducerShape()
      reads this
    {
      && SameShape(paths, generated, txRetry)
      && SlotsNameSteps(session.crypto, paths, pending, pendingSlots)
      && ProducerOpen(session.crypto, paths, generated, pendingSlots, txRetry)
      && (!producerRetry ==> NoRetry(txRetry))
    }

    ghost predicate ProducerValid()
      reads this
    {
      && ProducerShape()
      && KeysMatch(started, generated)
      && !failed && hinted == 0
      && (provisional == 0 ==> pending == [] && !producerRetry)
    }

    ghost predicate Valid()
      reads this, session
    {
      && session.Valid()
      && Counted()
      && match mode
         case Candidate | Stream => ConsumerValid()
         case ProduceBatch => ProducerValid()
         case Pack => false
         case _ => DirectValid()
    }

    constructor (session: Session, mode: Mode)
      requires session.Valid() && mode != Pack
      ensures this.session == session && this.mode == mode
      ensures Valid() && started == [] && paths == [] && completed == [] && generated == []
      ensures cache == map[] && reusable == [] && !failed
    {
      this.session, this.mode := session, mode;
      hints, generated, cache, pending, pendingSlots := [], [], map[], [], [];
      producerRetry, provisional, txRetry, completed, reusable := false, 0, [], [], [];
      ordinal, failed, jobs, hinted, checks, falseChecks := 0, false, 0, 0, 0, 0;
      started, paths := [], [];
    }

    /** One exact production outside a batch; a failing worker disables the session. */
    method ProduceOne(input: Input) returns (hint: Option<Byte>)
      modifies session`disabled
      ensures old(session.disabled) ==> session.disabled
      ensures hint.Some? ==> hint.value == session.crypto.exactHint(input)
      ensures hint.None? ==> session.disabled
    {
      var disabled := session.LoadDisabled();
      if disabled { return None; }
      hint := session.WorkerProduce(input);
      if hint.None? { session.disabled := true; }
    }

    /** Memoization is bounded: past the bound an answer is simply not stored. */
    method Remember(input: Input, hint: Byte)
      requires |cache| <= MAX_BATCH && CacheExact(session.crypto, cache)
      requires hint == session.crypto.exactHint(input)
      modifies this`cache
      ensures |cache| <= MAX_BATCH && CacheExact(session.crypto, cache)
      ensures cache == if |old(cache)| < 8192 then old(cache)[input := hint] else old(cache)
    {
      if |cache| < MAX_BATCH {
        cache := cache[input := hint];
      }
    }

    /** Settles the queued checks of a producing group, or marks their transactions for retry. */
    method FlushProducer()
      requires session.Valid() && ProducerShape() && KeysMatch(started, generated)
      requires |cache| <= MAX_BATCH && CacheExact(session.crypto, cache)
      modifies this`pending, this`pendingSlots, this`generated, this`cache, this`producerRetry, this`txRetry
      modifies session`disabled
      ensures old(session.disabled) ==> session.disabled
      ensures pending == [] && ProducerShape() && KeysMatch(started, generated)
      ensures |cache| <= MAX_BATCH && CacheExact(session.crypto, cache)
      ensures old(pending) == [] ==> producerRetry == old(producerRetry)
    {
      if pending == [] { return; }
      var records, slots := pending, pendingSlots;
      pending, pendingSlots := [], [];
      var disabled := session.LoadDisabled();
      if disabled {
        producerRetry := true;
        MarkRetry(records, slots);
        return;
      }
      var reply := session.WorkerProduceMany(records);
      match reply
      case Some(hints) => Settle(records, hints, slots);
      case None =>
        producerRetry := true;
        MarkRetry(records, slots);
        session.disabled := true;
    }

    method MarkRetry(ghost records: seq<Equation>, slots: seq<(nat, nat)>)
      requires SameShape(paths, generated, txRetry)
      requires SlotsNameSteps(session.crypto, paths, records, slots)
      requires ProducerOpen(session.crypto, paths, generated, slots, txRetry)
      modifies this`txRetry
      ensures SameShape(paths, generated, txRetry)
      ensures ProducerOpen(session.crypto, paths, generated, [], txRetry)
    {
      for i := 0 to |slots|
        invariant SameShape(paths, generated, txRetry)
        invariant ProducerOpen(session.crypto, paths, generated, slots[i..], txRetry)
      {
        assert NamesStep(session.crypto, paths, records[i].input, slots[i]);
        assert slots[i..] == [slots[i]] + slots[i + 1..];
        MarkOne(session.crypto, paths, generated, txRetry, slots[i], slots[i + 1..]);
        txRetry := txRetry[slots[i].0 := true];
      }
    }

    method Settle(records: seq<Equation>, hints: seq<Byte>, slots: seq<(nat, nat)>)
      requires session.Valid() && pending == [] && pendingSlots == []
      requires SameShape(paths, generated, txRetry) && KeysMatch(started, generated)
      requires |hints| == |records|
      requires forall i :: 0 <= i < |records| ==> hints[i] == session.crypto.exactHint(records[i].input)
      requires SlotsNameSteps(session.crypto, paths, records, slots)
      requires ProducerOpen(session.crypto, paths, generated, slots, txRetry)
      requires |cache| <= MAX_BATCH && CacheExact(session.crypto, cache)
      requires !producerRetry ==> NoRetry(txRetry)
      modifies this`generated, this`cache, this`producerRetry, this`txRetry
      ensures ProducerShape() && KeysMatch(started, generated)
      ensures |cache| <= MAX_BATCH && CacheExact(session.crypto, cache)
      ensures generated == Written(old(generated), slots, hints)
      ensures txRetry == Marked(old(txRetry), slots, hints)
    {
      var c := session.crypto;
      assert generated == Written(generated, slots[..0], hints[..0]) && txRetry == Marked(txRetry, slots[..0], hints[..0]);
      hide ProducerOpen, KeysMatch, CacheExact, Written, Marked, SameShape, NoRetry;
      for i := 0 to |records|
        invariant generated == Written(old(generated), slots[..i], hints[..i])
        invariant txRetry == Marked(old(txRetry), slots[..i], hints[..i])
        invariant SameShape(paths, generated, txRetry) && KeysMatch(started, generated)
        invariant ProducerOpen(c, paths, generated, slots[i..], txRetry)
        invariant |cache| <= MAX_BATCH && CacheExact(c, cache)
        invariant !producerRetry ==> NoRetry(txRetry)
      {
        var slot, hint := slots[i], hints[i];
        assert NamesStep(c, paths, records[i].input, slot);
        assert slots[i..] == [slot] + slots[i + 1..];
        SettleOne(c, started, paths, generated, txRetry, slot, slots[i + 1..], records[i].input, hint);
        NoRetryYet(txRetry, slot.0, hint == UNKNOWN);
        WrittenMore(old(generated), old(txRetry), slots, hints, i);
        generated := Write(generated, slot, hint);
        Remember(records[i].input, hint);
        producerRetry := producerRetry || hint == UNKNOWN;
        txRetry := txRetry[slot.0 := txRetry[slot.0] || hint == UNKNOWN];
      }
      assert slots[..|records|] == slots && hints[..|records|] == hints;
    }

    /** Settles the queued checks of a consuming group by one batch equation. */
    method FlushConsumer()
      requires session.Valid()
      requires !failed ==> ConsumerOpen(session.crypto, paths, pending)
      modifies this`pending, this`failed, session`disabled
      ensures old(session.disabled) ==> session.disabled
      ensures pending == [] && (old(failed) ==> failed)
      ensures old(pending) == [] ==> failed == old(failed) && session.disabled == old(session.disabled)
      ensures !failed ==> ConsumerOpen(session.crypto, paths, []) && EveryExact(session.crypto, paths)
      ensures failed && !old(failed) ==> session.disabled
    {
      var c := session.crypto;
      NothingQueued(c, paths);
      if pending == [] { return; }
      if !failed {
        var valid;
        if |pending| < session.minimum {
          valid := session.AllValid(pending);
        } else {
          var reply := session.WorkerBatch(pending);
          valid := reply == Some(true);
        }
        if valid {
          AllQueuedValid(c, paths, pending);
        } else {
          failed := true;
          session.disabled := true;
        }
      }
      pending := [];
    }

    method Flush()
      requires Valid()
      modifies this`pending, this`pendingSlots, this`generated, this`cache, this`producerRetry, this`txRetry
      modifies this`failed, session`disabled
      ensures old(session.disabled) ==> session.disabled
      ensures Valid() && pending == []
      ensures mode in {Candidate, Stream} && !failed ==> EveryExact(session.crypto, paths)
      ensures failed && !old(failed) ==> session.disabled
    {
      if mode == ProduceBatch {
        FlushProducer();
      } else if mode == Candidate || mode == Stream {
        FlushConsumer();
      } else {
        NothingQueued(session.crypto, paths);
        FlushConsumer();
      }
    }

    // The bookkeeping of one answered check, in every mode.
    method Count(st: Step)
      requires paths != [] && |started| == |paths|
      requires CountsAre(checks, falseChecks, paths)
      modifies this`paths, this`checks, this`falseChecks, this`ordinal
      ensures paths == Push(old(paths), st)
      ensures CountsAre(checks, falseChecks, paths)
    {
      PushCounts(paths, st);
      checks := checks + 1;
      ordinal := ordinal + 1;
      falseChecks := falseChecks + if st.answer then 0 else 1;
      paths := Push(paths, st);
    }

    /** A check of a producing group that is being batched. */
    method VerifyBatched(q: Query) returns (answer: bool)
      requires session.Valid() && Counted() && ProducerValid() && paths != []
      modifies this`paths, this`checks, this`falseChecks, this`ordinal, this`provisional
      modifies this`pending, this`pendingSlots, this`generated, this`cache, this`producerRetry, this`txRetry
      modifies session`disabled
      ensures old(session.disabled) ==> session.disabled
      ensures Counted() && ProducerValid()
      ensures paths == Push(old(paths), Step(q, answer))
      ensures match session.crypto.canonical(q)
              case None => answer == session.crypto.valid(q) && provisional == old(provisional)
              case Some(input) =>
                if input in old(cache) then answer == (old(cache)[input] < 4) && provisional == old(provisional)
                else
                  && answer && provisional == old(provisional) + 1
                  && pending == if |old(pending)| + 1 == session.batchSize then [] else old(pending) + [Equation(input, 0)]
    {
      var c := session.crypto;
      var tx := |generated| - 1;
      assert SameLength(paths, generated, tx);
      var ordinal := |generated[tx].1|;
      var canonical := c.canonical(q);
      if canonical.None? {
        answer := c.valid(q);
        Record(Step(q, answer), UNKNOWN);
      } else if canonical.value in cache {
        var hint := cache[canonical.value];
        answer := hint < 4;
        Record(Step(q, answer), hint);
      } else {
        answer := true;
        Defer(q, canonical.value, tx, ordinal);
      }
    }

    /** Queues an equation for the answer `true`, settling the batch when it is full. */
    method Defer(q: Query, input: Input, tx: nat, ordinal: nat)
      requires session.Valid() && paths != [] && |started| == |paths| && CountsAre(checks, falseChecks, paths)
      requires |cache| <= MAX_BATCH && CacheExact(session.crypto, cache) && |pending| < session.batchSize
      requires ProducerShape() && KeysMatch(started, generated)
      requires session.crypto.canonical(q) == Some(input)
      requires tx == |generated| - 1 && ordinal == |generated[tx].1|
      modifies this`paths, this`checks, this`falseChecks, this`ordinal, this`provisional
      modifies this`pending, this`pendingSlots, this`generated, this`cache, this`producerRetry, this`txRetry
      modifies session`disabled
      ensures old(session.disabled) ==> session.disabled
      ensures paths == Push(old(paths), Step(q, true)) && CountsAre(checks, falseChecks, paths)
      ensures |cache| <= MAX_BATCH && CacheExact(session.crypto, cache) && |pending| < session.batchSize
      ensures ProducerShape() && KeysMatch(started, generated) && provisional == old(provisional) + 1
      ensures pending == if |old(pending)| + 1 == session.batchSize then [] else old(pending) + [Equation(input, 0)]
    {
      Enqueue(q, input, tx, ordinal);
      FlushWhenFull();
    }

    method FlushWhenFull()
      requires session.Valid() && ProducerShape() && KeysMatch(started, generated)
      requires |cache| <= MAX_BATCH && CacheExact(session.crypto, cache) && |pending| <= session.batchSize
      modifies this`pending, this`pendingSlots, this`generated, this`cache, this`producerRetry, this`txRetry
      modifies session`disabled
      ensures old(session.disabled) ==> session.disabled
      ensures |pending| < session.batchSize && ProducerShape() && KeysMatch(started, generated)
      ensures |cache| <= MAX_BATCH && CacheExact(session.crypto, cache)
      ensures pending == if |old(pending)| == session.batchSize then [] else old(pending)
    {
      if |pending| == session.batchSize {
        FlushProducer();
      }
    }

    method Record(st: Step, entry: Byte)
      requires paths != [] && |started| == |paths|
      requires CountsAre(checks, falseChecks, paths)
      requires ProducerShape() && KeysMatch(started, generated)
      requires Settled(session.crypto, st, entry)
      modifies this`paths, this`checks, this`falseChecks, this`ordinal, this`generated
      ensures paths == Push(old(paths), st)
      ensures CountsAre(checks, falseChecks, paths)
      ensures ProducerShape() && KeysMatch(started, generated)
    {
      PushProducer(session.crypto, started, paths, generated, txRetry, pending, pendingSlots, st, entry, []);
      assert pending + [] == pending && pendingSlots + [] == pendingSlots;
      generated := PushEntry(generated, entry);
      Count(st);
    }

    method Enqueue(q: Query, input: Input, tx: nat, ordinal: nat)
      requires paths != [] && |started| == |paths|
      requires CountsAre(checks, falseChecks, paths)
      requires ProducerShape() && KeysMatch(started, generated)
      requires session.crypto.canonical(q) == Some(input)
      requires tx == |generated| - 1 && ordinal == |generated[tx].1|
      modifies this`paths, this`checks, this`falseChecks, this`ordinal, this`provisional
      modifies this`pending, this`pendingSlots, this`generated
      ensures paths == Push(old(paths), Step(q, true))
      ensures CountsAre(checks, falseChecks, paths)
      ensures ProducerShape() && KeysMatch(started, generated) && provisional == old(provisional) + 1
      ensures pending == old(pending) + [Equation(input, 0)]
    {
      var equation := Equation(input, 0);
      assert SameLength(paths, generated, tx);
      PushProducer(session.crypto, started, paths, generated, txRetry, pending, pendingSlots, Step(q, true), UNKNOWN, [equation]);
      provisional := provisional + 1;
      generated := PushEntry(generated, UNKNOWN);
      pending := pending + [equation];
      pendingSlots := pendingSlots + [(tx, ordinal)];
      Count(Step(q, true));
    }

    /** A check of a producing group that is answered at once. */
    method VerifyProduced(q: Query) returns (answer: bool)
      requires session.Valid() && Counted() && DirectValid() && paths != []
      requires mode in {Produce, ProduceReplay}
      modifies this`paths, this`checks, this`falseChecks, this`ordinal, this`generated, this`cache
      modifies session`disabled
      ensures old(session.disabled) ==> session.disabled
      ensures Counted() && DirectValid()
      ensures paths == Push(old(paths), Step(q, answer))
    {
      var c := session.crypto;
      var produced := Produced(q);
      match produced {
        case Some(hint) => answer := hint < 4;
        case None => answer := c.valid(q);
      }
      var entry := match produced case Some(hint) => hint case None => UNKNOWN;
      RecordDirect(Step(q, answer), entry, old(session.disabled));
    }

    method RecordDirect(st: Step, entry: Byte, ghost before: bool)
      requires paths != [] && |started| == |paths|
      requires CountsAre(checks, falseChecks, paths)
      requires EveryExact(session.crypto, paths) && Exact(session.crypto, st)
      requires DirectFrames(session.crypto, started, paths, generated, before) && (before ==> session.disabled)
      requires entry == UNKNOWN || entry == session.crypto.HintOf(st.query)
      requires !session.disabled ==> entry == session.crypto.HintOf(st.query)
      modifies this`paths, this`checks, this`falseChecks, this`ordinal, this`generated
      ensures EveryExact(session.crypto, paths)
      ensures DirectFrames(session.crypto, started, paths, generated, session.disabled)
      ensures paths == Push(old(paths), st)
      ensures CountsAre(checks, falseChecks, paths)
    {
      PushExact(session.crypto, paths, st);
      PushDirect(session.crypto, started, paths, generated, st, entry, before, session.disabled);
      generated := PushEntry(generated, entry);
      Count(st);
    }

    method Produced(q: Query) returns (produced: Option<Byte>)
      requires session.Valid() && |cache| <= MAX_BATCH && CacheExact(session.crypto, cache)
      modifies this`cache, session`disabled
      ensures old(session.disabled) ==> session.disabled
      ensures |cache| <= MAX_BATCH && CacheExact(session.crypto, cache)
      ensures produced.Some? ==> session.crypto.canonical(q).Some? && produced.value == session.crypto.HintOf(q)
      ensures produced.None? ==> session.crypto.canonical(q).None? || session.disabled
    {
      var canonical := session.crypto.canonical(q);
      if canonical.None? { return None; }
      if mode == ProduceReplay && canonical.value in cache {
        return Some(cache[canonical.value]);
      }
      produced := ProduceOne(canonical.value);
      if mode == ProduceReplay && produced.Some? {
        Remember(canonical.value, produced.value);
      }
    }

    /** A check of a plain group: ordinary verification. */
    method VerifyOrdinary(q: Query) returns (answer: bool)
      requires paths != [] && |started| == |paths|
      requires CountsAre(checks, falseChecks, paths)
      modifies this`paths, this`checks, this`falseChecks, this`ordinal
      ensures answer == session.crypto.valid(q)
      ensures paths == Push(old(paths), Step(q, answer))
      ensures CountsAre(checks, falseChecks, paths)
    {
      answer := session.crypto.valid(q);
      Count(Step(q, answer));
    }

    /** Answers a check `true` on the strength of its hint, and queues the equation. */
    method VerifyHinted(q: Query, equation: Equation)
      requires session.Valid() && Counted() && paths != []
      requires !failed && ConsumerOpen(session.crypto, paths, pending)
      requires session.crypto.canonical(q) == Some(equation.input)
      modifies this`paths, this`checks, this`falseChecks, this`ordinal, this`pending, this`failed, this`hinted
      modifies session`disabled
      ensures old(session.disabled) ==> session.disabled
      ensures Counted() && hinted == old(hinted) + 1 && (failed ==> session.disabled)
      ensures !failed ==> ConsumerOpen(session.crypto, paths, pending)
      ensures paths == Push(old(paths), Step(q, true))
      ensures pending == if |old(pending)| + 1 == session.batchSize then [] else old(pending) + [equation]
    {
      assert (pending + [equation])[|pending|] == equation;
      PushConsumer(session.crypto, paths, pending, Step(q, true), [equation]);
      pending := pending + [equation];
      hinted := hinted + 1;
      Count(Step(q, true));
      if |pending| == session.batchSize {
        FlushConsumer();
      }
    }

    /** A check of a consuming group: hinted checks are answered `true` and queued. */
    method VerifyConsumer(q: Query) returns (answer: bool)
      requires session.Valid() && Counted() && ConsumerValid() && paths != []
      requires failed ==> session.disabled
      modifies this`paths, this`checks, this`falseChecks, this`ordinal, this`pending, this`failed, this`hinted
      modifies session`disabled
      ensures old(session.disabled) ==> session.disabled
      ensures Counted() && ConsumerValid() && (failed ==> session.disabled)
      ensures paths == Push(old(paths), Step(q, answer))
      ensures hinted == old(hinted) || hinted == old(hinted) + 1
      ensures hinted == old(hinted) ==> answer == session.crypto.valid(q)
      ensures hinted > old(hinted) ==>
                answer && !old(failed) && !old(session.disabled) && session.crypto.canonical(q).Some?
                && old(ordinal) < |hints| && hints[old(ordinal)] < 4
                && pending == if |old(pending)| + 1 == session.batchSize then []
                              else old(pending) + [Equation(session.crypto.canonical(q).value, hints[old(ordinal)])]
      ensures !session.disabled && !old(failed) && session.crypto.canonical(q).Some? && old(ordinal) < |hints| && hints[old(ordinal)] < 4 ==>
                hinted > old(hinted)
    {
      var c := session.crypto;
      var hint := if ordinal < |hints| then hints[ordinal] else UNKNOWN;
      if !failed && hint < 4 {
        var disabled := session.LoadDisabled();
        var canonical := c.canonical(q);
        if !disabled && canonical.Some? {
          VerifyHinted(q, Equation(canonical.value, hint));
          return true;
        }
      }
      answer := VerifyUnhinted(q);
    }

    /** A check with no usable hint is answered ordinarily. */
    method VerifyUnhinted(q: Query) returns (answer: bool)
      requires session.Valid() && Counted() && ConsumerValid() && paths != []
      modifies this`paths, this`checks, this`falseChecks, this`ordinal
      ensures Counted() && ConsumerValid()
      ensures paths == Push(old(paths), Step(q, answer)) && answer == session.crypto.valid(q)
    {
      ghost var c, st := session.crypto, Step(q, session.crypto.valid(q));
      if hinted == 0 { PushExact(c, paths, st); }
      if !failed {
        PushConsumer(c, paths, pending, st, []);
        assert pending + [] == pending;
      }
      answer := VerifyOrdinary(q);
    }

    /** Answers one signature check of the running Script. */
    method Verify(q: Query) returns (answer: bool)
      requires Valid() && paths != []
      requires failed ==> session.disabled
      modifies this`paths, this`checks, this`falseChecks, this`ordinal, this`provisional, this`failed, this`hinted
      modifies this`pending, this`pendingSlots, this`generated, this`cache, this`producerRetry, this`txRetry
      modifies session`disabled
      ensures old(session.disabled) ==> session.disabled
      ensures Valid() && (failed ==> session.disabled)
      ensures paths == Push(old(paths), Step(q, answer))
    {
      match mode
      case ProduceBatch => answer := VerifyBatched(q);
      case Produce | ProduceReplay => answer := VerifyProduced(q);
      case Candidate | Stream => answer := VerifyConsumer(q);
      case Baseline =>
        PushExact(session.crypto, paths, Step(q, session.crypto.valid(q)));
        answer := VerifyOrdinary(q);
    }

    /** Opens a transaction that is really going to run. */
    method Start(job: Job)
      requires Valid()
      modifies this`jobs, this`ordinal, this`started, this`paths, this`txRetry, this`generated, this`hints
      ensures Valid()
      ensures started == old(started) + [job] && paths == old(paths) + [[]]
    {
      if mode == ProduceBatch {
        StartBatched(job);
      } else if mode == Candidate || mode == Stream {
        StartHinted(job);
      } else {
        StartOrdinary(job);
      }
    }

    method StartBatched(job: Job)
      requires Counted() && ProducerValid()
      modifies this`jobs, this`ordinal, this`started, this`paths, this`txRetry, this`generated
      ensures Counted() && ProducerValid()
      ensures started == old(started) + [job] && paths == old(paths) + [[]]
    {
      StartCounts(paths, []);
      StartProducer(session.crypto, started, paths, generated, txRetry, pending, pendingSlots, job);
      txRetry := txRetry + [false];
      generated := generated + [(job.key, [])];
      Begin(job);
    }

    /** The next transaction, with no checks yet. */
    method Begin(job: Job)
      modifies this`jobs, this`ordinal, this`started, this`paths
      ensures jobs == old(jobs) + 1 && ordinal == 0 && started == old(started) + [job] && paths == old(paths) + [[]]
    {
      jobs, ordinal := jobs + 1, 0;
      started, paths := started + [job], paths + [[]];
    }

    method StartHinted(job: Job)
      requires Counted() && ConsumerValid()
      modifies this`jobs, this`ordinal, this`started, this`paths, this`hints
      ensures Counted() && ConsumerValid()
      ensures started == old(started) + [job] && paths == old(paths) + [[]] && ordinal == 0
      ensures mode == Stream ==> hints == if job.token == None then [] else job.token.value
      ensures mode != Stream ==> hints == if job.key in session.hints then session.hints[job.key] else []
    {
      StartCounts(paths, []);
      StartConsumer(session.crypto, paths, pending);
      hints := session.Advice(mode, job);
      Begin(job);
    }

    method StartOrdinary(job: Job)
      requires Counted() && DirectValid()
      modifies this`jobs, this`ordinal, this`started, this`paths, this`generated
      ensures Counted() && DirectValid()
      ensures started == old(started) + [job] && paths == old(paths) + [[]]
    {
      StartCounts(paths, []);
      StartExact(session.crypto, paths, []);
      jobs, ordinal := jobs + 1, 0;
      if mode != Baseline {
        StartDirect(session.crypto, started, paths, generated, session.disabled, job, []);
        assert Hints(session.crypto, []) == [];
        generated := generated + [(job.key, [])];
      }
      started, paths := started + [job], paths + [[]];
    }

    method TakeOver(job: Job, entry: Reusable, ghost path: Path)
      modifies this`jobs, this`ordinal, this`started, this`paths, this`generated, this`checks, this`falseChecks
      ensures jobs == old(jobs) + 1 && ordinal == 0 && generated == old(generated) + [entry.frame]
      ensures checks == old(checks) + entry.verdict.checks && falseChecks == old(falseChecks) + entry.verdict.falseChecks
      ensures started == old(started) + [job] && paths == old(paths) + [path]
    {
      jobs, ordinal := jobs + 1, 0;
      checks := checks + entry.verdict.checks;
      falseChecks := falseChecks + entry.verdict.falseChecks;
      generated := generated + [entry.frame];
      started, paths := started + [job], paths + [path];
    }

    /** Replays a confirmed transaction without running it. */
    method Reuse(job: Job, entry: Reusable) returns (verdict: Verdict)
      requires Counted() && DirectValid() && mode == ProduceReplay
      requires ReusableExact(session.crypto, job, entry)
      modifies this`jobs, this`ordinal, this`started, this`paths, this`generated, this`checks, this`falseChecks
      ensures Counted() && DirectValid()
      ensures started == old(started) + [job] && paths == old(paths) + [OrdinaryPath(session.crypto, job.script)]
      ensures RanAt(job, paths[|old(paths)|], verdict)
    {
      ghost var path := OrdinaryPath(session.crypto, job.script);
      ReuseKeeps(session.crypto, started, paths, generated, session.disabled, job, entry);
      TakeOver(job, entry, path);
      verdict := entry.verdict.verdict;
    }

    /** Runs one Script to its verdict, answering its checks. */
    method RunScript(script: Script) returns (verdict: Verdict)
      requires Valid() && paths != [] && paths[|paths| - 1] == []
      requires failed ==> session.disabled
      modifies this`paths, this`checks, this`falseChecks, this`ordinal, this`provisional, this`failed, this`hinted
      modifies this`pending, this`pendingSlots, this`generated, this`cache, this`producerRetry, this`txRetry
      modifies session`disabled
      ensures old(session.disabled) ==> session.disabled
      ensures Valid() && (failed ==> session.disabled)
      ensures |paths| == |old(paths)| && paths[..|paths| - 1] == old(paths)[..|paths| - 1]
      ensures After(script, paths[|paths| - 1]) == Some(Done(verdict))
    {
      var at := script;
      ghost var last := |paths| - 1;
      while at.Ask?
        invariant old(session.disabled) ==> session.disabled
        invariant Valid() && (failed ==> session.disabled)
        invariant |paths| == |old(paths)| && paths[..last] == old(paths)[..last]
        invariant After(script, paths[last]) == Some(at)
        decreases at
      {
        ghost var path := paths[last];
        var answer := Verify(at.query);
        AfterStep(script, path, answer);
        assert paths[last] == path + [Step(at.query, answer)];
        at := if answer then at.ifTrue else at.ifFalse;
      }
      verdict := at.verdict;
    }

    /** One transaction: reused, or run. */
    method Transaction(job: Job, ghost all: seq<Job>) returns (verdict: Verdict)
      requires Valid() && (failed ==> session.disabled)
      requires jobs < |all| && job == all[jobs]
      requires AllReusableExact(session.crypto, all, reusable)
      modifies this, session`disabled
      ensures old(session.disabled) ==> session.disabled
      ensures Valid() && (failed ==> session.disabled)
      ensures AllReusableExact(session.crypto, all, reusable)
      ensures started == old(started) + [job]
      ensures |paths| == |old(paths)| + 1 && paths[..|old(paths)|] == old(paths)
      ensures RanAt(job, paths[|old(paths)|], verdict)
      ensures completed == if mode != ProduceBatch then old(completed) else
                old(completed) + [Completed(verdict, |paths[|old(paths)|]|, Falses(paths[|old(paths)|]))]
    {
      if mode == ProduceReplay && jobs < |reusable| && reusable[jobs].Some? {
        var entry := reusable[jobs].value;
        reusable := reusable[jobs := None];
        verdict := Reuse(job, entry);
      } else {
        verdict := RunFresh(job);
      }
    }

    /** Runs a transaction's Script; a batching group keeps its verdict and counts. */
    method RunFresh(job: Job) returns (verdict: Verdict)
      requires Valid() && (failed ==> session.disabled)
      modifies this`jobs, this`started, this`txRetry, this`hints, this`completed
      modifies this`paths, this`checks, this`falseChecks, this`ordinal, this`provisional, this`failed, this`hinted
      modifies this`pending, this`pendingSlots, this`generated, this`cache, this`producerRetry
      modifies session`disabled
      ensures old(session.disabled) ==> session.disabled
      ensures Valid() && (failed ==> session.disabled)
      ensures started == old(started) + [job]
      ensures |paths| == |old(paths)| + 1 && paths[..|old(paths)|] == old(paths)
      ensures RanAt(job, paths[|old(paths)|], verdict)
      ensures completed == if mode != ProduceBatch then old(completed) else
                old(completed) + [Completed(verdict, |paths[|old(paths)|]|, Falses(paths[|old(paths)|]))]
    {
      var checksBefore, falsesBefore := checks, falseChecks;
      Start(job);
      verdict := RunScript(job.script);
      if mode == ProduceBatch {
        CountsGrew(old(paths), paths, checksBefore, falsesBefore, checks, falseChecks);
        completed := completed + [Completed(verdict, checks - checksBefore, falseChecks - falsesBefore)];
      }
    }

    /** All jobs of the group, in order. */
    method Work(all: seq<Job>) returns (results: seq<Verdict>, error: bool)
      requires Valid() && !failed && started == [] && completed == []
      requires AllReusableExact(session.crypto, all, reusable)
      modifies this, session`disabled
      ensures old(session.disabled) ==> session.disabled
      ensures Valid() && (failed ==> session.disabled)
      ensures started == all && Ran(all, paths, results)
      ensures error <==> AnyFails(results)
      ensures mode == ProduceBatch ==> completed == CompletedOf(results, paths)
    {
      hide CountsAre, CacheExact, ProducerOpen, SameShape;
      results, error := [], false;
      for j := 0 to |all|
        invariant old(session.disabled) ==> session.disabled
        invariant Valid() && (failed ==> session.disabled)
        invariant AllReusableExact(session.crypto, all, reusable)
        invariant started == all[..j] && Ran(started, paths, results)
        invariant error <==> AnyFails(results)
        invariant mode == ProduceBatch ==> completed == CompletedOf(results, paths)
      {
        ghost var started0, paths0, results0 := started, paths, results;
        var verdict := Transaction(all[j], all);
        results := results + [verdict];
        error := error || verdict.Fail?;
        RanPush(started0, paths0, results0, all[j], paths[j], verdict);
        CompletedPush(paths0, results0, paths[j], verdict);
        assert paths == paths0 + [paths[j]];
        assert results[..j] == results0;
      }
    }
  }

  /**
   The fork that reuses confirmed transactions and the fork that replays whole
   groups agree: the same results and counts, and, when the worker never
   fails either of them, the same advice frames.
   */
  method ForksAgree(reusing: Session, replaying: Session, jobs: seq<Job>, estimate: nat)
      returns (results: seq<Verdict>, results': seq<Verdict>)
    requires reusing != replaying && reusing.Valid() && replaying.Valid()
    requires reusing.crypto == replaying.crypto && reusing.mode == replaying.mode == ProduceBatch
    requires reusing.reuse && !replaying.reuse
    modifies reusing, replaying
    ensures results == results'
    ensures reusing.checks - old(reusing.checks) == replaying.checks - old(replaying.checks)
    ensures reusing.falseChecks - old(reusing.falseChecks) == replaying.falseChecks - old(replaying.falseChecks)
    ensures !reusing.disabled && !replaying.disabled ==>
              var emitted := Emitted(jobs, OrdinaryFrames(reusing.crypto, jobs));
              reusing.trace == old(reusing.trace) + emitted && replaying.trace == old(replaying.trace) + emitted
  {
    ghost var frames, frames';
    ghost var failed, failed';
    results, frames, failed := reusing.RunGroup(jobs, estimate);
    results', frames', failed' := replaying.RunGroup(jobs, estimate);
  }
}
