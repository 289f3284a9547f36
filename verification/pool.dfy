/**
 The script pool under any interleaving of its threads: a shared queue drained
 in groups, an error slot and a countdown for each block. Each method below is
 one atomic step of one thread; a schedule is any sequence of them.
 */
module Pools {
  import opened Wrappers
  import opened Arith
  import opened Scripts

  // A job of a block, with the verdict its group will return for it.
  datatype Job = Job(block: nat, index: nat, verdict: Verdict)

  // Where a worker is: waiting for work, inside a group, or reporting from
  // position `next` on, `noted` once the error slot has been visited for it.
  datatype Phase =
    | Waiting
    | Checking(jobs: seq<Job>)
    | Reporting(jobs: seq<Job>, next: nat, noted: bool)

  datatype Check = Check(remaining: nat, error: Option<int>, wakeups: nat)

  // ---------- Counting ----------

  // What to count: the jobs of one block, or one job.
  datatype Which = OfBlock(b: nat) | Exactly(j: Job)
  {
    predicate Has(job: Job) {
      match this case OfBlock(b) => job.block == b case Exactly(j) => job == j
    }
  }

  function Count(jobs: seq<Job>, which: Which): nat {
    if jobs == [] then 0 else Count(jobs[..|jobs| - 1], which) + if which.Has(jobs[|jobs| - 1]) then 1 else 0
  }

  function Unreported(p: Phase): seq<Job> {
    match p
    case Waiting => []
    case Checking(jobs) => jobs
    case Reporting(jobs, next, _) => if next <= |jobs| then jobs[next..] else []
  }

  // What a worker holds: every job it has not reported; the one of them whose
  // error slot has been visited; those of a group that has been verified.
  datatype Stage = Open | Noted | Verified

  function Held(p: Phase, stage: Stage): seq<Job> {
    match stage
    case Open => Unreported(p)
    case Noted => if p.Reporting? && p.noted && p.next < |p.jobs| then [p.jobs[p.next]] else []
    case Verified => if p.Reporting? then Unreported(p) else []
  }

  function InFlight(phases: seq<Phase>, stage: Stage, which: Which): nat {
    if phases == [] then 0
    else InFlight(phases[..|phases| - 1], stage, which) + Count(Held(phases[|phases| - 1], stage), which)
  }

  function Busy(phases: seq<Phase>): nat {
    if phases == [] then 0 else Busy(phases[..|phases| - 1]) + if phases[|phases| - 1].Waiting? then 0 else 1
  }

  // The first failure noted for a block.
  function FirstError(noted: seq<Job>, b: nat): Option<int> {
    if noted == [] then None
    else
      var earlier := FirstError(noted[..|noted| - 1], b);
      var last := noted[|noted| - 1];
      if earlier.Some? then earlier
      else if last.block == b && last.verdict.Fail? then Some(last.verdict.error) else None
  }

  lemma {:induction false} CountAppend(s: seq<Job>, t: seq<Job>, which: Which)
    ensures Count(s + t, which) == Count(s, which) + Count(t, which)
  {
    if t == [] {
      assert s + t == s;
    } else {
      var k := |t| - 1;
      assert (s + t)[..|s| + k] == s + t[..k];
      CountAppend(s, t[..k], which);
    }
  }

  lemma {:induction false} CountSplit(s: seq<Job>, k: nat, which: Which)
    requires k <= |s|
    ensures Count(s, which) == Count(s[..k], which) + Count(s[k..], which)
  {
    assert s == s[..k] + s[k..];
    CountAppend(s[..k], s[k..], which);
  }

  lemma {:induction false} CountOne(job: Job, which: Which)
    ensures Count([job], which) == if which.Has(job) then 1 else 0
  {
    assert [job][..0] == [];
  }

  lemma {:induction false} CountMember(s: seq<Job>, which: Which, job: Job)
    requires job in s && which.Has(job)
    ensures Count(s, which) > 0
  {
    if job != s[|s| - 1] { CountMember(s[..|s| - 1], which, job); }
  }

  lemma {:induction false} CountWitness(s: seq<Job>, job: Job)
    requires Count(s, Exactly(job)) > 0
    ensures job in s
  {
    if job != s[|s| - 1] { CountWitness(s[..|s| - 1], job); }
  }

  lemma {:induction false} CountLess(s: seq<Job>, job: Job)
    ensures Count(s, Exactly(job)) <= Count(s, OfBlock(job.block))
  {
    if s != [] { CountLess(s[..|s| - 1], job); }
  }

  lemma {:induction false} FlightLess(phases: seq<Phase>, job: Job)
    ensures InFlight(phases, Open, Exactly(job)) <= InFlight(phases, Open, OfBlock(job.block))
  {
    if phases != [] {
      CountLess(Held(phases[|phases| - 1], Open), job);
      FlightLess(phases[..|phases| - 1], job);
    }
  }

  // Moving one worker changes each sum by exactly what it held and holds.
  lemma {:induction false} FlightMoved(phases: seq<Phase>, w: nat, p: Phase, stage: Stage, which: Which)
    requires w < |phases|
    ensures InFlight(phases[w := p], stage, which) + Count(Held(phases[w], stage), which)
         == InFlight(phases, stage, which) + Count(Held(p, stage), which)
  {
    hide Held, Count;
    var k, after := |phases| - 1, phases[w := p];
    if w == k {
      assert after[..k] == phases[..k];
    } else {
      assert after[..k] == phases[..k][w := p] && after[k] == phases[k];
      FlightMoved(phases[..k], w, p, stage, which);
    }
  }

  lemma {:induction false} BusyMoved(phases: seq<Phase>, w: nat, p: Phase)
    requires w < |phases|
    ensures Busy(phases[w := p]) + (if phases[w].Waiting? then 0 else 1) == Busy(phases) + if p.Waiting? then 0 else 1
  {
    var k, after := |phases| - 1, phases[w := p];
    if w == k {
      assert after[..k] == phases[..k];
    } else {
      assert after[..k] == phases[..k][w := p] && after[k] == phases[k];
      BusyMoved(phases[..k], w, p);
    }
  }

  /** The error slot is filled exactly when some noted job of the block failed. */
  lemma {:induction false} FirstErrorMeans(noted: seq<Job>, b: nat)
    ensures FirstError(noted, b).Some? <==> exists j :: j in noted && j.block == b && j.verdict.Fail?
  {
    if noted != [] {
      var rest := noted[..|noted| - 1];
      FirstErrorMeans(rest, b);
      assert noted == rest + [noted[|noted| - 1]];
    }
  }

  // Entry j is the first noted failure of the block.
  ghost predicate FirstFailure(noted: seq<Job>, b: nat, j: int) {
    && 0 <= j < |noted| && noted[j].block == b && noted[j].verdict.Fail?
    && forall i :: 0 <= i < j && noted[i].block == b ==> !noted[i].verdict.Fail?
  }

  /** The error slot holds the error of the first noted failure of the block. */
  lemma {:induction false} FirstErrorIsFirst(noted: seq<Job>, b: nat, j: int)
    requires FirstFailure(noted, b, j)
    ensures FirstError(noted, b) == Some(noted[j].verdict.error)
  {
    var k := |noted| - 1;
    if j < k {
      assert FirstFailure(noted[..k], b, j);
      FirstErrorIsFirst(noted[..k], b, j);
    } else {
      assert forall job :: job in noted[..k] && job.block == b ==> !job.verdict.Fail?;
      FirstErrorMeans(noted[..k], b);
    }
  }

  // ---------- How many jobs a worker takes ----------

  function Min(x: nat, y: nat): nat { if x <= y then x else y }

  function Idle(workers: nat, observed: nat): (idle: nat)
    ensures idle > 0
  {
    if workers > observed then workers - observed else 1
  }

  function GroupSize(queued: nat, workers: nat, observed: nat, capacity: nat): nat {
    var idle := Idle(workers, observed);
    Min(capacity, (queued + idle - 1) / idle)
  }

  lemma Share(queued: nat, idle: nat)
    requires 0 < queued && 0 < idle
    ensures 1 <= (queued + idle - 1) / idle <= queued
  {
    var share := (queued + idle - 1) / idle;
    DivMod(queued + idle - 1, idle);
    if share < 1 { MulLe(idle, share, 0); }
    MulNonNegative(idle - 1, queued - 1);
    assert (idle - 1) * (queued - 1) == idle * queued - idle - queued + 1;
    if share > queued { MulLe(idle, queued + 1, share); }
  }

  /** From a non-empty queue a worker takes at least one job, and no more than its share, whatever it read. */
  lemma GroupSizeBounds(queued: nat, workers: nat, observed: nat, capacity: nat)
    requires 0 < queued && 0 < capacity
    ensures 1 <= GroupSize(queued, workers, observed, capacity) <= Min(queued, capacity)
  {
    Share(queued, Idle(workers, observed));
  }

  /** The share is the queue split over the idle workers, rounded up, unless the capacity is reached first. */
  lemma GroupSizeShare(queued: nat, workers: nat, observed: nat, capacity: nat)
    requires 0 < queued && 0 < capacity
    ensures var k, idle := GroupSize(queued, workers, observed, capacity), if workers > observed then workers - observed else 1;
            k <= capacity && (k - 1) * idle < queued && (k == capacity || k * idle >= queued)
  {
    var idle := Idle(workers, observed);
    var share, k := (queued + idle - 1) / idle, GroupSize(queued, workers, observed, capacity);
    DivMod(queued + idle - 1, idle);
    assert idle * share == share * idle && idle * (k - 1) == (k - 1) * idle && idle * (share - 1) == idle * share - idle;
    MulLe(idle, k - 1, share - 1);
  }

  // ---------- The invariant of every interleaving ----------

  // The pool's shared state and, for the record, what has happened so far.
  datatype Snapshot = Snapshot(queue: seq<Job>, phases: seq<Phase>, checks: seq<Check>, active: nat,
                               submitted: seq<Job>, verified: seq<Job>, noted: seq<Job>, reported: seq<Job>)

  // Every job is in exactly one place, and passes through every stage once.
  predicate BalancedAt(s: Snapshot, which: Which) {
    && Count(s.submitted, which) == Count(s.queue, which) + InFlight(s.phases, Open, which) + Count(s.reported, which)
    && Count(s.verified, which) == Count(s.reported, which) + InFlight(s.phases, Verified, which)
    && Count(s.noted, which) == Count(s.reported, which) + InFlight(s.phases, Noted, which)
  }

  predicate CheckAt(s: Snapshot, b: nat)
    requires b < |s.checks|
  {
    && s.checks[b].remaining == Count(s.queue, OfBlock(b)) + InFlight(s.phases, Open, OfBlock(b))
    && s.checks[b].error == FirstError(s.noted, b)
    && s.checks[b].wakeups == if s.checks[b].remaining == 0 && Count(s.submitted, OfBlock(b)) > 0 then 1 else 0
  }

  predicate ShapeAt(s: Snapshot, w: nat)
    requires w < |s.phases|
  {
    s.phases[w].Reporting? ==> s.phases[w].next <= |s.phases[w].jobs| && (s.phases[w].noted ==> s.phases[w].next < |s.phases[w].jobs|)
  }

  predicate OnceAt(s: Snapshot, job: Job) {
    Count(s.submitted, Exactly(job)) <= 1
  }

  ghost predicate Known(s: Snapshot) {
    forall job :: job in s.submitted ==> job.block < |s.checks|
  }

  ghost predicate Ok(s: Snapshot) {
    && Known(s) && s.active == Busy(s.phases)
    && (forall which {:trigger BalancedAt(s, which)} :: BalancedAt(s, which))
    && (forall job {:trigger OnceAt(s, job)} :: OnceAt(s, job))
    && (forall b: nat {:trigger CheckAt(s, b)} :: b < |s.checks| ==> CheckAt(s, b))
    && (forall w: nat {:trigger ShapeAt(s, w)} :: w < |s.phases| ==> ShapeAt(s, w))
  }

  /**
   * When a block's countdown is at zero every one of its jobs has been
   * verified with its group and reported exactly once, and
   * the error slot is filled exactly when one of them failed.
   */
  lemma ZeroMeansDone(s: Snapshot, b: nat)
    requires Ok(s) && b < |s.checks| && s.checks[b].remaining == 0
    ensures forall job :: job in s.submitted && job.block == b ==>
              job in s.verified && Count(s.reported, Exactly(job)) == 1
    ensures s.checks[b].error.Some? <==> exists job :: job in s.submitted && job.block == b && job.verdict.Fail?
    ensures forall j :: FirstFailure(s.noted, b, j) ==> s.checks[b].error == Some(s.noted[j].verdict.error)
    ensures s.checks[b].wakeups == if exists job :: job in s.submitted && job.block == b then 1 else 0
  {
    assert CheckAt(s, b);
    forall job | job in s.submitted && job.block == b
      ensures job in s.verified && job in s.noted && Count(s.submitted, OfBlock(b)) > 0
      ensures Count(s.reported, Exactly(job)) == 1
    {
      OneDone(s, job);
      CountMember(s.submitted, OfBlock(b), job);
    }
    forall job | job in s.noted && job.block == b ensures job in s.submitted {
      NotedWasSubmitted(s, job);
    }
    FirstErrorMeans(s.noted, b);
    forall j | FirstFailure(s.noted, b, j) ensures s.checks[b].error == Some(s.noted[j].verdict.error) {
      FirstErrorIsFirst(s.noted, b, j);
    }
    if Count(s.submitted, OfBlock(b)) > 0 { CountSome(s.submitted, b); }
  }

  lemma {:induction false} OneDone(s: Snapshot, job: Job)
    requires Ok(s) && job in s.submitted && job.block < |s.checks| && s.checks[job.block].remaining == 0
    ensures job in s.verified && job in s.noted
    ensures Count(s.reported, Exactly(job)) == 1
  {
    assert OnceAt(s, job);
    assert CheckAt(s, job.block) && BalancedAt(s, Exactly(job));
    CountLess(s.queue, job);
    FlightLess(s.phases, job);
    CountMember(s.submitted, Exactly(job), job);
    CountWitness(s.verified, job);
    CountWitness(s.noted, job);
  }

  lemma {:induction false} HalfIsOpen(phases: seq<Phase>, job: Job)
    ensures InFlight(phases, Noted, Exactly(job)) <= InFlight(phases, Open, Exactly(job))
  {
    if phases != [] {
      HalfIsOpen(phases[..|phases| - 1], job);
      var p := phases[|phases| - 1];
      if p.Reporting? && p.noted && p.next < |p.jobs| {
        CountOne(p.jobs[p.next], Exactly(job));
        if job == p.jobs[p.next] { CountMember(Unreported(p), Exactly(job), job); }
      }
    }
  }

  lemma NotedWasSubmitted(s: Snapshot, job: Job)
    requires Ok(s) && job in s.noted
    ensures job in s.submitted
  {
    assert BalancedAt(s, Exactly(job));
    CountMember(s.noted, Exactly(job), job);
    HalfIsOpen(s.phases, job);
    CountWitness(s.submitted, job);
  }

  lemma {:induction false} CountSome(s: seq<Job>, b: nat)
    requires Count(s, OfBlock(b)) > 0
    ensures exists job :: job in s && job.block == b
  {
    var last := s[|s| - 1];
    if last.block == b {
      assert last in s;
    } else {
      CountSome(s[..|s| - 1], b);
    }
  }

  // ---------- Each step keeps it ----------

  function JobsOf(b: nat, verdicts: seq<Verdict>): (jobs: seq<Job>)
    ensures |jobs| == |verdicts| && forall i :: 0 <= i < |jobs| ==> jobs[i] == Job(b, i, verdicts[i])
  {
    seq(|verdicts|, i requires 0 <= i < |verdicts| => Job(b, i, verdicts[i]))
  }

  lemma {:induction false} CountJobsOf(b: nat, verdicts: seq<Verdict>, c: nat, job: Job)
    ensures Count(JobsOf(b, verdicts), OfBlock(c)) == if b == c then |verdicts| else 0
    ensures Count(JobsOf(b, verdicts), Exactly(job)) <= if job in JobsOf(b, verdicts) then 1 else 0
  {
    if verdicts != [] {
      var k := |verdicts| - 1;
      var jobs := JobsOf(b, verdicts);
      assert jobs[..k] == JobsOf(b, verdicts[..k]);
      CountJobsOf(b, verdicts[..k], c, job);
      assert jobs[k] !in jobs[..k];
      if job in jobs[..k] { assert job in jobs; }
    }
  }

  function Submitted(s: Snapshot, verdicts: seq<Verdict>): Snapshot {
    var jobs := JobsOf(|s.checks|, verdicts);
    s.(queue := s.queue + jobs, submitted := s.submitted + jobs, checks := s.checks + [Check(|verdicts|, None, 0)])
  }

  // A block number not used yet has left no trace.
  lemma {:induction false} NewBlock(s: Snapshot, b: nat)
    requires Ok(s) && b >= |s.checks|
    ensures Count(s.submitted, OfBlock(b)) == Count(s.queue, OfBlock(b)) == InFlight(s.phases, Open, OfBlock(b)) == 0
    ensures FirstError(s.noted, b) == None
  {
    if Count(s.submitted, OfBlock(b)) > 0 { CountSome(s.submitted, b); }
    assert BalancedAt(s, OfBlock(b));
    forall job | job in s.noted ensures job.block != b { NotedWasSubmitted(s, job); }
    FirstErrorMeans(s.noted, b);
  }

  lemma SubmitKeeps(s: Snapshot, verdicts: seq<Verdict>)
    requires Ok(s)
    ensures Ok(Submitted(s, verdicts))
  {
    var t, jobs, block := Submitted(s, verdicts), JobsOf(|s.checks|, verdicts), |s.checks|;
    forall which ensures BalancedAt(t, which) {
      assert BalancedAt(s, which);
      CountAppend(s.submitted, jobs, which);
      CountAppend(s.queue, jobs, which);
    }
    forall b: nat | b < |t.checks| ensures CheckAt(t, b) {
      if b < block { assert CheckAt(s, b); } else { NewBlock(s, b); }
      CountAppend(s.submitted, jobs, OfBlock(b));
      CountAppend(s.queue, jobs, OfBlock(b));
      CountJobsOf(block, verdicts, b, Job(0, 0, Pass));
    }
    forall job ensures OnceAt(t, job) {
      assert OnceAt(s, job);
      CountAppend(s.submitted, jobs, Exactly(job));
      CountJobsOf(block, verdicts, 0, job);
      if job.block == block { NewBlock(s, block); CountLess(s.submitted, job); }
    }
    forall w: nat | w < |t.phases| ensures ShapeAt(t, w) { assert ShapeAt(s, w); }
  }

  function Taken(s: Snapshot, w: nat, count: nat): Snapshot
    requires w < |s.phases| && count <= |s.queue|
  {
    s.(queue := s.queue[count..], phases := s.phases[w := Checking(s.queue[..count])], active := s.active + 1)
  }

  // The three sums after one worker moves, given what it held and holds.
  lemma Moved(phases: seq<Phase>, w: nat, p: Phase, which: Which)
    requires w < |phases|
    ensures InFlight(phases[w := p], Open, which)
         == InFlight(phases, Open, which) - Count(Held(phases[w], Open), which) + Count(Held(p, Open), which)
    ensures InFlight(phases[w := p], Verified, which)
         == InFlight(phases, Verified, which) - Count(Held(phases[w], Verified), which) + Count(Held(p, Verified), which)
    ensures InFlight(phases[w := p], Noted, which)
         == InFlight(phases, Noted, which) - Count(Held(phases[w], Noted), which) + Count(Held(p, Noted), which)
  {
    FlightMoved(phases, w, p, Open, which);
    FlightMoved(phases, w, p, Verified, which);
    FlightMoved(phases, w, p, Noted, which);
  }

  lemma {:induction false} TakeBalance(s: Snapshot, w: nat, count: nat, which: Which)
    requires BalancedAt(s, which) && w < |s.phases| && s.phases[w].Waiting? && count <= |s.queue|
    ensures var t := Taken(s, w, count);
            BalancedAt(t, which) &&
            Count(t.queue, which) + InFlight(t.phases, Open, which) == Count(s.queue, which) + InFlight(s.phases, Open, which)
  {
    var p := Checking(s.queue[..count]);
    CountSplit(s.queue, count, which);
    Moved(s.phases, w, p, which);
    assert Held(p, Open) == s.queue[..count] && Held(p, Verified) == Held(p, Noted) == [];
  }

  lemma TakeKeeps(s: Snapshot, w: nat, count: nat)
    requires Ok(s) && w < |s.phases| && s.phases[w].Waiting? && count <= |s.queue|
    ensures Ok(Taken(s, w, count))
  {
    var t, p := Taken(s, w, count), Checking(s.queue[..count]);
    BusyMoved(s.phases, w, p);
    forall which ensures BalancedAt(t, which) {
      assert BalancedAt(s, which);
      TakeBalance(s, w, count, which);
    }
    forall b: nat | b < |t.checks| ensures CheckAt(t, b) {
      assert CheckAt(s, b) && BalancedAt(s, OfBlock(b));
      TakeBalance(s, w, count, OfBlock(b));
    }
    forall job ensures OnceAt(t, job) { assert OnceAt(s, job); }
    forall v: nat | v < |t.phases| ensures ShapeAt(t, v) { assert ShapeAt(s, v); }
  }

  function Checked(s: Snapshot, w: nat): Snapshot
    requires w < |s.phases| && s.phases[w].Checking?
  {
    s.(phases := s.phases[w := Reporting(s.phases[w].jobs, 0, false)], verified := s.verified + s.phases[w].jobs)
  }

  lemma {:induction false} CheckBalance(s: Snapshot, w: nat, which: Which)
    requires BalancedAt(s, which) && w < |s.phases| && s.phases[w].Checking?
    ensures var t := Checked(s, w); BalancedAt(t, which) && InFlight(t.phases, Open, which) == InFlight(s.phases, Open, which)
  {
    var jobs := s.phases[w].jobs;
    var p := Reporting(jobs, 0, false);
    CountAppend(s.verified, jobs, which);
    Moved(s.phases, w, p, which);
    assert Held(p, Open) == jobs[0..] == jobs == Held(s.phases[w], Open);
    assert Held(p, Verified) == jobs && Held(s.phases[w], Verified) == [];
    assert Held(p, Noted) == Held(s.phases[w], Noted) == [];
  }

  lemma CheckKeeps(s: Snapshot, w: nat)
    requires Ok(s) && w < |s.phases| && s.phases[w].Checking?
    ensures Ok(Checked(s, w))
  {
    var t, jobs := Checked(s, w), s.phases[w].jobs;
    var p := Reporting(jobs, 0, false);
    assert jobs[0..] == jobs;
    BusyMoved(s.phases, w, p);
    forall which ensures BalancedAt(t, which) {
      assert BalancedAt(s, which);
      CheckBalance(s, w, which);
    }
    forall b: nat | b < |t.checks| ensures CheckAt(t, b) {
      assert CheckAt(s, b) && BalancedAt(s, OfBlock(b));
      CheckBalance(s, w, OfBlock(b));
    }
    forall job ensures OnceAt(t, job) { assert OnceAt(s, job); }
    forall v: nat | v < |t.phases| ensures ShapeAt(t, v) { assert ShapeAt(s, v); }
  }

  predicate CanNote(s: Snapshot, w: nat) {
    w < |s.phases| && s.phases[w].Reporting? && !s.phases[w].noted && s.phases[w].next < |s.phases[w].jobs|
  }

  function NotedError(c: Check, verdict: Verdict): Check {
    if verdict.Fail? && c.error.None? then c.(error := Some(verdict.error)) else c
  }

  function Noting(s: Snapshot, w: nat): Snapshot
    requires CanNote(s, w) && s.phases[w].jobs[s.phases[w].next].block < |s.checks|
  {
    var p := s.phases[w];
    var job := p.jobs[p.next];
    s.(phases := s.phases[w := p.(noted := true)], noted := s.noted + [job],
       checks := s.checks[job.block := NotedError(s.checks[job.block], job.verdict)])
  }

  // A job in a worker's hands belongs to a block of the pool.
  lemma {:induction false} HeldIsOpen(phases: seq<Phase>, w: nat, job: Job)
    requires w < |phases| && job in Unreported(phases[w])
    ensures InFlight(phases, Open, Exactly(job)) > 0
  {
    var k := |phases| - 1;
    if w == k { CountMember(Unreported(phases[k]), Exactly(job), job); } else { HeldIsOpen(phases[..k], w, job); }
  }

  lemma HeldIsKnown(s: Snapshot, w: nat)
    requires Ok(s) && w < |s.phases| && s.phases[w].Reporting? && s.phases[w].next < |s.phases[w].jobs|
    ensures var job := s.phases[w].jobs[s.phases[w].next];
            job.block < |s.checks| && s.checks[job.block].remaining > 0
  {
    var job := s.phases[w].jobs[s.phases[w].next];
    assert job == Unreported(s.phases[w])[0];
    HeldIsOpen(s.phases, w, job);
    assert BalancedAt(s, Exactly(job));
    CountWitness(s.submitted, job);
    assert CheckAt(s, job.block);
    FlightLess(s.phases, job);
  }

  lemma {:induction false} NoteBalance(s: Snapshot, w: nat, which: Which)
    requires BalancedAt(s, which) && CanNote(s, w) && s.phases[w].jobs[s.phases[w].next].block < |s.checks|
    ensures var t := Noting(s, w); BalancedAt(t, which) && InFlight(t.phases, Open, which) == InFlight(s.phases, Open, which)
  {
    var p := s.phases[w];
    var job, p' := p.jobs[p.next], p.(noted := true);
    CountAppend(s.noted, [job], which);
    Moved(s.phases, w, p', which);
    assert Held(p', Open) == Held(p, Open) && Held(p', Verified) == Held(p, Verified);
    assert Held(p', Noted) == [job] && Held(p, Noted) == [];
  }

  lemma {:induction false} NoteCheck(s: Snapshot, w: nat, b: nat)
    requires Ok(s) && CanNote(s, w) && s.phases[w].jobs[s.phases[w].next].block < |s.checks| && b < |s.checks|
    ensures CheckAt(Noting(s, w), b)
  {
    hide InFlight, Count, Unreported;
    assert CheckAt(s, b) && BalancedAt(s, OfBlock(b));
    NoteBalance(s, w, OfBlock(b));
    assert Noting(s, w).noted[..|s.noted|] == s.noted;
  }

  lemma {:induction false} NoteKeeps(s: Snapshot, w: nat)
    requires Ok(s) && CanNote(s, w)
    ensures s.phases[w].jobs[s.phases[w].next].block < |s.checks| && Ok(Noting(s, w))
  {
    hide InFlight, Count, FirstError;
    HeldIsKnown(s, w);
    var t, p := Noting(s, w), s.phases[w];
    var job, p' := p.jobs[p.next], p.(noted := true);
    BusyMoved(s.phases, w, p');
    forall which ensures BalancedAt(t, which) {
      assert BalancedAt(s, which);
      NoteBalance(s, w, which);
    }
    forall b: nat | b < |t.checks| ensures CheckAt(t, b) { NoteCheck(s, w, b); }
    forall j ensures OnceAt(t, j) { assert OnceAt(s, j); }
    forall v: nat | v < |t.phases| ensures ShapeAt(t, v) { assert ShapeAt(s, v); }
  }

  predicate CanReport(s: Snapshot, w: nat) {
    w < |s.phases| && s.phases[w].Reporting? && s.phases[w].noted && s.phases[w].next < |s.phases[w].jobs|
  }

  function CountedDown(c: Check): Check
    requires c.remaining > 0
  {
    Check(c.remaining - 1, c.error, if c.remaining == 1 then c.wakeups + 1 else c.wakeups)
  }

  function Reported(s: Snapshot, w: nat): Snapshot
    requires CanReport(s, w) && s.phases[w].jobs[s.phases[w].next].block < |s.checks|
    requires s.checks[s.phases[w].jobs[s.phases[w].next].block].remaining > 0
  {
    var p := s.phases[w];
    var job := p.jobs[p.next];
    s.(phases := s.phases[w := Reporting(p.jobs, p.next + 1, false)], reported := s.reported + [job],
       checks := s.checks[job.block := CountedDown(s.checks[job.block])])
  }

  lemma {:induction false} ReportBalance(s: Snapshot, w: nat, which: Which)
    requires BalancedAt(s, which) && CanReport(s, w) && s.phases[w].jobs[s.phases[w].next].block < |s.checks|
    requires s.checks[s.phases[w].jobs[s.phases[w].next].block].remaining > 0
    ensures var t := Reported(s, w);
            BalancedAt(t, which) &&
            InFlight(t.phases, Open, which) + (if which.Has(s.phases[w].jobs[s.phases[w].next]) then 1 else 0) ==
            InFlight(s.phases, Open, which)
  {
    var p := s.phases[w];
    var job, p' := p.jobs[p.next], Reporting(p.jobs, p.next + 1, false);
    assert Held(p, Open) == [job] + Held(p', Open);
    assert Held(p, Verified) == Held(p, Open) && Held(p', Verified) == Held(p', Open);
    assert Held(p', Noted) == [] && Held(p, Noted) == [job];
    CountAppend([job], Held(p', Open), which);
    CountAppend(s.reported, [job], which);
    CountOne(job, which);
    Moved(s.phases, w, p', which);
  }

  lemma {:induction false} ReportCheck(s: Snapshot, w: nat, b: nat)
    requires Ok(s) && CanReport(s, w) && s.phases[w].jobs[s.phases[w].next].block < |s.checks| && b < |s.checks|
    requires s.checks[s.phases[w].jobs[s.phases[w].next].block].remaining > 0
    ensures CheckAt(Reported(s, w), b)
  {
    hide InFlight, Count, Unreported, FirstError;
    assert CheckAt(s, b) && BalancedAt(s, OfBlock(b));
    ReportBalance(s, w, OfBlock(b));
  }

  lemma {:induction false} ReportKeeps(s: Snapshot, w: nat)
    requires Ok(s) && CanReport(s, w)
    ensures var job := s.phases[w].jobs[s.phases[w].next];
            job.block < |s.checks| && s.checks[job.block].remaining > 0 && Ok(Reported(s, w))
  {
    hide InFlight, Count, FirstError;
    HeldIsKnown(s, w);
    var t, p := Reported(s, w), s.phases[w];
    var job, p' := p.jobs[p.next], Reporting(p.jobs, p.next + 1, false);
    BusyMoved(s.phases, w, p');
    assert p.jobs[p.next..] == [job] + p.jobs[p.next + 1..];
    forall which ensures BalancedAt(t, which) {
      assert BalancedAt(s, which);
      ReportBalance(s, w, which);
    }
    forall b: nat | b < |t.checks| ensures CheckAt(t, b) { ReportCheck(s, w, b); }
    forall j ensures OnceAt(t, j) { assert OnceAt(s, j); }
    forall v: nat | v < |t.phases| ensures ShapeAt(t, v) { assert ShapeAt(s, v); }
  }

  predicate CanLeave(s: Snapshot, w: nat) {
    w < |s.phases| && s.phases[w].Reporting? && s.phases[w].next == |s.phases[w].jobs| && s.active > 0
  }

  function Gone(s: Snapshot, w: nat): Snapshot
    requires CanLeave(s, w)
  {
    s.(phases := s.phases[w := Waiting], active := s.active - 1)
  }

  lemma {:induction false} LeaveBalance(s: Snapshot, w: nat, which: Which)
    requires BalancedAt(s, which) && CanLeave(s, w)
    ensures var t := Gone(s, w); BalancedAt(t, which) && InFlight(t.phases, Open, which) == InFlight(s.phases, Open, which)
  {
    var p := s.phases[w];
    Moved(s.phases, w, Waiting, which);
    assert Held(p, Open) == Held(p, Verified) == Held(p, Noted) == [];
  }

  lemma LeaveKeeps(s: Snapshot, w: nat)
    requires Ok(s) && CanLeave(s, w)
    ensures Ok(Gone(s, w))
  {
    var t := Gone(s, w);
    BusyMoved(s.phases, w, Waiting);
    forall which ensures BalancedAt(t, which) {
      assert BalancedAt(s, which);
      LeaveBalance(s, w, which);
    }
    forall b: nat | b < |t.checks| ensures CheckAt(t, b) {
      assert CheckAt(s, b) && BalancedAt(s, OfBlock(b));
      LeaveBalance(s, w, OfBlock(b));
    }
    forall j ensures OnceAt(t, j) { assert OnceAt(s, j); }
    forall v: nat | v < |t.phases| ensures ShapeAt(t, v) { assert ShapeAt(s, v); }
  }

  // ---------- Schedules ----------

  // One atomic step of some thread. A take reads a capacity and the number of
  // active workers, which other threads may be changing.
  datatype Step =
    | SubmitStep(verdicts: seq<Verdict>)
    | TakeStep(w: nat, capacity: nat, observed: nat)
    | CheckStep(w: nat)
    | NoteStep(w: nat)
    | ReportStep(w: nat)
    | LeaveStep(w: nat)

  ghost predicate Enabled(s: Snapshot, step: Step) {
    match step
    case SubmitStep(_) => true
    case TakeStep(w, capacity, _) => w < |s.phases| && s.phases[w].Waiting? && s.queue != [] && capacity > 0
    case CheckStep(w) => w < |s.phases| && s.phases[w].Checking?
    case NoteStep(w) => CanNote(s, w)
    case ReportStep(w) => CanReport(s, w)
    case LeaveStep(w) => CanLeave(s, w)
  }

  // The state after an enabled step.
  ghost predicate Follows(s: Snapshot, step: Step, t: Snapshot)
    requires Ok(s) && Enabled(s, step)
  {
    match step
    case SubmitStep(verdicts) => t == Submitted(s, verdicts)
    case TakeStep(w, capacity, observed) =>
      GroupSizeBounds(|s.queue|, |s.phases|, observed, capacity);
      t == Taken(s, w, GroupSize(|s.queue|, |s.phases|, observed, capacity))
    case CheckStep(w) => t == Checked(s, w)
    case NoteStep(w) => HeldIsKnown(s, w); t == Noting(s, w)
    case ReportStep(w) => HeldIsKnown(s, w); t == Reported(s, w)
    case LeaveStep(w) => t == Gone(s, w)
  }

  /** Every step keeps the invariant. */
  lemma StepKeeps(s: Snapshot, step: Step, t: Snapshot)
    requires Ok(s) && Enabled(s, step) && Follows(s, step, t)
    ensures Ok(t)
  {
    match step {
      case SubmitStep(verdicts) => SubmitKeeps(s, verdicts);
      case TakeStep(w, capacity, observed) =>
        GroupSizeBounds(|s.queue|, |s.phases|, observed, capacity);
        TakeKeeps(s, w, GroupSize(|s.queue|, |s.phases|, observed, capacity));
      case CheckStep(w) => CheckKeeps(s, w);
      case NoteStep(w) => NoteKeeps(s, w);
      case ReportStep(w) => ReportKeeps(s, w);
      case LeaveStep(w) => LeaveKeeps(s, w);
    }
  }

  class Pool {
    var queue: seq<Job>
    var phases: seq<Phase>
    var checks: seq<Check>
    var active: nat
    ghost var submitted: seq<Job>
    ghost var verified: seq<Job>
    ghost var noted: seq<Job>
    ghost var reported: seq<Job>

    ghost function Now(): Snapshot
      reads this
    {
      Snapshot(queue, phases, checks, active, submitted, verified, noted, reported)
    }

    ghost predicate Valid()
      reads this
    {
      Ok(Now())
    }

    constructor (workers: nat)
      ensures Valid() && |phases| == workers && queue == [] && checks == []
    {
      queue, checks, active := [], [], 0;
      phases := seq(workers, _ => Waiting);
      submitted, verified, noted, reported := [], [], [], [];
      new;
      IdleIsEmpty(phases);
      forall which ensures BalancedAt(Now(), which) { IdleHoldsNothing(phases, which); }
      forall job ensures OnceAt(Now(), job) {}
      forall w: nat | w < |phases| ensures ShapeAt(Now(), w) {}
    }

    /** A block's jobs join the queue together, its countdown at their number. */
    method Submit(verdicts: seq<Verdict>)
      requires Valid()
      modifies this
      ensures Valid() && Follows(old(Now()), SubmitStep(verdicts), Now())
      ensures |queue| == |old(queue)| + |verdicts| && queue[..|old(queue)|] == old(queue)
      ensures forall i :: 0 <= i < |verdicts| ==> queue[|old(queue)| + i] == Job(|old(checks)|, i, verdicts[i])
      ensures checks == old(checks) + [Check(|verdicts|, None, 0)] && phases == old(phases) && active == old(active)
    {
      SubmitKeeps(Now(), verdicts);
      var block := |checks|;
      checks := checks + [Check(|verdicts|, None, 0)];
      ghost var before := queue;
      var i := 0;
      while i < |verdicts|
        invariant 0 <= i <= |verdicts| && queue == before + JobsOf(block, verdicts)[..i]
        invariant phases == old(phases) && active == old(active) && checks == old(checks) + [Check(|verdicts|, None, 0)]
        invariant submitted == old(submitted) && verified == old(verified) && noted == old(noted) && reported == old(reported)
      {
        assert JobsOf(block, verdicts)[..i + 1] == JobsOf(block, verdicts)[..i] + [Job(block, i, verdicts[i])];
        queue := queue + [Job(block, i, verdicts[i])];
        i := i + 1;
      }
      assert JobsOf(block, verdicts)[..|verdicts|] == JobsOf(block, verdicts);
      submitted := submitted + JobsOf(block, verdicts);
      assert Now() == Submitted(old(Now()), verdicts);
    }

    /** A waiting worker drains its share from the front of the queue, at least one job. */
    method Take(w: nat, capacity: nat, observed: nat)
      requires Valid() && w < |phases| && phases[w].Waiting? && queue != [] && capacity > 0
      modifies this
      ensures Valid() && Follows(old(Now()), TakeStep(w, capacity, observed), Now())
      ensures phases[w].Checking? && 1 <= |phases[w].jobs| <= capacity && old(queue) == phases[w].jobs + queue
      ensures var k, idle := |phases[w].jobs|, if |phases| > observed then |phases| - observed else 1;
              (k - 1) * idle < |old(queue)| && (k == capacity || k * idle >= |old(queue)|)
    {
      GroupSizeShare(|queue|, |phases|, observed, capacity);
      GroupSizeBounds(|queue|, |phases|, observed, capacity);
      var count := GroupSize(|queue|, |phases|, observed, capacity);
      TakeKeeps(Now(), w, count);
      active := active + 1;
      phases := phases[w := Checking(queue[..count])];
      queue := queue[count..];
    }

    /** The group is verified, or replayed, as a whole. */
    method CheckGroup(w: nat)
      requires Valid() && w < |phases| && phases[w].Checking?
      modifies this
      ensures Valid() && Follows(old(Now()), CheckStep(w), Now())
      ensures phases == old(phases)[w := Reporting(old(phases[w].jobs), 0, false)] && verified == old(verified) + old(phases[w].jobs)
      ensures queue == old(queue) && checks == old(checks) && active == old(active)
    {
      CheckKeeps(Now(), w);
      verified := verified + phases[w].jobs;
      phases := phases[w := Reporting(phases[w].jobs, 0, false)];
    }

    /** Under the block's lock a failure takes the error slot, unless one is there already. */
    method Note(w: nat)
      requires Valid() && CanNote(Now(), w)
      modifies this
      ensures Valid() && Follows(old(Now()), NoteStep(w), Now())
      ensures var job := old(phases[w].jobs[phases[w].next]);
              && job.block < |old(checks)| == |checks|
              && checks[job.block].remaining == old(checks)[job.block].remaining
              && checks[job.block].error == (if old(checks)[job.block].error == None && job.verdict.Fail? then Some(job.verdict.error)
                                             else old(checks)[job.block].error)
              && (forall b :: 0 <= b < |checks| && b != job.block ==> checks[b] == old(checks)[b])
    {
      hide Ok;
      NoteKeeps(Now(), w);
      var job := phases[w].jobs[phases[w].next];
      noted := noted + [job];
      if job.verdict.Fail? {
        if checks[job.block].error.None? {
          checks := checks[job.block := checks[job.block].(error := Some(job.verdict.error))];
        }
      }
      phases := phases[w := phases[w].(noted := true)];
      assert checks == Noting(old(Now()), w).checks;
    }

    /** The countdown goes down by one; at zero the waiting thread is woken. */
    method Report(w: nat)
      requires Valid() && CanReport(Now(), w)
      modifies this
      ensures Valid() && Follows(old(Now()), ReportStep(w), Now())
      ensures var job := old(phases[w].jobs[phases[w].next]);
              && job.block < |old(checks)| == |checks|
              && checks[job.block].remaining == old(checks)[job.block].remaining - 1
              && checks[job.block].wakeups == old(checks)[job.block].wakeups + (if checks[job.block].remaining == 0 then 1 else 0)
              && reported == old(reported) + [job]
              && (forall b :: 0 <= b < |checks| && b != job.block ==> checks[b] == old(checks)[b])
    {
      hide Ok;
      ReportKeeps(Now(), w);
      var job := phases[w].jobs[phases[w].next];
      var check := checks[job.block];
      var wakeups := if check.remaining == 1 then check.wakeups + 1 else check.wakeups;
      checks := checks[job.block := Check(check.remaining - 1, check.error, wakeups)];
      reported := reported + [job];
      phases := phases[w := Reporting(phases[w].jobs, phases[w].next + 1, false)];
    }

    /** With every job reported the worker is idle again. */
    method Leave(w: nat)
      requires Valid() && CanLeave(Now(), w)
      modifies this
      ensures Valid() && Follows(old(Now()), LeaveStep(w), Now())
      ensures phases == old(phases)[w := Waiting] && active == old(active) - 1 && queue == old(queue) && checks == old(checks)
    {
      LeaveKeeps(Now(), w);
      active := active - 1;
      phases := phases[w := Waiting];
    }
  }

  lemma {:induction false} IdleIsEmpty(phases: seq<Phase>)
    requires forall w :: 0 <= w < |phases| ==> phases[w] == Waiting
    ensures Busy(phases) == 0
  {
    if phases != [] { IdleIsEmpty(phases[..|phases| - 1]); }
  }

  lemma {:induction false} IdleHoldsNothing(phases: seq<Phase>, which: Which)
    requires forall w :: 0 <= w < |phases| ==> phases[w] == Waiting
    ensures InFlight(phases, Open, which) == InFlight(phases, Noted, which) == InFlight(phases, Verified, which) == 0
  {
    if phases != [] { IdleHoldsNothing(phases[..|phases| - 1], which); }
  }

  /** A run: each state follows from the one before by some enabled step. */
  ghost predicate IsRun(states: seq<Snapshot>, steps: seq<Step>) {
    && |states| == |steps| + 1
    && forall i {:trigger StepAt(states, steps, i)} :: 0 <= i < |steps| ==> StepAt(states, steps, i)
  }

  ghost predicate StepAt(states: seq<Snapshot>, steps: seq<Step>, i: nat)
    requires i < |steps| && i + 1 < |states|
  {
    Ok(states[i]) ==> Enabled(states[i], steps[i]) && Follows(states[i], steps[i], states[i + 1])
  }

  /** Every state of every run keeps the invariant. */
  lemma {:induction false} EveryRun(states: seq<Snapshot>, steps: seq<Step>, i: nat)
    requires IsRun(states, steps) && Ok(states[0]) && i <= |steps|
    ensures Ok(states[i])
  {
    if i > 0 {
      EveryRun(states, steps, i - 1);
      assert StepAt(states, steps, i - 1);
      StepKeeps(states[i - 1], steps[i - 1], states[i]);
    }
  }

  /** Whatever remains can be finished: unless nothing is queued or in hand, some worker has a step to take. */
  lemma NeverStuck(s: Snapshot, w: nat)
    requires Ok(s) && w < |s.phases| && (s.queue != [] || !s.phases[w].Waiting?)
    ensures exists step: Step :: (step.TakeStep? || step.CheckStep? || step.NoteStep? || step.ReportStep? || step.LeaveStep?)
              && step.w == w && Enabled(s, step)
  {
    assert ShapeAt(s, w);
    match s.phases[w] {
      case Waiting => assert Enabled(s, TakeStep(w, 1, 0));
      case Checking(_) => assert Enabled(s, CheckStep(w));
      case Reporting(jobs, next, noted) =>
        if next == |jobs| {
          BusyMoved(s.phases, w, Waiting);
          assert Enabled(s, LeaveStep(w));
        } else if noted {
          assert Enabled(s, ReportStep(w));
        } else {
          assert Enabled(s, NoteStep(w));
        }
    }
  }

  // ---------- Completion ----------

  // The steps a worker still has to take before it waits again.
  function StepsLeft(p: Phase): nat {
    match p
    case Waiting => 0
    case Checking(jobs) => 2 + 2 * |jobs|
    case Reporting(jobs, next, noted) =>
      if next < |jobs| then 2 * (|jobs| - next) + if noted then 0 else 1 else 1
  }

  function InHand(phases: seq<Phase>): nat {
    if phases == [] then 0 else InHand(phases[..|phases| - 1]) + StepsLeft(phases[|phases| - 1])
  }

  /** An upper bound on the steps that remain when nothing more is submitted. */
  function Work(s: Snapshot): nat { 5 * |s.queue| + InHand(s.phases) }

  lemma {:induction false} InHandMoved(phases: seq<Phase>, w: nat, p: Phase)
    requires w < |phases|
    ensures InHand(phases[w := p]) + StepsLeft(phases[w]) == InHand(phases) + StepsLeft(p)
  {
    var k := |phases| - 1;
    if w < k {
      InHandMoved(phases[..k], w, p);
      assert phases[w := p][..k] == phases[..k][w := p];
    } else {
      assert phases[w := p][..k] == phases[..k];
    }
  }

  /** Every step but a submission lowers the work that remains. */
  lemma StepLowers(s: Snapshot, step: Step, t: Snapshot)
    requires Ok(s) && Enabled(s, step) && Follows(s, step, t) && !step.SubmitStep?
    ensures Work(t) < Work(s) && |t.phases| == |s.phases|
  {
    var w := step.w;
    assert ShapeAt(s, w);
    InHandMoved(s.phases, w, t.phases[w]);
    match step {
      case TakeStep(_, capacity, observed) => GroupSizeBounds(|s.queue|, |s.phases|, observed, capacity);
      case NoteStep(_) => HeldIsKnown(s, w);
      case ReportStep(_) => HeldIsKnown(s, w);
      case _ =>
    }
    assert t.phases == s.phases[w := t.phases[w]];
  }

  ghost predicate NoSubmissions(steps: seq<Step>) {
    forall i :: 0 <= i < |steps| ==> !steps[i].SubmitStep?
  }

  /** Without submissions no schedule is longer than the work it starts with. */
  lemma {:induction false} RunsAreBounded(states: seq<Snapshot>, steps: seq<Step>, i: nat)
    requires IsRun(states, steps) && Ok(states[0]) && NoSubmissions(steps) && i <= |steps|
    ensures i + Work(states[i]) <= Work(states[0]) && |states[i].phases| == |states[0].phases|
  {
    if i > 0 {
      RunsAreBounded(states, steps, i - 1);
      EveryRun(states, steps, i - 1);
      assert StepAt(states, steps, i - 1);
      StepLowers(states[i - 1], steps[i - 1], states[i]);
    }
  }

  // Only a submission can follow.
  ghost predicate Resting(s: Snapshot) {
    forall step {:trigger Enabled(s, step)} :: Enabled(s, step) ==> step.SubmitStep?
  }

  ghost predicate Finished(s: Snapshot) {
    && s.queue == [] && (forall w :: 0 <= w < |s.phases| ==> s.phases[w] == Waiting)
    && (forall b :: 0 <= b < |s.checks| ==> s.checks[b].remaining == 0)
    && (forall job :: job in s.submitted ==> Count(s.reported, Exactly(job)) == 1)
  }

  lemma {:induction false} RestingIsFinished(s: Snapshot)
    requires Ok(s) && |s.phases| > 0 && Resting(s)
    ensures Finished(s)
  {
    forall w | 0 <= w < |s.phases| ensures s.phases[w] == Waiting && s.queue == [] {
      if s.queue != [] || !s.phases[w].Waiting? { NeverStuck(s, w); }
    }
    assert s.phases[0] == Waiting;
    forall b: nat | b < |s.checks| ensures s.checks[b].remaining == 0 {
      assert CheckAt(s, b);
      IdleHoldsNothing(s.phases, OfBlock(b));
    }
    forall job | job in s.submitted ensures Count(s.reported, Exactly(job)) == 1 { OneDone(s, job); }
  }

  /**
   Whatever the schedule, when no more blocks are submitted the pool finishes:
   after boundedly many steps nothing is queued, every worker waits, every
   countdown is at zero, and every job has been reported once.
   */
  lemma RunsComplete(states: seq<Snapshot>, steps: seq<Step>)
    requires IsRun(states, steps) && Ok(states[0]) && |states[0].phases| > 0 && NoSubmissions(steps)
    ensures |steps| <= Work(states[0])
    ensures Resting(states[|steps|]) <==> Finished(states[|steps|])
  {
    var last := states[|steps|];
    RunsAreBounded(states, steps, |steps|);
    EveryRun(states, steps, |steps|);
    if Resting(last) { RestingIsFinished(last); }
  }
}
