/** The forward-only reader: one frame of lookahead over a file of frames. */
module Readers {
  import opened Wrappers
  import opened Codec
  import opened Counts
  import opened Frames

  const MAGIC: seq<Octet> := [0x41, 0x56, 0x48, 0x49, 0x4E, 0x54, 0x30, 0x34] // "AVHINT04"

  // A hash with a body not yet decoded.
  datatype Packet = Packet(hash: Hash, body: seq<Octet>)

  // One question put to the reader: a block and its number of transactions.
  datatype Query = Query(hash: Hash, transactions: nat)

  datatype Stats = Stats(bytes: nat, frames: nat, missed: nat, rejected: nat)

  // ---------- What the bytes of a file hold ----------

  datatype ReadResult = End | Broken | Got(packet: Packet, rest: seq<Octet>)

  function ReadPacket(input: seq<Octet>): ReadResult {
    if input == [] then End
    else if |input| < 36 then Broken
    else
      var size := FromLe(input[32..36]);
      if size > MAX_FRAME || |input| < 36 + size then Broken
      else Got(Packet(input[..32], input[36..36 + size]), input[36 + size..])
  }

  // The frames up to the end of the file or the first that is broken.
  function PacketsOf(input: seq<Octet>): seq<Packet>
    decreases |input|
  {
    match ReadPacket(input)
    case Got(packet, rest) => [packet] + PacketsOf(rest)
    case _ => []
  }

  function FileOf(packets: seq<Packet>): seq<Octet>
    requires forall i :: 0 <= i < |packets| ==> |packets[i].body| <= MAX_FRAME
  {
    if packets == [] then [] else Frame(packets[0].hash, packets[0].body) + FileOf(packets[1..])
  }

  lemma FrameReads(p: Packet, rest: seq<Octet>)
    requires |p.body| <= MAX_FRAME
    ensures ReadPacket(Frame(p.hash, p.body) + rest) == Got(p, rest)
  {
    var input := Frame(p.hash, p.body) + rest;
    assert input[..32] == p.hash && input[32..36] == Le(|p.body|, 4);
    Powers();
    LeRoundTrip(|p.body|, 4);
    assert input[36..36 + |p.body|] == p.body && input[36 + |p.body|..] == rest;
  }

  /** A file of written frames holds those frames. */
  lemma {:induction false} FileHolds(packets: seq<Packet>)
    requires forall i :: 0 <= i < |packets| ==> |packets[i].body| <= MAX_FRAME
    ensures PacketsOf(FileOf(packets)) == packets
  {
    if packets != [] {
      FrameReads(packets[0], FileOf(packets[1..]));
      FileHolds(packets[1..]);
    }
  }

  // ---------- What a run of questions is answered ----------

  function Answer(packets: seq<Packet>, q: Query): Option<Hints> {
    if packets == [] || packets[0].hash != q.hash then None else Parse(packets[0].body, q.transactions)
  }

  function Left(packets: seq<Packet>, q: Query): seq<Packet> {
    if packets == [] || packets[0].hash != q.hash then packets else packets[1..]
  }

  function Serve(packets: seq<Packet>, queries: seq<Query>): (r: seq<Option<Hints>>)
    ensures |r| == |queries|
    decreases |queries|
  {
    if queries == [] then [] else [Answer(packets, queries[0])] + Serve(Left(packets, queries[0]), queries[1..])
  }

  // Which frame each question consumes, decodable or not, counting from `from`.
  function Uses(packets: seq<Packet>, queries: seq<Query>, from: nat): (r: seq<Option<nat>>)
    ensures |r| == |queries|
    decreases |queries|
  {
    if queries == [] then []
    else
      var taken := packets != [] && packets[0].hash == queries[0].hash;
      [if taken then Some(from) else None]
      + Uses(Left(packets, queries[0]), queries[1..], if taken then from + 1 else from)
  }

  /** An answer comes from the frame its question consumes, and that frame carries the asked hash. */
  lemma {:induction false} AnswersAreOwn(packets: seq<Packet>, queries: seq<Query>, from: nat, i: nat)
    requires i < |queries|
    ensures var u := Uses(packets, queries, from)[i];
            match u
            case None => Serve(packets, queries)[i] == None
            case Some(k) =>
              && from <= k < from + |packets| && packets[k - from].hash == queries[i].hash
              && Serve(packets, queries)[i] == Parse(packets[k - from].body, queries[i].transactions)
    decreases |queries|
  {
    hide Parse;
    if i > 0 {
      var taken := packets != [] && packets[0].hash == queries[0].hash;
      AnswersAreOwn(Left(packets, queries[0]), queries[1..], if taken then from + 1 else from, i - 1);
    }
  }

  // Consumed before position j.
  function Consumed(uses: seq<Option<nat>>): nat {
    if uses == [] then 0 else (if uses[0].Some? then 1 else 0) + Consumed(uses[1..])
  }

  /** Frames are consumed once each and in file order: the next one consumed is always the first not yet consumed. */
  lemma {:induction false} ConsumedInOrder(packets: seq<Packet>, queries: seq<Query>, from: nat, i: nat)
    requires i < |queries| && Uses(packets, queries, from)[i].Some?
    ensures Uses(packets, queries, from)[i] == Some(from + Consumed(Uses(packets, queries, from)[..i]))
    decreases |queries|
  {
    if i > 0 {
      var taken := packets != [] && packets[0].hash == queries[0].hash;
      var uses := Uses(packets, queries, from);
      ConsumedInOrder(Left(packets, queries[0]), queries[1..], if taken then from + 1 else from, i - 1);
      assert uses[1..] == Uses(Left(packets, queries[0]), queries[1..], if taken then from + 1 else from);
      assert uses[..i][1..] == uses[1..][..i - 1];
    }
  }

  /** A question consumes the first frame not yet consumed exactly when that frame carries its hash. */
  lemma {:induction false} UsesExactly(packets: seq<Packet>, queries: seq<Query>, from: nat, i: nat)
    requires i < |queries|
    ensures var k := Consumed(Uses(packets, queries, from)[..i]);
            Uses(packets, queries, from)[i].Some? <==> k < |packets| && packets[k].hash == queries[i].hash
    decreases |queries|
  {
    if i > 0 {
      var taken := packets != [] && packets[0].hash == queries[0].hash;
      var uses, left := Uses(packets, queries, from), Left(packets, queries[0]);
      var rest := Uses(left, queries[1..], if taken then from + 1 else from);
      UsesExactly(left, queries[1..], if taken then from + 1 else from, i - 1);
      assert uses[1..] == rest && uses[..i][1..] == rest[..i - 1];
    }
  }

  ghost predicate SameHashes(p: seq<Packet>, q: seq<Packet>) {
    |p| == |q| && forall i :: 0 <= i < |p| ==> p[i].hash == q[i].hash
  }

  lemma {:induction false} UsesFromHashes(p: seq<Packet>, q: seq<Packet>, queries: seq<Query>, from: nat)
    requires SameHashes(p, q)
    ensures Uses(p, queries, from) == Uses(q, queries, from)
    decreases |queries|
  {
    if queries != [] {
      var taken := p != [] && p[0].hash == queries[0].hash;
      UsesFromHashes(Left(p, queries[0]), Left(q, queries[0]), queries[1..], if taken then from + 1 else from);
    }
  }

  /** A changed body, however malformed, changes no answer but its own frame's. */
  lemma {:induction false} OneBadBody(packets: seq<Packet>, queries: seq<Query>, k: nat, body: seq<Octet>, i: nat)
    requires k < |packets| && i < |queries| && Uses(packets, queries, 0)[i] != Some(k)
    ensures Serve(packets[k := packets[k].(body := body)], queries)[i] == Serve(packets, queries)[i]
  {
    hide Parse, Serve, Uses;
    var changed := packets[k := packets[k].(body := body)];
    UsesFromHashes(packets, changed, queries, 0);
    AnswersAreOwn(packets, queries, 0, i);
    AnswersAreOwn(changed, queries, 0, i);
  }

  ghost predicate OtherHash(queries: seq<Query>, i: nat, j: nat)
    requires i < |queries| && j < |queries|
  {
    queries[i].hash != queries[j].hash
  }

  ghost predicate DistinctHashes(queries: seq<Query>) {
    forall i, j {:trigger OtherHash(queries, i, j)} :: 0 <= i < j < |queries| ==> OtherHash(queries, i, j)
  }

  // Frame k is asked for by question at[k].
  ghost predicate AskedFor(packets: seq<Packet>, queries: seq<Query>, at: seq<nat>, k: nat)
    requires k < |at| == |packets|
  {
    at[k] < |queries| && queries[at[k]].hash == packets[k].hash
  }

  ghost predicate Before(at: seq<nat>, j: nat, k: nat)
    requires j < |at| && k < |at|
  {
    at[j] < at[k]
  }

  // The frames are asked for in order.
  ghost predicate AskedAt(packets: seq<Packet>, queries: seq<Query>, at: seq<nat>) {
    && |at| == |packets|
    && (forall k {:trigger AskedFor(packets, queries, at, k)} :: 0 <= k < |at| ==> AskedFor(packets, queries, at, k))
    && (forall j, k {:trigger Before(at, j, k)} :: 0 <= j < k < |at| ==> Before(at, j, k))
  }

  // The positions as seen from the second question on, `gone` frames already consumed.
  function Shifted(at: seq<nat>, gone: nat): (r: seq<nat>)
    requires gone <= |at| && forall k :: gone <= k < |at| ==> 0 < at[k]
    ensures |r| == |at| - gone && forall k :: 0 <= k < |r| ==> r[k] == at[k + gone] - 1
  {
    seq(|at| - gone, k requires 0 <= k < |at| - gone => at[k + gone] - 1)
  }

  lemma AskedLater(packets: seq<Packet>, queries: seq<Query>, at: seq<nat>, gone: nat)
    requires AskedAt(packets, queries, at) && |queries| > 0 && gone <= |at| && forall k :: gone <= k < |at| ==> 0 < at[k]
    ensures AskedAt(packets[gone..], queries[1..], Shifted(at, gone))
  {
    var later, left, rest := Shifted(at, gone), packets[gone..], queries[1..];
    forall k | 0 <= k < |later| ensures AskedFor(left, rest, later, k) {
      assert AskedFor(packets, queries, at, k + gone);
    }
    forall j, k | 0 <= j < k < |later| ensures Before(later, j, k) {
      assert Before(at, j + gone, k + gone);
    }
  }

  lemma DistinctLater(queries: seq<Query>)
    requires DistinctHashes(queries) && queries != []
    ensures DistinctHashes(queries[1..])
  {
    forall i, j | 0 <= i < j < |queries| - 1 ensures OtherHash(queries[1..], i, j) {
      assert OtherHash(queries, i + 1, j + 1);
    }
  }

  // The first question takes the first frame, or leaves it.
  lemma FirstTakes(packets: seq<Packet>, queries: seq<Query>, from: nat, j: nat)
    requires j < |queries| && packets != [] && packets[0].hash == queries[0].hash
    ensures Uses(packets, queries, from)[j] ==
            if j == 0 then Some(from) else Uses(packets[1..], queries[1..], from + 1)[j - 1]
  {}

  lemma {:induction false} FirstLeaves(packets: seq<Packet>, queries: seq<Query>, from: nat, j: nat)
    requires 0 < j < |queries| && packets != [] && packets[0].hash != queries[0].hash
    ensures Uses(packets, queries, from)[j] == Uses(packets, queries[1..], from)[j - 1]
  {}

  lemma {:induction false} AllConsumed(packets: seq<Packet>, queries: seq<Query>, from: nat, at: seq<nat>, k: nat)
    requires DistinctHashes(queries) && AskedAt(packets, queries, at) && k < |packets|
    ensures AskedFor(packets, queries, at, k) && Uses(packets, queries, from)[at[k]] == Some(from + k)
    decreases |queries|
  {
    assert AskedFor(packets, queries, at, 0) && AskedFor(packets, queries, at, k);
    forall j | 0 < j < |at| ensures 0 < at[j] { assert Before(at, 0, j); }
    DistinctLater(queries);
    if at[0] == 0 {
      FirstTakes(packets, queries, from, at[k]);
      if k > 0 {
        AskedLater(packets, queries, at, 1);
        AllConsumed(packets[1..], queries[1..], from + 1, Shifted(at, 1), k - 1);
      }
    } else {
      assert OtherHash(queries, 0, at[0]);
      AskedLater(packets, queries, at, 0);
      assert packets[0..] == packets;
      FirstLeaves(packets, queries, from, at[k]);
      AllConsumed(packets, queries[1..], from, Shifted(at, 0), k);
    }
  }

  /** When the frames follow the order of the questions, every frame reaches its own block. */
  lemma {:induction false} AllDelivered(packets: seq<Packet>, queries: seq<Query>, at: seq<nat>, k: nat)
    requires DistinctHashes(queries) && AskedAt(packets, queries, at) && k < |packets|
    ensures at[k] < |queries| && Serve(packets, queries)[at[k]] == Parse(packets[k].body, queries[at[k]].transactions)
  {
    hide Parse;
    AllConsumed(packets, queries, 0, at, k);
    AnswersAreOwn(packets, queries, 0, at[k]);
  }

  // A frame as written for some hints.
  ghost predicate WrittenFor(p: Packet, hints: Hints) {
    Writable(hints) && p.body == Body(hints)
  }

  /** From the writer to the blocks: hints written in the order of the blocks come back to their blocks. */
  lemma {:induction false} WrittenFileDelivers(packets: seq<Packet>, queries: seq<Query>, at: seq<nat>, k: nat, hints: Hints)
    requires forall i :: 0 <= i < |packets| ==> |packets[i].body| <= MAX_FRAME
    requires DistinctHashes(queries) && AskedAt(packets, queries, at) && k < |packets| && AskedFor(packets, queries, at, k)
    requires WrittenFor(packets[k], hints) && |hints| == queries[at[k]].transactions <= MAX_TRANSACTIONS
    ensures Serve(PacketsOf(FileOf(packets)), queries)[at[k]] == Some(hints)
  {
    FileHolds(packets);
    AllDelivered(packets, queries, at, k);
    ParseBody(hints);
  }

  lemma {:induction false} ServeNext(answers: seq<Option<Hints>>, packets: seq<Packet>, queries: seq<Query>, i: nat)
    requires i < |queries|
    ensures answers + Serve(packets, queries[i..]) ==
            answers + [Answer(packets, queries[i])] + Serve(Left(packets, queries[i]), queries[i + 1..])
  {
    assert queries[i..][1..] == queries[i + 1..];
  }

  // ---------- The reader ----------

  class Reader {
    var input: Option<seq<Octet>>
    var next: Option<Packet>
    var stats: Stats

    // The frames still to be consumed.
    function Pending(): seq<Packet>
      reads this
    {
      (match next case None => [] case Some(p) => [p])
      + (match input case None => [] case Some(bytes) => PacketsOf(bytes))
    }

    constructor (bytes: seq<Octet>)
      ensures input == Some(bytes) && next == None && stats == Stats(8, 0, 0, 0)
    {
      input, next, stats := Some(bytes), None, Stats(8, 0, 0, 0);
    }

    /** Opens a file whose first eight bytes are the magic. */
    static method Open(file: seq<Octet>) returns (reader: Option<Reader>)
      ensures reader.Some? <==> |file| >= 8 && file[..8] == [65, 86, 72, 73, 78, 84, 48, 52]
      ensures reader.Some? ==> fresh(reader.value) && reader.value.Pending() == PacketsOf(file[8..])
    {
      if |file| < 8 || file[..8] != MAGIC {
        return None;
      }
      var r := new Reader(file[8..]);
      return Some(r);
    }

    /** The next frame of the file, if there is a whole one. */
    method ReadNext() returns (ok: bool, got: Option<Packet>)
      requires next == None
      modifies this`input, this`stats
      ensures ok ==> (got == None ==> old(Pending()) == [] && Pending() == [])
      ensures ok ==> (got.Some? ==> old(Pending()) == [got.value] + Pending())
      ensures !ok ==> got.None? && old(Pending()) == []
      ensures ok == (old(input) == None || ReadPacket(old(input).value) != Broken)
      ensures stats == old(stats).(bytes := old(stats.bytes) + if got.Some? then 36 + |got.value.body| else 0)
    {
      if input.None? {
        return true, None;
      }
      var rest := input.value;
      if rest == [] {
        input := None;
        return true, None;
      }
      if |rest| < 36 {
        return false, None;
      }
      var hash, size := rest[..32], FromLe(rest[32..36]);
      if size > MAX_FRAME || |rest| < 36 + size {
        return false, None;
      }
      input := Some(rest[36 + size..]);
      stats := stats.(bytes := stats.bytes + 36 + size);
      return true, Some(Packet(hash, rest[36..36 + size]));
    }

    /** The advice for one block: the pending frame when it is this block's, and nothing otherwise. */
    method Block(q: Query) returns (frame: Option<Hints>)
      modifies this
      ensures frame == Answer(old(Pending()), q) && Pending() == Left(old(Pending()), q)
      ensures stats.frames == old(stats.frames) + if frame.Some? then 1 else 0
      ensures stats.rejected == old(stats.rejected)
                + (if Pending() != old(Pending()) && frame.None? then 1 else 0)
                + (if old(next.None? && input.Some? && ReadPacket(input.value) == Broken) then 1 else 0)
      ensures stats.missed == old(stats.missed) + if Pending() == old(Pending()) then 1 else 0
      ensures stats.bytes == old(stats.bytes) +
                if old(next.None?) && old(Pending()) != [] then 36 + |old(Pending())[0].body| else 0
    {
      ghost var before := Pending();
      if next.None? {
        var ok, got := ReadNext();
        if ok {
          next := got;
        } else {
          stats := stats.(rejected := stats.rejected + 1);
          input := None;
        }
      }
      assert Pending() == before;
      assert stats.bytes == old(stats.bytes) + if old(next.None?) && before != [] then 36 + |before[0].body| else 0;
      if next.None? || next.value.hash != q.hash {
        stats := stats.(missed := stats.missed + 1);
        return None;
      }
      var body := next.value.body;
      next := None;
      frame := Decode(body, q.transactions);
      if frame.Some? {
        stats := stats.(frames := stats.frames + 1);
      } else {
        stats := stats.(rejected := stats.rejected + 1);
      }
    }

    /** A whole run of questions. */
    method Run(queries: seq<Query>) returns (answers: seq<Option<Hints>>)
      modifies this
      ensures answers == Serve(old(Pending()), queries)
    {
      answers := [];
      ghost var start := Pending();
      for i := 0 to |queries|
        invariant |answers| == i && Serve(start, queries) == answers + Serve(Pending(), queries[i..])
      {
        ServeNext(answers, Pending(), queries, i);
        var frame := Block(queries[i]);
        answers := answers + [frame];
      }
    }
  }
}
