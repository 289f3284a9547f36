/**
 The short batch in which signatures under one key share a single key term,
 the groups found by an open-addressed table.
 */
module CoalescedBatches {
  import opened Wrappers
  import opened Arith
  import opened Fields
  import opened Groups
  import opened Ecdsa
  import opened Engines
  import opened BatchEquation
  import opened Batches
  import opened ShortBatches
  import opened KeyTables

  // ---------- Nonce terms below n, key terms from n on ----------

  ghost predicate BothReady(ss: seq<int>, n: nat, g: nat, i: nat)
    requires i <= n && n + g <= |ss|
  {
    (forall j :: 0 <= j < i ==> 0 <= ss[j]) && (forall j :: n <= j < n + g ==> 0 <= ss[j])
  }

  ghost function Both<P(!new)>(c: Curve<P>, ss: seq<int>, ps: seq<P>, n: nat, g: nat, i: nat): P
    requires i <= n && n + g <= |ss| && n + g <= |ps| && BothReady(ss, n, g, i)
  {
    c.group.add(MSum(c.group, ss[..i], ps[..i]), MSum(c.group, ss[n..n + g], ps[n..n + g]))
  }

  lemma {:induction false} AddedNonce<P(!new)>(c: Curve<P>, ss: seq<int>, ps: seq<P>, n: nat, g: nat, i: nat, s: int, p: P)
    requires c.Lawful() && i < n && n + g <= |ss| && n + g <= |ps| && BothReady(ss, n, g, i) && 0 <= s
    ensures BothReady(ss[i := s], n, g, i + 1)
    ensures Both(c, ss[i := s], ps[i := p], n, g, i + 1) == c.group.add(Both(c, ss, ps, n, g, i), c.group.Mul(s, p))
  {
    assert ss[i := s][..i + 1] == ss[..i] + [s] && ps[i := p][..i + 1] == ps[..i] + [p];
    assert (ss[..i] + [s])[..i] == ss[..i] && (ps[..i] + [p])[..i] == ps[..i];
    assert ss[i := s][n..n + g] == ss[n..n + g] && ps[i := p][n..n + g] == ps[n..n + g];
    Shuffle(c.group, MSum(c.group, ss[..i], ps[..i]), c.group.Mul(s, p), MSum(c.group, ss[n..n + g], ps[n..n + g]));
  }

  /** Merging into an existing key term. */
  lemma MergedKey<P(!new)>(c: Curve<P>, ss: seq<int>, ps: seq<P>, n: nat, g: nat, i: nat, k: nat, d: int)
    requires c.Lawful() && i <= n && n + g <= |ss| && n + g <= |ps| && BothReady(ss, n, g, i) && k < g && 0 <= d
    ensures var tt := ss[n + k := (ss[n + k] + d) % c.N()];
            BothReady(tt, n, g, i) && Both(c, tt, ps, n, g, i) == c.group.add(Both(c, ss, ps, n, g, i), c.group.Mul(d, ps[n + k]))
  {
    var v := (ss[n + k] + d) % c.N();
    var tt := ss[n + k := v];
    assert tt[..i] == ss[..i] && tt[n..n + g] == ss[n..n + g][k := v];
    MSumBump(c.group, ss[n..n + g], ps[n..n + g], k, d);
    Assoc(c.group, MSum(c.group, ss[..i], ps[..i]), MSum(c.group, ss[n..n + g], ps[n..n + g]), c.group.Mul(d, ps[n + k]));
  }

  /** Opening a new key term. */
  lemma {:induction false} OpenedKey<P(!new)>(c: Curve<P>, ss: seq<int>, ps: seq<P>, n: nat, g: nat, i: nat, d: int, p: P)
    requires c.Lawful() && i <= n && n + g < |ss| && n + g < |ps| && BothReady(ss, n, g, i) && 0 <= d
    ensures BothReady(ss[n + g := d], n, g + 1, i)
    ensures Both(c, ss[n + g := d], ps[n + g := p], n, g + 1, i) == c.group.add(Both(c, ss, ps, n, g, i), c.group.Mul(d, p))
  {
    var ss', ps' := ss[n + g := d], ps[n + g := p];
    assert ss'[..i] == ss[..i] && ps'[..i] == ps[..i];
    assert ss'[n..n + g + 1] == ss[n..n + g] + [d] && ps'[n..n + g + 1] == ps[n..n + g] + [p];
    assert (ss[n..n + g] + [d])[..g] == ss[n..n + g] && (ps[n..n + g] + [p])[..g] == ps[n..n + g];
    Assoc(c.group, MSum(c.group, ss[..i], ps[..i]), MSum(c.group, ss[n..n + g], ps[n..n + g]), c.group.Mul(d, p));
  }

  lemma BothIsAll<P(!new)>(c: Curve<P>, ss: seq<int>, ps: seq<P>, n: nat, g: nat)
    requires c.Lawful() && n + g <= |ss| && n + g <= |ps| && BothReady(ss, n, g, n)
    ensures ScalarsReady(ss, n + g) && Partial(c, ss, ps, n + g) == Both(c, ss, ps, n, g, n)
  {
    MSumSplit(c.group, ss[..n + g], ps[..n + g], n);
    assert ss[..n + g][..n] == ss[..n] && ps[..n + g][..n] == ps[..n];
    assert ss[..n + g][n..] == ss[n..n + g] && ps[..n + g][n..] == ps[n..n + g];
  }

  lemma BothStart<P(!new)>(c: Curve<P>, ss: seq<int>, ps: seq<P>, n: nat, g: nat)
    requires c.Lawful() && n + g <= |ss| && n + g <= |ps| && forall j :: n <= j < n + g ==> ss[j] == 0
    ensures BothReady(ss, n, g, 0) && Both(c, ss, ps, n, g, 0) == c.group.zero
  {
    MSumZeros(c.group, ss[n..n + g], ps[n..n + g]);
    Zero(c.group, c.group.zero);
  }

  ghost predicate Merged<P(!new)>(e: Engine<P>, records: seq<Record>, a: seq<int>, fullY: bool, i: nat, g: nat, generator: int)
    requires e.Ready() && i <= |records| == |a| <= MAX_BATCH && g <= |records| && Coefficients(e.curve, a)
    reads e.points, e.scalars
  {
    && BothReady(e.scalars[..], |records|, g, i)
    && Progress(e.curve, records, a, fullY, i, Both(e.curve, e.scalars[..], e.points[..], |records|, g, i), generator)
  }

  /** The closing multi-multiplication over n + g terms. */
  method DecideMerged<P(==, !new)>(e: Engine<P>, n: nat, ghost records: seq<Record>, ghost a: seq<int>, fullY: bool, g: nat, generator: int)
      returns (ok: bool)
    requires e.Ready() && |a| == |records| == n <= MAX_BATCH && g <= n && Coefficients(e.curve, a)
    requires Merged(e, records, a, fullY, n, g, generator)
    ensures ok == BatchAccepts(e.curve, records, a, fullY)
  {
    BothIsAll(e.curve, e.scalars[..], e.points[..], n, g);
    ProgressDecides(e.curve, records, a, fullY, Both(e.curve, e.scalars[..], e.points[..], n, g, n), generator);
    var result := EcmultMulti(e, Negate(e.curve.N(), generator), n + g);
    ok := result == e.curve.group.zero;
  }

  // ---------- Grouping by table ----------

  // Record i has been sent to the group of its key.
  ghost predicate RoutedAt<P(!new)>(records: seq<Record>, w: seq<Work<P>>, keys: seq<Key>, i: nat)
    requires i < |records| && i < |w|
  {
    1 <= w[i].group <= |keys| && keys[w[i].group - 1] == records[i].pub
  }

  // Group k's point is its key, with nothing added up yet.
  ghost predicate KeyPointAt<P(!new)>(c: Curve<P>, ss: seq<int>, ps: seq<P>, keys: seq<Key>, n: nat, k: nat)
    requires k < |keys| && n + k < |ps| && n + k < |ss|
  {
    ParseKey(c, keys[k]) == Some(ps[n + k]) && ss[n + k] == 0
  }

  ghost predicate Routed<P(!new)>(c: Curve<P>, records: seq<Record>, w: seq<Work<P>>, keys: seq<Key>, i: nat)
    requires c.Lawful() && i <= |records| && i <= |w|
  {
    forall j {:trigger RoutedAt(records, w, keys, j)} {:trigger LoadedAt(c, records, w, j)} :: 0 <= j < i ==>
      RoutedAt(records, w, keys, j) && LoadedAt(c, records, w, j)
  }

  ghost predicate KeyPoints<P(!new)>(c: Curve<P>, ss: seq<int>, ps: seq<P>, keys: seq<Key>, n: nat)
    requires n + |keys| <= |ps| && n + |keys| <= |ss|
  {
    forall k {:trigger KeyPointAt(c, ss, ps, keys, n, k)} :: 0 <= k < |keys| ==> KeyPointAt(c, ss, ps, keys, n, k)
  }

  /** Equal keys always share a group, different keys never do. */
  lemma GroupsAreKeys<P(!new)>(c: Curve<P>, records: seq<Record>, w: seq<Work<P>>, keys: seq<Key>, i: nat, j: nat)
    requires c.Lawful() && |records| <= |w| && Routed(c, records, w, keys, |records|) && Distinct(keys)
    requires i < |records| && j < |records|
    ensures w[i].group == w[j].group <==> records[i].pub == records[j].pub
  {
    assert RoutedAt(records, w, keys, i) && RoutedAt(records, w, keys, j);
  }

  lemma RoutedMore<P(!new)>(c: Curve<P>, records: seq<Record>, w: seq<Work<P>>, keys: seq<Key>, i: nat, entry: Work<P>, keys': seq<Key>)
    requires c.Lawful() && i < |records| && i < |w| && Routed(c, records, w, keys, i) && keys <= keys'
    requires Parse(c, records[i]).Some? && Holds(entry, Parse(c, records[i]).value)
    requires 1 <= entry.group <= |keys'| && keys'[entry.group - 1] == records[i].pub
    ensures Routed(c, records, w[i := entry], keys', i + 1)
  {
    var w' := w[i := entry];
    forall j | 0 <= j < i + 1 ensures RoutedAt(records, w', keys', j) && LoadedAt(c, records, w', j) {
      if j < i { assert RoutedAt(records, w, keys, j) && LoadedAt(c, records, w, j); }
    }
  }

  // The engine's state while records are routed.
  ghost predicate Routing<P(!new)>(e: Engine<P>, table: KeyTable, records: seq<Record>, i: nat)
    requires e.Ready() && i <= |records| <= MAX_BATCH
    reads table, table.slots, e.points, e.scalars, e.inversion
  {
    && table.Valid() && table.size <= i && 2 * |records| <= table.slots.Length
    && table.slots as object !in {e.points as object, e.scalars as object, e.inversion as object}
    && Routed(e.curve, records, e.inversion[..], table.keys, i)
    && KeyPoints(e.curve, e.scalars[..], e.points[..], table.keys, |records|)
  }

  /** Opens the term of a new group; the others stay. */
  method OpenGroup<P(==, !new)>(e: Engine<P>, n: nat, group: nat, q: P, ghost keys: seq<Key>, ghost key: Key)
    requires e.Ready() && n + group <= 2 * MAX_BATCH && group == |keys| + 1 && ParseKey(e.curve, key) == Some(q)
    requires KeyPoints(e.curve, e.scalars[..], e.points[..], keys, n)
    modifies e.points, e.scalars
    ensures KeyPoints(e.curve, e.scalars[..], e.points[..], keys + [key], n)
  {
    ghost var scalars, points := e.scalars[..], e.points[..];
    e.points[n + group - 1] := q;
    e.scalars[n + group - 1] := 0;
    forall k | 0 <= k < group ensures KeyPointAt(e.curve, e.scalars[..], e.points[..], keys + [key], n, k) {
      if k < |keys| { assert KeyPointAt(e.curve, scalars, points, keys, n, k); }
    }
  }

  /** One record: parse, find its group, and open the group's key term when it is new. */
  method RouteOne<P(==, !new)>(e: Engine<P>, table: KeyTable, records: seq<Record>, i: nat) returns (ok: bool)
    requires e.Ready() && i < |records| <= MAX_BATCH && Routing(e, table, records, i)
    modifies table, table.slots, e.points, e.scalars, e.inversion
    ensures ok == Parse(e.curve, records[i]).Some?
    ensures ok ==> Routing(e, table, records, i + 1)
  {
    AdvisedKeyIsReal(e.curve, records[i]);
    var parsed := ParseAdvised(e.curve, records[i]);
    if parsed.None? {
      return false;
    }
    var sig := parsed.value;
    ghost var work, keys := e.inversion[..], table.keys;
    var group, isNew := table.Route(records[i].pub);
    if isNew {
      OpenGroup(e, |records|, group, sig.q, keys, records[i].pub);
    }
    var entry := e.inversion[i].(r := sig.r, s := sig.s, z := sig.z, q := sig.q, group := group);
    RoutedMore(e.curve, records, work, keys, i, entry, table.keys);
    e.inversion[i] := entry;
    assert e.inversion[..] == work[i := entry];
    ok := true;
  }

  // The term of a record's group is the record's own key.
  ghost predicate OwnKeyAt<P(!new)>(c: Curve<P>, records: seq<Record>, w: seq<Work<P>>, keyPoints: seq<P>, i: nat)
    requires c.Lawful() && i < |records| && i < |w|
  {
    LoadedAt(c, records, w, i) && 1 <= w[i].group <= |keyPoints| && keyPoints[w[i].group - 1] == w[i].q
  }

  ghost predicate OwnKeys<P(!new)>(c: Curve<P>, records: seq<Record>, w: seq<Work<P>>, keyPoints: seq<P>)
    requires c.Lawful() && |records| <= |w|
  {
    forall i {:trigger OwnKeyAt(c, records, w, keyPoints, i)} :: 0 <= i < |records| ==> OwnKeyAt(c, records, w, keyPoints, i)
  }

  lemma GroupsHoldKeys<P(!new)>(c: Curve<P>, records: seq<Record>, w: seq<Work<P>>, keys: seq<Key>, ss: seq<int>, ps: seq<P>)
    requires c.Lawful() && |records| <= |w| && |records| + |keys| <= |ss| && |records| + |keys| <= |ps|
    requires Routed(c, records, w, keys, |records|) && KeyPoints(c, ss, ps, keys, |records|)
    ensures OwnKeys(c, records, w, ps[|records|..|records| + |keys|])
  {
    var keyPoints := ps[|records|..|records| + |keys|];
    forall i | 0 <= i < |records| ensures OwnKeyAt(c, records, w, keyPoints, i) {
      assert RoutedAt(records, w, keys, i) && LoadedAt(c, records, w, i);
      assert KeyPointAt(c, ss, ps, keys, |records|, w[i].group - 1);
    }
  }

  // Inverting changes neither what was loaded nor the groups.
  lemma StillOwnKeys<P(!new)>(c: Curve<P>, records: seq<Record>, v: seq<Work<P>>, w: seq<Work<P>>, keyPoints: seq<P>)
    requires c.Lawful() && |records| <= |v| && OwnKeys(c, records, v, keyPoints) && SameInputs(w, v)
    ensures OwnKeys(c, records, w, keyPoints)
  {
    forall i | 0 <= i < |records| ensures OwnKeyAt(c, records, w, keyPoints, i) {
      assert OwnKeyAt(c, records, v, keyPoints, i) && Inputs(w[i]) == Inputs(v[i]);
    }
  }

  /** Routes every record, or stops at the first that does not parse. */
  method RouteAll<P(==, !new)>(e: Engine<P>, records: seq<Record>) returns (ok: bool, g: nat)
    requires e.Ready() && 0 < |records| <= MAX_BATCH
    modifies e.points, e.scalars, e.inversion
    ensures ok == forall i :: 0 <= i < |records| ==> Parse(e.curve, records[i]).Some?
    ensures ok ==> g <= |records|
    ensures ok ==> OwnKeys(e.curve, records, e.inversion[..], e.points[|records|..|records| + g])
    ensures ok ==> forall i, j :: 0 <= i < |records| && 0 <= j < |records| ==>
              (e.inversion[i].group == e.inversion[j].group <==> records[i].pub == records[j].pub)
    ensures ok ==> forall j :: |records| <= j < |records| + g ==> e.scalars[j] == 0
  {
    var n := |records|;
    g := 0;
    var table := new KeyTable(n);
    for i := 0 to n
      invariant fresh(table) && fresh(table.slots) && Routing(e, table, records, i)
      invariant forall j :: 0 <= j < i ==> Parse(e.curve, records[j]).Some?
    {
      ok := RouteOne(e, table, records, i);
      if !ok {
        return;
      }
    }
    ok, g := true, table.size;
    GroupsHoldKeys(e.curve, records, e.inversion[..], table.keys, e.scalars[..], e.points[..]);
    assert e.points[..][n..n + g] == e.points[n..n + g];
    forall i, j | 0 <= i < n && 0 <= j < n
      ensures e.inversion[i].group == e.inversion[j].group <==> records[i].pub == records[j].pub
    {
      GroupsAreKeys(e.curve, records, e.inversion[..], table.keys, i, j);
    }
    forall j | n <= j < n + g ensures e.scalars[j] == 0 {
      assert KeyPointAt(e.curve, e.scalars[..], e.points[..], table.keys, n, j - n);
    }
  }

  // The two additions of a merged record, in the order of the plain batch.
  lemma MergedStep<P(!new)>(c: Curve<P>, ss: seq<int>, ps: seq<P>, n: nat, g: nat, i: nat, s: int, p: P, k: nat, d: int)
    requires c.Lawful() && i < n && n + g <= |ss| && n + g <= |ps| && BothReady(ss, n, g, i) && k < g && 0 <= s && 0 <= d
    ensures var ss1 := ss[i := s];
            var ss2 := ss1[n + k := (ss1[n + k] + d) % c.N()];
            BothReady(ss2, n, g, i + 1) &&
            Both(c, ss2, ps[i := p], n, g, i + 1) ==
            c.group.add(c.group.add(Both(c, ss, ps, n, g, i), c.group.Mul(s, p)), c.group.Mul(d, ps[n + k]))
  {
    AddedNonce(c, ss, ps, n, g, i, s, p);
    MergedKey(c, ss[i := s], ps[i := p], n, g, i + 1, k, d);
  }

  /** Writes a nonce term and adds to a key term. */
  method PutMerged<P(==, !new)>(e: Engine<P>, n: nat, ghost g: nat, i: nat, s: int, p: P, k: nat, d: int)
    requires e.Ready() && i < n <= MAX_BATCH && k < g <= n && 0 <= s && 0 <= d
    requires BothReady(e.scalars[..], n, g, i)
    modifies e.points, e.scalars
    ensures BothReady(e.scalars[..], n, g, i + 1)
    ensures e.points[..] == old(e.points[..])[i := p]
    ensures Both(e.curve, e.scalars[..], e.points[..], n, g, i + 1) ==
            e.curve.group.add(e.curve.group.add(old(Both(e.curve, e.scalars[..], e.points[..], n, g, i)), e.curve.group.Mul(s, p)),
                              e.curve.group.Mul(d, old(e.points[n + k])))
  {
    MergedStep(e.curve, e.scalars[..], e.points[..], n, g, i, s, p, k, d);
    ghost var ss, ps := e.scalars[..], e.points[..];
    e.points[i] := p;
    e.scalars[i] := s;
    assert e.scalars[..] == ss[i := s];
    e.scalars[n + k] := (e.scalars[n + k] + d) % e.curve.group.scalars.m;
    assert e.points[..] == ps[i := p];
    assert e.scalars[..] == ss[i := s][n + k := (ss[i := s][n + k] + d) % e.curve.N()];
  }

  /** Adds one record's terms, the key term going to its group. */
  method MergeRecord<P(==, !new)>(e: Engine<P>, records: seq<Record>, a: seq<int>, fullY: bool, i: nat, g: nat,
                                  nonce: P, generator: int) returns (generator': int)
    requires e.Ready() && |a| == |records| <= MAX_BATCH && i < |records| && Coefficients(e.curve, a) && g <= |records|
    requires InverseAt(e.curve, records, e.inversion[..], i)
    requires NonceFromHint(e.curve, records[i], e.inversion[i].r, fullY) == Some(nonce)
    requires 1 <= e.inversion[i].group <= g && e.points[|records| + e.inversion[i].group - 1] == e.inversion[i].q
    requires Merged(e, records, Rescaled(e.curve, records, a), fullY, i, g, generator)
    modifies e.points, e.scalars
    ensures e.points[..] == old(e.points[..])[i := nonce]
    ensures Merged(e, records, Rescaled(e.curve, records, a), fullY, i + 1, g, generator')
  {
    var n, w, d := |records|, e.inversion[i], 0;
    d, generator' := ShortTerms(e.curve, records, a, fullY, i, w, nonce,
                                Both(e.curve, e.scalars[..], e.points[..], n, g, i), generator);
    PutMerged(e, n, g, i, a[i], nonce, w.group - 1, d);
  }

  /** One record in the short form; a hint that does not parse ends it. */
  method TryMerged<P(==, !new)>(e: Engine<P>, records: seq<Record>, a: seq<int>, fullY: bool, i: nat, g: nat,
                                generator: int, ghost keyPoints: seq<P>) returns (ok: bool, generator': int)
    requires e.Ready() && |a| == |records| <= MAX_BATCH && i < |records| && Coefficients(e.curve, a)
    requires g == |keyPoints| <= |records| && e.points[|records|..|records| + g] == keyPoints
    requires InverseAt(e.curve, records, e.inversion[..], i) && OwnKeyAt(e.curve, records, e.inversion[..], keyPoints, i)
    requires Merged(e, records, Rescaled(e.curve, records, a), fullY, i, g, generator)
    modifies e.points, e.scalars
    ensures e.points[|records|..|records| + g] == keyPoints
    ensures ok ==> Merged(e, records, Rescaled(e.curve, records, a), fullY, i + 1, g, generator')
    ensures !ok ==> !BatchAccepts(e.curve, records, Rescaled(e.curve, records, a), fullY)
  {
    hide Progress, Merged;
    generator' := generator;
    var nonce := NonceFromHint(e.curve, records[i], e.inversion[i].r, fullY);
    if nonce.None? {
      MissingItem(e.curve, records, Rescaled(e.curve, records, a), fullY, i);
      return false, generator;
    }
    assert e.points[|records|..|records| + g][e.inversion[i].group - 1] == e.inversion[i].q;
    generator' := MergeRecord(e, records, a, fullY, i, g, nonce.value, generator);
    ok := true;
  }

  lemma MergedStart<P(!new)>(e: Engine<P>, records: seq<Record>, a: seq<int>, fullY: bool, g: nat)
    requires e.Ready() && |records| == |a| <= MAX_BATCH && g <= |records| && Coefficients(e.curve, a)
    requires forall j :: |records| <= j < |records| + g ==> e.scalars[j] == 0
    ensures Merged(e, records, a, fullY, 0, g, 0)
  {
    ProgressStart(e.curve, records, a, fullY);
    BothStart(e.curve, e.scalars[..], e.points[..], |records|, g);
  }

  lemma KeyOf<P(!new)>(c: Curve<P>, records: seq<Record>, w: seq<Work<P>>, keyPoints: seq<P>, i: nat)
    requires c.Lawful() && i < |records| <= |w| && AllInverses(c, records, w) && OwnKeys(c, records, w, keyPoints)
    ensures InverseAt(c, records, w, i) && OwnKeyAt(c, records, w, keyPoints, i)
  {}

  /** Accumulates every record with its key term merged, then decides. */
  method MergeAll<P(==, !new)>(e: Engine<P>, records: seq<Record>, a: seq<int>, fullY: bool, g: nat, ghost keyPoints: seq<P>)
      returns (ok: bool)
    requires e.Ready() && |a| == |records| <= MAX_BATCH && Coefficients(e.curve, a)
    requires g == |keyPoints| <= |records| && e.points[|records|..|records| + g] == keyPoints
    requires AllInverses(e.curve, records, e.inversion[..]) && OwnKeys(e.curve, records, e.inversion[..], keyPoints)
    requires forall j :: |records| <= j < |records| + g ==> e.scalars[j] == 0
    modifies e.points, e.scalars
    ensures ok == BatchAccepts(e.curve, records, Rescaled(e.curve, records, a), fullY)
  {
    hide Merged, BatchAccepts, OwnKeys, AllInverses;
    ghost var b, work := Rescaled(e.curve, records, a), e.inversion[..];
    var generator := 0;
    MergedStart(e, records, b, fullY, g);
    for i := 0 to |records|
      invariant Merged(e, records, b, fullY, i, g, generator)
      invariant e.inversion[..] == work && e.points[|records|..|records| + g] == keyPoints
    {
      KeyOf(e.curve, records, work, keyPoints, i);
      ok, generator := TryMerged(e, records, a, fullY, i, g, generator, keyPoints);
      if !ok {
        return;
      }
    }
    ok := DecideMerged(e, |records|, records, b, fullY, g, generator);
  }

  /** Merging repeated keys decides exactly what the unmerged short check decides. */
  method BatchShortMerged<P(==, !new)>(e: Engine<P>, records: seq<Record>, a: seq<int>, fullY: bool) returns (ok: bool)
    requires e.Ready() && |a| == |records| && Coefficients(e.curve, a)
    modifies e.points, e.scalars, e.inversion
    ensures ok == (|records| <= 8192 && BatchAccepts(e.curve, records, Rescaled(e.curve, records, a), fullY))
  {
    ghost var b := Rescaled(e.curve, records, a);
    var n := |records|;
    if n > MAX_BATCH {
      return false;
    }
    if n == 0 {
      NothingToCheck(e.curve, records, b, fullY);
      return true;
    }
    var g;
    ok, g := RouteAll(e, records);
    if !ok {
      ghost var i :| 0 <= i < n && Parse(e.curve, records[i]).None?;
      MissingItem(e.curve, records, b, fullY, i);
      return;
    }
    ghost var keyPoints, routed := e.points[n..n + g], e.inversion[..];
    forall i | 0 <= i < n ensures LoadedAt(e.curve, records, routed, i) {
      assert OwnKeyAt(e.curve, records, routed, keyPoints, i);
    }
    LoadInverses(e, records);
    StillOwnKeys(e.curve, records, routed, e.inversion[..], keyPoints);
    ok := MergeAll(e, records, a, fullY, g, keyPoints);
  }
}
