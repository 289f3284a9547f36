/**
 The batch in which signatures under one key share a single key term, the
 records taken in the order of their keys so that equal keys are neighbours.
 */
module SortedBatches {
  import opened Wrappers
  import opened Arith
  import opened Fields
  import opened Groups
  import opened Ecdsa
  import opened Engines
  import opened BatchEquation
  import opened Batches
  import opened KeyTables
  import opened CoalescedBatches

  // Byte order of keys, from byte i on.
  predicate KeyLe(x: Key, y: Key, i: nat)
    requires i <= 33
    decreases 33 - i
  {
    i == 33 || x[i] < y[i] || (x[i] == y[i] && KeyLe(x, y, i + 1))
  }

  lemma {:induction false} KeyAntisymmetric(x: Key, y: Key, i: nat)
    requires i <= 33 && KeyLe(x, y, i) && KeyLe(y, x, i)
    ensures x[i..] == y[i..]
    decreases 33 - i
  {
    if i < 33 {
      KeyAntisymmetric(x, y, i + 1);
      assert x[i..] == [x[i]] + x[i + 1..] && y[i..] == [y[i]] + y[i + 1..];
    }
  }

  /** The library's sort: the records' indices in the order of their keys. */
  ghost predicate SortedOrder(records: seq<Record>, ordered: seq<nat>) {
    && |ordered| == |records|
    && multiset(ordered) == multiset(seq(|records|, i => i))
    && (forall i :: 0 <= i < |ordered| ==> ordered[i] < |records|)
    && (forall i, j :: 0 <= i < j < |ordered| ==> KeyLe(records[ordered[i]].pub, records[ordered[j]].pub, 0))
  }

  // Equal keys are neighbours.
  lemma Contiguous(records: seq<Record>, ordered: seq<nat>, i: nat, j: nat, k: nat)
    requires SortedOrder(records, ordered) && i <= j < k < |ordered|
    requires records[ordered[i]].pub == records[ordered[k]].pub
    ensures records[ordered[j]].pub == records[ordered[k]].pub
  {
    if i < j {
      var x, y := records[ordered[i]].pub, records[ordered[j]].pub;
      KeyAntisymmetric(x, y, 0);
      assert x[0..] == x && y[0..] == y;
    }
  }

  ghost function Reordered<T>(s: seq<T>, ordered: seq<nat>): (r: seq<T>)
    requires |ordered| == |s| && forall i :: 0 <= i < |ordered| ==> ordered[i] < |s|
    ensures |r| == |s| && forall i :: 0 <= i < |r| ==> r[i] == s[ordered[i]]
  {
    Pick(s, ordered)
  }

  lemma EveryIndexAppears(n: nat, ordered: seq<nat>, i: nat) returns (k: nat)
    requires multiset(ordered) == multiset(seq(n, j => j)) && i < n
    ensures k < |ordered| && ordered[k] == i
  {
    var all := seq(n, j => j);
    assert all[i] in multiset(all);
    k :| k < |ordered| && ordered[k] == i;
  }

  lemma ItemsReordered<P(!new)>(c: Curve<P>, records: seq<Record>, fullY: bool, ordered: seq<nat>)
    requires c.Lawful() && SortedOrder(records, ordered) && AllItems(c, Reordered(records, ordered), fullY)
    ensures AllItems(c, records, fullY)
  {
    forall i | 0 <= i < |records| ensures ItemOf(c, records[i], fullY).Some? {
      var k := EveryIndexAppears(|records|, ordered, i);
      assert ItemOf(c, Reordered(records, ordered)[k], fullY).Some?;
    }
  }

  lemma EquationReordered<P(!new)>(c: Curve<P>, records: seq<Record>, a: seq<int>, fullY: bool, ordered: seq<nat>)
    requires c.Lawful() && |a| == |records| && Coefficients(c, a) && SortedOrder(records, ordered)
    requires AllItems(c, records, fullY) && AllItems(c, Reordered(records, ordered), fullY)
    ensures Coefficients(c, Reordered(a, ordered))
    ensures Equation(c, ItemsOf(c, Reordered(records, ordered), fullY), Reordered(a, ordered)) ==
            Equation(c, ItemsOf(c, records, fullY), a)
  {
    var ts, all := Terms(c, ItemsOf(c, records, fullY), a), seq(|records|, i => i);
    SumPermuted(c.group, ts, ordered, all);
    assert Pick(ts, all) == ts;
    assert Pick(ts, ordered) == Terms(c, ItemsOf(c, Reordered(records, ordered), fullY), Reordered(a, ordered));
  }

  /** The order in which the records are added up does not matter. */
  lemma OrderIrrelevant<P(!new)>(c: Curve<P>, records: seq<Record>, a: seq<int>, fullY: bool, ordered: seq<nat>)
    requires c.Lawful() && |a| == |records| && Coefficients(c, a) && SortedOrder(records, ordered)
    ensures Coefficients(c, Reordered(a, ordered))
    ensures BatchAccepts(c, Reordered(records, ordered), Reordered(a, ordered), fullY) <==> BatchAccepts(c, records, a, fullY)
  {
    if AllItems(c, Reordered(records, ordered), fullY) {
      ItemsReordered(c, records, fullY, ordered);
      EquationReordered(c, records, a, fullY, ordered);
    }
  }

  lemma {:induction false} OpenedStep<P(!new)>(c: Curve<P>, ss: seq<int>, ps: seq<P>, n: nat, g: nat, i: nat, s: int, p: P, d: int, q: P)
    requires c.Lawful() && i < n && n + g < |ss| && n + g < |ps| && BothReady(ss, n, g, i) && 0 <= s && 0 <= d
    ensures var ss', ps' := ss[i := s][n + g := d], ps[i := p][n + g := q];
            BothReady(ss', n, g + 1, i + 1) &&
            Both(c, ss', ps', n, g + 1, i + 1) ==
            c.group.add(c.group.add(Both(c, ss, ps, n, g, i), c.group.Mul(s, p)), c.group.Mul(d, q))
  {
    AddedNonce(c, ss, ps, n, g, i, s, p);
    OpenedKey(c, ss[i := s], ps[i := p], n, g, i + 1, d, q);
  }

  /** Writes a nonce term and a new key term. */
  method PutOpened<P(==, !new)>(e: Engine<P>, n: nat, g: nat, i: nat, s: int, p: P, d: int, q: P)
    requires e.Ready() && i < n <= MAX_BATCH && g < n && 0 <= s && 0 <= d
    requires BothReady(e.scalars[..], n, g, i)
    modifies e.points, e.scalars
    ensures BothReady(e.scalars[..], n, g + 1, i + 1) && e.points[n + g] == q
    ensures Both(e.curve, e.scalars[..], e.points[..], n, g + 1, i + 1) ==
            e.curve.group.add(e.curve.group.add(old(Both(e.curve, e.scalars[..], e.points[..], n, g, i)), e.curve.group.Mul(s, p)),
                              e.curve.group.Mul(d, q))
  {
    OpenedStep(e.curve, e.scalars[..], e.points[..], n, g, i, s, p, d, q);
    ghost var ss, ps := e.scalars[..], e.points[..];
    e.points[i] := p;
    e.scalars[i] := s;
    e.points[n + g] := q;
    e.scalars[n + g] := d;
    assert e.points[..] == ps[i := p][n + g := q];
    assert e.scalars[..] == ss[i := s][n + g := d];
  }

  // The last key term is the key of the record just added.
  ghost predicate LastKey<P(!new)>(c: Curve<P>, records: seq<Record>, ps: seq<P>, n: nat, g: nat, i: nat)
    requires i <= |records| && n + g <= |ps|
  {
    i > 0 ==> g > 0 && ParseKey(c, records[i - 1].pub) == Some(ps[n + g - 1])
  }

  /**
   * A record parsed with its own key, or with the previous record's key point
   * when the two keys are the same and reuse is on.
   */
  method ParseSorted<P(==, !new)>(e: Engine<P>, rec: Record, reuse: bool, newKey: bool, last: P) returns (parsed: Option<Signed<P>>)
    requires e.Ready() && (!newKey ==> ParseKey(e.curve, rec.pub) == Some(last))
    ensures parsed == Parse(e.curve, rec)
  {
    if !reuse || newKey {
      parsed := Parse(e.curve, rec);
    } else {
      var t := ParseSignature(e.curve, rec);
      parsed := if t.None? then None else Some(Signed(t.value.0, t.value.1, t.value.2, last));
    }
  }

  // The terms so far, and the distinct keys they belong to.
  ghost predicate Sorted<P(!new)>(e: Engine<P>, records: seq<Record>, a: seq<int>, fullY: bool, i: nat, unique: nat, generator: int)
    requires e.Ready() && i <= |records| == |a| <= MAX_BATCH && unique <= |records| && Coefficients(e.curve, a)
    reads e.points, e.scalars
  {
    Merged(e, records, a, fullY, i, unique, generator) && LastKey(e.curve, records, e.points[..], |records|, unique, i)
  }

  /** Adds one record's terms, opening a key term or adding to the last one. */
  method SortRecord<P(==, !new)>(e: Engine<P>, ghost records: seq<Record>, ghost a: seq<int>, fullY: bool, n: nat, i: nat,
                                 coefficient: int, sig: Signed<P>, nonce: P, newKey: bool, unique: nat, generator: int)
      returns (unique': nat, generator': int)
    requires e.Ready() && n == |a| == |records| <= MAX_BATCH && i < n && Coefficients(e.curve, a) && coefficient == a[i]
    requires unique <= i && Sorted(e, records, a, fullY, i, unique, generator)
    requires Parse(e.curve, records[i]) == Some(sig) && NonceFromHint(e.curve, records[i], sig.r, fullY) == Some(nonce)
    requires newKey == (i == 0 || records[i].pub != records[i - 1].pub)
    modifies e.points, e.scalars
    ensures unique' == (if newKey then unique + 1 else unique)
    ensures Sorted(e, records, a, fullY, i + 1, unique', generator')
  {
    hide Progress, Both, BothReady, NonceFromHint;
    var s, d;
    s, d, generator' := RecordTerms(e.curve, records, a, fullY, i, coefficient, sig, nonce,
                                    Both(e.curve, e.scalars[..], e.points[..], n, unique, i), generator);
    unique' := unique;
    if newKey {
      PutOpened(e, n, unique, i, s, nonce, d, sig.q);
      unique' := unique + 1;
    } else {
      PutMerged(e, n, unique, i, s, nonce, unique - 1, d);
    }
  }

  /** One turn of the loop over the sorted records. */
  method TrySorted<P(==, !new)>(e: Engine<P>, ghost records: seq<Record>, ghost a: seq<int>, fullY: bool, n: nat, i: nat,
                                rec: Record, coefficient: int, newKey: bool, reuse: bool, unique: nat, generator: int)
      returns (ok: bool, unique': nat, generator': int)
    requires e.Ready() && n == |a| == |records| <= MAX_BATCH && i < n && Coefficients(e.curve, a) && coefficient == a[i]
    requires unique <= i && Sorted(e, records, a, fullY, i, unique, generator) && rec == records[i]
    requires newKey == (i == 0 || records[i].pub != records[i - 1].pub)
    modifies e.points, e.scalars
    ensures ok ==> unique' == (if newKey then unique + 1 else unique) && Sorted(e, records, a, fullY, i + 1, unique', generator')
    ensures !ok ==> !BatchAccepts(e.curve, records, a, fullY)
  {
    unique', generator' := unique, generator;
    var last := if unique > 0 then e.points[n + unique - 1] else e.curve.group.zero;
    var parsed := ParseSorted(e, rec, reuse, newKey, last);
    if parsed.None? {
      MissingItem(e.curve, records, a, fullY, i);
      return false, unique, generator;
    }
    var nonce := NonceFromHint(e.curve, rec, parsed.value.r, fullY);
    if nonce.None? {
      MissingItem(e.curve, records, a, fullY, i);
      return false, unique, generator;
    }
    unique', generator' := SortRecord(e, records, a, fullY, n, i, coefficient, parsed.value, nonce.value, newKey, unique, generator);
    ok := true;
  }

  ghost predicate HasKey(records: seq<Record>, i: nat, key: Key)
    requires i <= |records|
  {
    exists j :: 0 <= j < i && records[j].pub == key
  }

  // The distinct keys among the first i records.
  ghost predicate SeenKeys(records: seq<Record>, keys: seq<Key>, i: nat)
    requires i <= |records|
  {
    Distinct(keys) && forall key {:trigger HasKey(records, i, key)} :: key in keys <==> HasKey(records, i, key)
  }

  lemma HasKeyMore(records: seq<Record>, i: nat, key: Key)
    requires i < |records|
    ensures HasKey(records, i + 1, key) <==> HasKey(records, i, key) || key == records[i].pub
  {}

  ghost predicate NewKey(sorted: seq<Record>, i: nat)
    requires i < |sorted|
  {
    i == 0 || sorted[i].pub != sorted[i - 1].pub
  }

  /** In key order a key that differs from its predecessor has not been seen at all. */
  lemma NewKeyIsNew(records: seq<Record>, ordered: seq<nat>, i: nat)
    requires SortedOrder(records, ordered) && i < |records|
    ensures var sorted := Reordered(records, ordered); NewKey(sorted, i) <==> !HasKey(sorted, i, sorted[i].pub)
  {
    var sorted := Reordered(records, ordered);
    if HasKey(sorted, i, sorted[i].pub) {
      var j :| 0 <= j < i && sorted[j].pub == sorted[i].pub;
      Contiguous(records, ordered, j, i - 1, i);
    }
  }

  lemma NothingSeen(records: seq<Record>)
    ensures SeenKeys(records, [], 0)
  {}

  lemma SeenOneMore(records: seq<Record>, keys: seq<Key>, i: nat)
    requires i < |records| && SeenKeys(records, keys, i)
    requires NewKey(records, i) <==> !HasKey(records, i, records[i].pub)
    ensures SeenKeys(records, if NewKey(records, i) then keys + [records[i].pub] else keys, i + 1)
  {
    var key := records[i].pub;
    var keys' := if NewKey(records, i) then keys + [key] else keys;
    assert key in keys <==> HasKey(records, i, key);
    forall k ensures k in keys' <==> HasKey(records, i + 1, k) {
      HasKeyMore(records, i, k);
      assert k in keys <==> HasKey(records, i, k);
    }
  }

  /**
   * Sorting and merging decides exactly what the plain check decides with the
   * same coefficients, with one key term for each distinct key.
   */
  method BatchSorted<P(==, !new)>(e: Engine<P>, records: seq<Record>, a: seq<int>, fullY: bool, ordered: seq<nat>, reuse: bool)
      returns (ok: bool, ghost keys: seq<Key>, unique: nat)
    requires e.Ready() && |a| == |records| && Coefficients(e.curve, a) && SortedOrder(records, ordered)
    modifies e.points, e.scalars
    ensures ok == (|records| <= 8192 && BatchAccepts(e.curve, records, a, fullY))
    ensures ok ==> unique == |keys| && SeenKeys(Reordered(records, ordered), keys, |records|)
  {
    hide BatchAccepts, Progress, Both, BothReady, KeyLe, HasKey;
    var n := |records|;
    keys, unique := [], 0;
    NothingSeen(Reordered(records, ordered));
    if n > MAX_BATCH {
      return false, [], 0;
    }
    if n == 0 {
      NothingToCheck(e.curve, records, a, fullY);
      return true, [], 0;
    }
    ghost var sorted, b := Reordered(records, ordered), Reordered(a, ordered);
    OrderIrrelevant(e.curve, records, a, fullY, ordered);
    var generator := 0;
    ProgressStart(e.curve, sorted, b, fullY);
    BothStart(e.curve, e.scalars[..], e.points[..], n, 0);
    for i := 0 to n
      invariant unique == |keys| <= i && SeenKeys(sorted, keys, i)
      invariant Sorted(e, sorted, b, fullY, i, unique, generator)
    {
      var rec := records[ordered[i]];
      var newKey := i == 0 || rec.pub != records[ordered[i - 1]].pub;
      NewKeyIsNew(records, ordered, i);
      SeenOneMore(sorted, keys, i);
      ok, unique, generator := TrySorted(e, sorted, b, fullY, n, i, rec, a[ordered[i]], newKey, reuse, unique, generator);
      if !ok {
        return;
      }
      if newKey { keys := keys + [rec.pub]; }
    }
    ok := DecideMerged(e, n, sorted, b, fullY, unique, generator);
  }
}
