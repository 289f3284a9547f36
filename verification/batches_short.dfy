/** The short-coefficient rewrite of the batch check, with and without advised keys. */
module ShortBatches {
  import opened Wrappers
  import opened Arith
  import opened Fields
  import opened Groups
  import opened Ecdsa
  import opened Engines
  import opened BatchEquation
  import opened Batches

  /** The coefficients a / s that make the plain check the short one. */
  ghost function Rescaled<P(!new)>(c: Curve<P>, records: seq<Record>, a: seq<int>): (b: seq<int>)
    requires c.Lawful() && |a| == |records|
    ensures |b| == |a| && Coefficients(c, b)
  {
    forall x, y ensures 0 <= c.group.scalars.Mul(x, y) < c.N() { MulRange(c.group.scalars, x, y); }
    seq(|a|, i requires 0 <= i < |a| =>
      match Parse(c, records[i])
      case Some(p) => c.group.scalars.Mul(a[i], c.group.scalars.inv(p.s))
      case None => 0)
  }

  // The scalars of the short form are those of the plain form with coefficient a / s.
  lemma ShortScalars(f: Field, a: int, s: int, r: int, z: int)
    requires f.Lawful() && 0 <= a < f.m && 0 < s < f.m
    ensures var w, b := f.inv(s), f.Mul(a, f.inv(s));
            f.Mul(b, s) == a && f.Mul(b, r) == f.Mul(a, f.Mul(r, w)) && f.Mul(b, z) == f.Mul(a, f.Mul(z, w))
  {
    var w := f.inv(s);
    Inverse(f, s);
    MulComm(f, s, w);
    MulAssoc(f, a, w, s);
    MulOne(f, a);
    MulAssoc(f, a, w, r);
    MulComm(f, w, r);
    MulAssoc(f, a, w, z);
    MulComm(f, w, z);
  }

  /** The rewrite keeps the soundness bound: at most one value of a short coefficient passes an invalid record. */
  lemma AtMostOneShort<P(!new)>(c: Curve<P>, records: seq<Record>, a: seq<int>, fullY: bool, i: nat, u: int, v: int)
    requires c.Lawful() && |a| == |records| && Coefficients(c, a) && i < |records|
    requires 0 <= u < c.N() && 0 <= v < c.N() && !Ordinary(c, records[i])
    requires BatchAccepts(c, records, Rescaled(c, records, a[i := u]), fullY)
    requires BatchAccepts(c, records, Rescaled(c, records, a[i := v]), fullY)
    ensures u == v
  {
    var f, b := c.group.scalars, Rescaled(c, records, a);
    var bu, bv := Rescaled(c, records, a[i := u]), Rescaled(c, records, a[i := v]);
    assert bu == b[i := bu[i]] && bv == b[i := bv[i]];
    AtMostOneAccepts(c, records, b, fullY, i, bu[i], bv[i]);
    assert ItemOf(c, records[i], fullY).Some?;
    ParsedRange(c, records[i]);
    var p := Parse(c, records[i]).value;
    ShortScalars(f, u, p.s, 0, 0);
    ShortScalars(f, v, p.s, 0, 0);
  }

  // Entry i holds the parsed record i.
  ghost predicate LoadedAt<P(!new)>(c: Curve<P>, records: seq<Record>, w: seq<Work<P>>, i: nat)
    requires c.Lawful() && i < |records| && i < |w|
  {
    Parse(c, records[i]).Some? && Holds(w[i], Parse(c, records[i]).value)
  }

  /** Parses every record into the engine; the first that does not parse ends it. */
  method Load<P(==, !new)>(e: Engine<P>, records: seq<Record>, advised: bool) returns (ok: bool)
    requires e.Ready() && |records| <= MAX_BATCH
    modifies e.inversion
    ensures ok == forall i :: 0 <= i < |records| ==> Parse(e.curve, records[i]).Some?
    ensures ok ==> forall i {:trigger LoadedAt(e.curve, records, e.inversion[..], i)} ::
                     0 <= i < |records| ==> LoadedAt(e.curve, records, e.inversion[..], i)
  {
    for i := 0 to |records|
      invariant forall j :: 0 <= j < i ==> Parse(e.curve, records[j]).Some?
      invariant forall j {:trigger LoadedAt(e.curve, records, e.inversion[..], j)} ::
                  0 <= j < i ==> LoadedAt(e.curve, records, e.inversion[..], j)
    {
      ghost var now := e.inversion[..];
      AdvisedKeyIsReal(e.curve, records[i]);
      var parsed := if advised then ParseAdvised(e.curve, records[i]) else Parse(e.curve, records[i]);
      if parsed.None? {
        return false;
      }
      var sig := parsed.value;
      e.inversion[i] := e.inversion[i].(r := sig.r, s := sig.s, z := sig.z, q := sig.q);
      forall j | 0 <= j <= i ensures LoadedAt(e.curve, records, e.inversion[..], j) {
        if j < i { assert LoadedAt(e.curve, records, now, j); }
      }
    }
    ok := true;
  }

  // Entry i also holds the inverse of its s.
  ghost predicate InverseAt<P(!new)>(c: Curve<P>, records: seq<Record>, w: seq<Work<P>>, i: nat)
    requires c.Lawful() && i < |records| && i < |w|
  {
    LoadedAt(c, records, w, i) && w[i].inverse == c.group.scalars.inv(w[i].s)
  }

  ghost predicate AllInverses<P(!new)>(c: Curve<P>, records: seq<Record>, w: seq<Work<P>>)
    requires c.Lawful() && |records| <= |w|
  {
    forall i {:trigger InverseAt(c, records, w, i)} :: 0 <= i < |records| ==> InverseAt(c, records, w, i)
  }

  lemma InversesLoaded<P(!new)>(c: Curve<P>, records: seq<Record>, v: seq<Work<P>>, w: seq<Work<P>>)
    requires c.Lawful() && |records| <= |v| && SameInputs(w, v)
    requires forall i {:trigger LoadedAt(c, records, v, i)} :: 0 <= i < |records| ==> LoadedAt(c, records, v, i)
    requires forall i {:trigger InvertedAt(c.group.scalars, w, Inverted(c, records), i)} ::
               0 <= i < |records| ==> InvertedAt(c.group.scalars, w, Inverted(c, records), i)
    ensures AllInverses(c, records, w)
  {
    forall i | 0 <= i < |records| ensures InverseAt(c, records, w, i) {
      assert LoadedAt(c, records, v, i) && InvertedAt(c.group.scalars, w, Inverted(c, records), i);
      assert Inputs(w[i]) == Inputs(v[i]);
    }
  }

  /** Inverts all the loaded s at once. */
  method LoadInverses<P(==, !new)>(e: Engine<P>, records: seq<Record>)
    requires e.Ready() && |records| <= MAX_BATCH
    requires forall i {:trigger LoadedAt(e.curve, records, e.inversion[..], i)} ::
               0 <= i < |records| ==> LoadedAt(e.curve, records, e.inversion[..], i)
    modifies e.inversion
    ensures AllInverses(e.curve, records, e.inversion[..])
    ensures SameInputs(e.inversion[..], old(e.inversion[..]))
  {
    ghost var v, ss := e.inversion[..], Inverted(e.curve, records);
    forall i | 0 <= i < |records| ensures e.inversion[i].s == ss[i] {
      assert LoadedAt(e.curve, records, v, i);
    }
    e.ScalarInverseBatch(|records|, ss);
    InversesLoaded(e.curve, records, v, e.inversion[..]);
  }

  /** One record in the short form R - u G - v Q is that record in the plain form with coefficient a / s. */
  lemma ShortStep<P(!new)>(c: Curve<P>, records: seq<Record>, a: seq<int>, fullY: bool, i: nat, w: Work<P>, nonce: P, m: P, gen: int)
    requires c.Lawful() && |a| == |records| && i < |records| && Coefficients(c, a)
    requires Parse(c, records[i]).Some? && Holds(w, Parse(c, records[i]).value) && w.inverse == c.group.scalars.inv(w.s)
    requires NonceFromHint(c, records[i], w.r, fullY) == Some(nonce)
    requires Progress(c, records, Rescaled(c, records, a), fullY, i, m, gen)
    ensures var f := c.group.scalars;
            var v, u := f.Mul(a[i], f.Mul(w.r, w.inverse)), f.Mul(a[i], f.Mul(w.z, w.inverse));
            0 <= v < c.N() &&
            Progress(c, records, Rescaled(c, records, a), fullY, i + 1,
                     c.group.add(c.group.add(m, c.group.Mul(a[i], nonce)), c.group.Mul(Negate(c.N(), v), w.q)), (gen + u) % c.N())
  {
    hide Progress;
    ParsedRange(c, records[i]);
    var f, b := c.group.scalars, Rescaled(c, records, a);
    ShortScalars(f, a[i], w.s, w.r, w.z);
    assert b[i] == f.Mul(a[i], w.inverse);
    assert ItemOf(c, records[i], fullY) == Some(Item(w.s, w.r, w.z, w.q, nonce));
    ProgressStep(c, records, b, fullY, i, m, gen);
  }

  /** The key scalar of the short form, and the generator's scalar with its share added. */
  method ShortTerms<P(==, !new)>(c: Curve<P>, records: seq<Record>, a: seq<int>, fullY: bool, i: nat, w: Work<P>,
                                 nonce: P, ghost m: P, gen: int) returns (d: int, gen': int)
    requires c.Lawful() && |a| == |records| && i < |records| && Coefficients(c, a)
    requires Parse(c, records[i]).Some? && Holds(w, Parse(c, records[i]).value) && w.inverse == c.group.scalars.inv(w.s)
    requires NonceFromHint(c, records[i], w.r, fullY) == Some(nonce)
    requires Progress(c, records, Rescaled(c, records, a), fullY, i, m, gen)
    ensures 0 <= d
    ensures Progress(c, records, Rescaled(c, records, a), fullY, i + 1,
                     c.group.add(c.group.add(m, c.group.Mul(a[i], nonce)), c.group.Mul(d, w.q)), gen')
  {
    hide Progress;
    ShortStep(c, records, a, fullY, i, w, nonce, m, gen);
    var f := c.group.scalars;
    var v := f.Mul(a[i], f.Mul(w.r, w.inverse));
    d := Negate(f.m, v);
    var u := f.Mul(a[i], f.Mul(w.z, w.inverse));
    gen' := (gen + u) % f.m;
  }

  /** One record's two terms in the short form R - u G - v Q. */
  method TryShort<P(==, !new)>(e: Engine<P>, records: seq<Record>, a: seq<int>, fullY: bool, i: nat, generator: int)
      returns (ok: bool, generator': int)
    requires e.Ready() && |a| == |records| <= MAX_BATCH && i < |records| && Coefficients(e.curve, a)
    requires InverseAt(e.curve, records, e.inversion[..], i)
    requires Summed(e, records, Rescaled(e.curve, records, a), fullY, i, generator)
    modifies e.points, e.scalars
    ensures ok ==> Summed(e, records, Rescaled(e.curve, records, a), fullY, i + 1, generator')
    ensures !ok ==> !BatchAccepts(e.curve, records, Rescaled(e.curve, records, a), fullY)
  {
    var w := e.inversion[i];
    generator' := generator;
    var nonce := NonceFromHint(e.curve, records[i], w.r, fullY);
    if nonce.None? {
      MissingItem(e.curve, records, Rescaled(e.curve, records, a), fullY, i);
      return false, generator;
    }
    var d;
    d, generator' := ShortTerms(e.curve, records, a, fullY, i, w, nonce.value,
                                Partial(e.curve, e.scalars[..], e.points[..], 2 * i), generator);
    Put(e, 2 * i, a[i], nonce.value);
    Put(e, 2 * i + 1, d, w.q);
    ok := true;
  }

  /** The short check is the plain check with coefficients a / s, whatever key advice is used. */
  method BatchShort<P(==, !new)>(e: Engine<P>, records: seq<Record>, a: seq<int>, fullY: bool, advised: bool) returns (ok: bool)
    requires e.Ready() && |a| == |records| && Coefficients(e.curve, a)
    modifies e.points, e.scalars, e.inversion
    ensures ok == (|records| <= 8192 && BatchAccepts(e.curve, records, Rescaled(e.curve, records, a), fullY))
  {
    ghost var b := Rescaled(e.curve, records, a);
    if |records| > MAX_BATCH {
      return false;
    }
    if |records| == 0 {
      NothingToCheck(e.curve, records, b, fullY);
      return true;
    }
    ok := Load(e, records, advised);
    if !ok {
      ghost var i :| 0 <= i < |records| && Parse(e.curve, records[i]).None?;
      MissingItem(e.curve, records, b, fullY, i);
      return;
    }
    LoadInverses(e, records);
    ghost var work := e.inversion[..];
    var generator := 0;
    ProgressStart(e.curve, records, b, fullY);
    assert e.scalars[..][..0] == [] && e.points[..][..0] == [];
    for i := 0 to |records|
      invariant Summed(e, records, b, fullY, i, generator)
      invariant e.inversion[..] == work
    {
      assert InverseAt(e.curve, records, work, i);
      ok, generator := TryShort(e, records, a, fullY, i, generator);
      if !ok {
        return;
      }
    }
    ok := Decide(e, records, b, fullY, generator);
  }
}
