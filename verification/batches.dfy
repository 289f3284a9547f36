/** The plain randomised check with one coefficient for each record, and its fallback to ordinary verification. */
module Batches {
  import opened Wrappers
  import opened Arith
  import opened Fields
  import opened Groups
  import opened Ecdsa
  import opened Engines
  import opened BatchEquation

  // What the sums stand for after the first i records.
  ghost predicate Progress<P(!new)>(c: Curve<P>, records: seq<Record>, a: seq<int>, fullY: bool, i: nat, m: P, gen: int)
    requires c.Lawful() && i <= |records| == |a| && Coefficients(c, a)
  {
    AllItems(c, records[..i], fullY) && Balanced(c, m, gen, Equation(c, ItemsOf(c, records[..i], fullY), a))
  }

  lemma ProgressStart<P(!new)>(c: Curve<P>, records: seq<Record>, a: seq<int>, fullY: bool)
    requires c.Lawful() && |records| == |a| && Coefficients(c, a)
    ensures Progress(c, records, a, fullY, 0, c.group.zero, 0)
  {
    BalanceStart(c);
  }

  // One more record brings one more item.
  lemma ItemsNext<P(!new)>(c: Curve<P>, records: seq<Record>, fullY: bool, i: nat)
    requires c.Lawful() && i < |records| && AllItems(c, records[..i], fullY) && ItemOf(c, records[i], fullY).Some?
    ensures AllItems(c, records[..i + 1], fullY)
    ensures ItemsOf(c, records[..i + 1], fullY) == ItemsOf(c, records[..i], fullY) + [ItemOf(c, records[i], fullY).value]
  {
    hide ItemOf;
    assert records[..i + 1] == records[..i] + [records[i]];
    assert ItemsOf(c, records[..i + 1], fullY) == ItemsOf(c, records[..i], fullY) + [ItemOf(c, records[i], fullY).value];
  }

  lemma {:induction false} ProgressStep<P(!new)>(c: Curve<P>, records: seq<Record>, a: seq<int>, fullY: bool, i: nat, m: P, gen: int)
    requires c.Lawful() && i < |records| == |a| && Coefficients(c, a) && Progress(c, records, a, fullY, i, m, gen)
    requires ItemOf(c, records[i], fullY).Some?
    ensures var it, f := ItemOf(c, records[i], fullY).value, c.group.scalars;
            InRange(c, it) && 0 <= f.Mul(a[i], it.s) && 0 <= f.Mul(a[i], it.r) < c.N() &&
            Progress(c, records, a, fullY, i + 1,
                     c.group.add(c.group.add(m, c.group.Mul(f.Mul(a[i], it.s), it.nonce)),
                                 c.group.Mul(KeyScalar(c, a[i], it.r), it.q)),
                     (gen + f.Mul(a[i], it.z)) % c.N())
  {
    hide ItemOf, AllItems, ItemsOf, Equation, Balanced, KeyScalar, Residual;
    var it := ItemOf(c, records[i], fullY).value;
    ItemRange(c, records[i], fullY);
    MulRange(c.group.scalars, a[i], it.s);
    MulRange(c.group.scalars, a[i], it.r);
    BalanceStep(c, m, gen, Equation(c, ItemsOf(c, records[..i], fullY), a), it, a[i]);
    EquationStep(c, ItemsOf(c, records[..i], fullY), it, a);
    ItemsNext(c, records, fullY, i);
  }

  // The same step in terms of the parsed record.
  lemma {:induction false} ParsedStep<P(!new)>(c: Curve<P>, records: seq<Record>, a: seq<int>, fullY: bool, i: nat, sig: Signed<P>, nonce: P,
                            m: P, gen: int, s: int, d: int, gen': int)
    requires c.Lawful() && i < |records| == |a| && Coefficients(c, a) && Progress(c, records, a, fullY, i, m, gen)
    requires Parse(c, records[i]) == Some(sig) && NonceFromHint(c, records[i], sig.r, fullY) == Some(nonce)
    requires s == c.group.scalars.Mul(a[i], sig.s) && gen' == (gen + c.group.scalars.Mul(a[i], sig.z)) % c.N()
    requires 0 <= c.group.scalars.Mul(a[i], sig.r) < c.N() && d == KeyScalar(c, a[i], sig.r)
    ensures 0 <= s && 0 <= d
    ensures Progress(c, records, a, fullY, i + 1, c.group.add(c.group.add(m, c.group.Mul(s, nonce)), c.group.Mul(d, sig.q)), gen')
  {
    hide Progress;
    assert ItemOf(c, records[i], fullY) == Some(Item(sig.s, sig.r, sig.z, sig.q, nonce));
    ProgressStep(c, records, a, fullY, i, m, gen);
  }

  /** The scalars of one record. */
  method RecordTerms<P(==, !new)>(c: Curve<P>, ghost records: seq<Record>, ghost a: seq<int>, fullY: bool, i: nat, coefficient: int,
                                  sig: Signed<P>, nonce: P, ghost m: P, gen: int) returns (s: int, d: int, gen': int)
    requires c.Lawful() && |a| == |records| && i < |records| && Coefficients(c, a) && coefficient == a[i]
    requires Parse(c, records[i]) == Some(sig) && NonceFromHint(c, records[i], sig.r, fullY) == Some(nonce)
    requires Progress(c, records, a, fullY, i, m, gen)
    ensures 0 <= s && 0 <= d
    ensures Progress(c, records, a, fullY, i + 1,
                     c.group.add(c.group.add(m, c.group.Mul(s, nonce)), c.group.Mul(d, sig.q)), gen')
  {
    var f := c.group.scalars;
    s := f.Mul(coefficient, sig.s);
    var product := f.Mul(coefficient, sig.r);
    MulRange(f, coefficient, sig.r);
    d := Negate(f.m, product);
    gen' := (gen + f.Mul(coefficient, sig.z)) % f.m;
    ParsedStep(c, records, a, fullY, i, sig, nonce, m, gen, s, d, gen');
  }

  // A record without an item settles the matter.
  lemma MissingItem<P(!new)>(c: Curve<P>, records: seq<Record>, a: seq<int>, fullY: bool, i: nat)
    requires c.Lawful() && i < |records| == |a| && Coefficients(c, a) && ItemOf(c, records[i], fullY).None?
    ensures !BatchAccepts(c, records, a, fullY)
  {}

  lemma ProgressDecides<P(!new)>(c: Curve<P>, records: seq<Record>, a: seq<int>, fullY: bool, m: P, gen: int)
    requires c.Lawful() && |records| == |a| && Coefficients(c, a) && Progress(c, records, a, fullY, |records|, m, gen)
    ensures 0 <= gen < c.N()
    ensures c.group.add(c.group.Mul(Negate(c.N(), gen), c.group.g), m) == c.group.zero <==> BatchAccepts(c, records, a, fullY)
  {
    assert records[..|records|] == records;
    BalanceDecides(c, m, gen, Equation(c, ItemsOf(c, records, fullY), a));
  }

  // The first k scalars are fit to multiply with.
  ghost predicate ScalarsReady(ss: seq<int>, k: nat)
    requires k <= |ss|
  {
    forall j :: 0 <= j < k ==> 0 <= ss[j]
  }

  ghost function Partial<P(!new)>(c: Curve<P>, ss: seq<int>, ps: seq<P>, k: nat): P
    requires k <= |ss| && k <= |ps| && ScalarsReady(ss, k)
  {
    MSum(c.group, ss[..k], ps[..k])
  }

  // One more term, over whatever stood in its place.
  lemma {:induction false} OneTerm<P(!new)>(c: Curve<P>, ss: seq<int>, ps: seq<P>, k: nat, s: int, p: P)
    requires k < |ss| && k < |ps| && ScalarsReady(ss, k) && 0 <= s
    ensures ScalarsReady(ss[k := s], k + 1)
    ensures Partial(c, ss[k := s], ps[k := p], k + 1) == c.group.add(Partial(c, ss, ps, k), c.group.Mul(s, p))
  {
    assert ss[k := s][..k + 1] == ss[..k] + [s] && ps[k := p][..k + 1] == ps[..k] + [p];
    assert (ss[..k] + [s])[..k] == ss[..k] && (ps[..k] + [p])[..k] == ps[..k];
  }

  /** Writes one term. */
  method Put<P(==, !new)>(e: Engine<P>, k: nat, s: int, p: P)
    requires e.Ready() && k < 2 * MAX_BATCH && ScalarsReady(e.scalars[..], k) && 0 <= s
    modifies e.points, e.scalars
    ensures ScalarsReady(e.scalars[..], k + 1)
    ensures e.scalars[..] == old(e.scalars[..])[k := s] && e.points[..] == old(e.points[..])[k := p]
    ensures Partial(e.curve, e.scalars[..], e.points[..], k + 1) ==
            e.curve.group.add(old(Partial(e.curve, e.scalars[..], e.points[..], k)), e.curve.group.Mul(s, p))
  {
    OneTerm(e.curve, e.scalars[..], e.points[..], k, s, p);
    ghost var ss, ps := e.scalars[..], e.points[..];
    e.points[k] := p;
    e.scalars[k] := s;
    assert e.scalars[..] == ss[k := s] && e.points[..] == ps[k := p];
  }

  /** The library's multi-multiplication: gen G plus the first k terms. */
  method EcmultMulti<P(==, !new)>(e: Engine<P>, gen: int, k: nat) returns (result: P)
    requires e.Ready() && 0 <= gen && k <= 2 * MAX_BATCH && ScalarsReady(e.scalars[..], k)
    ensures result == e.curve.group.add(e.curve.group.Mul(gen, e.curve.group.g), Partial(e.curve, e.scalars[..], e.points[..], k))
  {
    assert e.scalars[..][..k] == e.scalars[..k] && e.points[..][..k] == e.points[..k];
    result := e.curve.group.add(e.curve.group.Mul(gen, e.curve.group.g), MSum(e.curve.group, e.scalars[..k], e.points[..k]));
  }

  /** Adds record i's two terms and its share of the generator. */
  method AddRecord<P(==, !new)>(e: Engine<P>, records: seq<Record>, a: seq<int>, fullY: bool, i: nat,
                                sig: Signed<P>, nonce: P, generator: int) returns (generator': int)
    requires e.Ready() && |a| == |records| <= MAX_BATCH && i < |records| && Coefficients(e.curve, a)
    requires Parse(e.curve, records[i]) == Some(sig) && NonceFromHint(e.curve, records[i], sig.r, fullY) == Some(nonce)
    requires ScalarsReady(e.scalars[..], 2 * i)
    requires Progress(e.curve, records, a, fullY, i, Partial(e.curve, e.scalars[..], e.points[..], 2 * i), generator)
    modifies e.points, e.scalars
    ensures ScalarsReady(e.scalars[..], 2 * i + 2)
    ensures Progress(e.curve, records, a, fullY, i + 1, Partial(e.curve, e.scalars[..], e.points[..], 2 * i + 2), generator')
  {
    var s, d;
    s, d, generator' := RecordTerms(e.curve, records, a, fullY, i, a[i], sig, nonce,
                                    Partial(e.curve, e.scalars[..], e.points[..], 2 * i), generator);
    Put(e, 2 * i, s, nonce);
    Put(e, 2 * i + 1, d, sig.q);
  }

  // The buffers stand for the equation of the first i records.
  ghost predicate Summed<P(!new)>(e: Engine<P>, records: seq<Record>, a: seq<int>, fullY: bool, i: nat, generator: int)
    requires e.Ready() && i <= |records| == |a| <= MAX_BATCH && Coefficients(e.curve, a)
    reads e.points, e.scalars
  {
    && ScalarsReady(e.scalars[..], 2 * i)
    && Progress(e.curve, records, a, fullY, i, Partial(e.curve, e.scalars[..], e.points[..], 2 * i), generator)
  }

  /** One turn of the loop; a record that does not parse, or whose hint does not, ends it. */
  method TryRecord<P(==, !new)>(e: Engine<P>, records: seq<Record>, a: seq<int>, fullY: bool, i: nat, generator: int)
      returns (ok: bool, generator': int)
    requires e.Ready() && |a| == |records| <= MAX_BATCH && i < |records| && Coefficients(e.curve, a)
    requires Summed(e, records, a, fullY, i, generator)
    modifies e.points, e.scalars
    ensures ok ==> Summed(e, records, a, fullY, i + 1, generator')
    ensures !ok ==> !BatchAccepts(e.curve, records, a, fullY)
  {
    generator' := generator;
    var parsed := Parse(e.curve, records[i]);
    if parsed.None? {
      MissingItem(e.curve, records, a, fullY, i);
      return false, generator;
    }
    var nonce := NonceFromHint(e.curve, records[i], parsed.value.r, fullY);
    if nonce.None? {
      MissingItem(e.curve, records, a, fullY, i);
      return false, generator;
    }
    generator' := AddRecord(e, records, a, fullY, i, parsed.value, nonce.value, generator);
    ok := true;
  }

  /** The closing multi-multiplication decides the equation. */
  method Decide<P(==, !new)>(e: Engine<P>, records: seq<Record>, ghost a: seq<int>, fullY: bool, generator: int) returns (ok: bool)
    requires e.Ready() && |a| == |records| <= MAX_BATCH && Coefficients(e.curve, a)
    requires Summed(e, records, a, fullY, |records|, generator)
    ensures ok == BatchAccepts(e.curve, records, a, fullY)
  {
    ProgressDecides(e.curve, records, a, fullY, Partial(e.curve, e.scalars[..], e.points[..], 2 * |records|), generator);
    var result := EcmultMulti(e, Negate(e.curve.N(), generator), 2 * |records|);
    ok := result == e.curve.group.zero;
  }

  lemma NothingToCheck<P(!new)>(c: Curve<P>, records: seq<Record>, a: seq<int>, fullY: bool)
    requires c.Lawful() && |records| == |a| == 0
    ensures BatchAccepts(c, records, a, fullY)
  {}

  /** The randomised check with one coefficient for each record. */
  method Batch<P(==, !new)>(e: Engine<P>, records: seq<Record>, a: seq<int>, fullY: bool) returns (ok: bool)
    requires e.Ready() && |a| == |records| && Coefficients(e.curve, a)
    modifies e.points, e.scalars
    ensures ok == (|records| <= 8192 && BatchAccepts(e.curve, records, a, fullY))
  {
    if |records| > MAX_BATCH {
      return false;
    }
    if |records| == 0 {
      NothingToCheck(e.curve, records, a, fullY);
      return true;
    }
    var generator := 0;
    ProgressStart(e.curve, records, a, fullY);
    assert e.scalars[..][..0] == [] && e.points[..][..0] == [];
    for i := 0 to |records|
      invariant Summed(e, records, a, fullY, i, generator)
    {
      ok, generator := TryRecord(e, records, a, fullY, i, generator);
      if !ok {
        return;
      }
    }
    ok := Decide(e, records, a, fullY, generator);
  }

  /** Honest advice for valid records is accepted under every choice of coefficients. */
  lemma HonestAdviceAccepts<P(!new)>(c: Curve<P>, raw: seq<Record>, records: seq<Record>, a: seq<int>, fullY: bool)
    requires c.Lawful() && |raw| == |records| == |a| && Coefficients(c, a) && AllOrdinary(c, raw)
    requires forall i :: 0 <= i < |raw| ==> records[i] == Advised(c, raw[i])
    ensures BatchAccepts(c, records, a, fullY)
  {
    forall i | 0 <= i < |raw|
      ensures ItemOf(c, records[i], fullY).Some?
      ensures InRange(c, ItemOf(c, records[i], fullY).value)
      ensures Residual(c, ItemOf(c, records[i], fullY).value) == c.group.zero
    {
      AdviceWorks(c, raw[i], fullY);
      var sig := Parse(c, raw[i]).value;
      ResidualZero(c, sig, ResultPoint(c, sig));
    }
    ZeroResidualsAccept(c, records, a, fullY);
  }

  /** The ordinary verification of one record. */
  method OrdinaryCheck<P(==, !new)>(e: Engine<P>, rec: Record) returns (ok: bool)
    requires e.Ready()
    ensures ok == Ordinary(e.curve, rec)
  {
    var parsed := Parse(e.curve, rec);
    if parsed.None? {
      return false;
    }
    var sig := parsed.value;
    ParsedRange(e.curve, rec);
    ok := e.VerifyPreinverted(Work(sig.r, sig.s, sig.z, 1, e.curve.group.scalars.inv(sig.s), sig.q, 0), sig);
  }

  /**
   * The batch with its fallback: a valid record is never refused, and when the
   * batch rejects every verdict is the ordinary one.
   */
  method WithFallback<P(==, !new)>(e: Engine<P>, records: seq<Record>, a: seq<int>, fullY: bool) returns (out: seq<bool>)
    requires e.Ready() && |a| == |records| && Coefficients(e.curve, a)
    modifies e.points, e.scalars
    ensures |out| == |records|
    ensures forall i :: 0 <= i < |out| ==>
              out[i] == (Ordinary(e.curve, records[i]) || (|records| <= 8192 && BatchAccepts(e.curve, records, a, fullY)))
  {
    var accepted := Batch(e, records, a, fullY);
    if accepted {
      return seq(|records|, _ => true);
    }
    out := [];
    for i := 0 to |records|
      invariant |out| == i && forall j :: 0 <= j < i ==> out[j] == Ordinary(e.curve, records[j])
    {
      var ok := OrdinaryCheck(e, records[i]);
      out := out + [ok];
    }
  }
}
