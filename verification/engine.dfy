/** The engine's buffers, and the inversions and individual checks that fill them. */
module Engines {
  import opened Wrappers
  import opened Arith
  import opened Fields
  import opened Groups
  import opened Ecdsa
  import CurveFormulas

  const MAX_BATCH := 8192

  // One record's scalars on their way through a batch.
  datatype Work<P> = Work(r: int, s: int, z: int, prefix: int, inverse: int, q: P, group: nat)

  // The first k products of Montgomery's trick are in place.
  ghost predicate PrefixedAt<P>(f: Field, w: seq<Work<P>>, ss: seq<int>, j: nat)
    requires j < |ss| && j < |w| && f.m > 1
  {
    w[j].s == ss[j] && w[j].prefix == Product(f, ss[..j])
  }

  ghost predicate InvertedAt<P>(f: Field, w: seq<Work<P>>, ss: seq<int>, j: nat)
    requires j < |ss| && j < |w|
  {
    w[j].inverse == f.inv(ss[j])
  }

  // Everything about an entry but its running product and inverse.
  function Inputs<P>(w: Work<P>): (int, int, int, P, nat) { (w.r, w.s, w.z, w.q, w.group) }

  ghost predicate SameInputs<P>(w: seq<Work<P>>, v: seq<Work<P>>) {
    |w| == |v| && forall j {:trigger w[j]} {:trigger v[j]} :: 0 <= j < |w| ==> Inputs(w[j]) == Inputs(v[j])
  }

  ghost predicate Holds<P(!new)>(w: Work<P>, sig: Signed<P>) {
    w.r == sig.r && w.s == sig.s && w.z == sig.z && w.q == sig.q
  }

  ghost predicate ParsedAt<P(!new)>(c: Curve<P>, records: seq<Record>, w: seq<Work<P>>, valid: seq<bool>, j: nat)
    requires c.Lawful() && j < |records| && j < |w| && j < |valid|
  {
    && valid[j] == Parse(c, records[j]).Some?
    && (valid[j] ==> Holds(w[j], Parse(c, records[j]).value))
  }

  // What parsing leaves in the entry that is inverted: its s, or 1 for an invalid record.
  ghost function Inverted<P(!new)>(c: Curve<P>, records: seq<Record>): (ss: seq<int>)
    requires c.Lawful()
    ensures |ss| == |records| && Invertible(c.group.scalars, ss)
  {
    forall i | 0 <= i < |records| && Parse(c, records[i]).Some? ensures 0 < Parse(c, records[i]).value.s < c.N() {
      ParsedRange(c, records[i]);
    }
    seq(|records|, i requires 0 <= i < |records| => match Parse(c, records[i]) case Some(p) => p.s case None => 1)
  }

  // ---------- Points as the library returns them ----------

  datatype Jacobian = Infinity | Jacobian(x: int, y: int, z: int)

  ghost predicate Represents<P(!new)>(c: Curve<P>, j: Jacobian, a: P)
    requires c.Lawful()
  {
    match j
    case Infinity => a == c.group.zero
    case Jacobian(jx, jy, jz) =>
      && a != c.group.zero && 0 < jz < c.base.m
      && CurveFormulas.StandsFor(c.base.m, jx, jy, jz, c.x(a), c.y(a))
  }

  /** u2 Q + u1 G, at a scale of the library's choosing. */
  method Ecmult<P(!new)>(c: Curve<P>, q: P, u2: int, u1: int) returns (j: Jacobian)
    requires c.Lawful() && 0 <= u2 && 0 <= u1
    ensures Represents(c, j, c.group.add(c.group.Mul(u2, q), c.group.Mul(u1, c.group.g)))
  {
    var a := c.group.add(c.group.Mul(u2, q), c.group.Mul(u1, c.group.g));
    if a == c.group.zero {
      return Infinity;
    }
    assert 0 < 1 < c.base.m;
    var z :| 0 < z < c.base.m;
    j := Jacobian(c.x(a) * (z * z), c.y(a) * (z * z * z), z);
  }

  // One coordinate divided back: v = t * pw and pw * w = 1.
  lemma Divided(f: Field, t: int, pw: int, v: int, w: int)
    requires f.Lawful() && 0 <= t < f.m && Cong(f.m, v, t * pw) && pw * w % f.m == 1
    ensures f.Mul(v, w) == t
  {
    ModSmall(1, f.m);
    CongMul(f.m, v, t * pw, w, w);
    CongMul(f.m, t, t, pw * w, 1);
    assert t * pw * w == t * (pw * w);
    ModSmall(t, f.m);
  }

  lemma MulCong(f: Field, x: int, y: int)
    requires f.Lawful()
    ensures Cong(f.m, f.Mul(x, y), x * y)
  {
    ModAdd(x * y, 0, f.m);
  }

  // If z w = 1 then so are the products of their squares and of their cubes.
  lemma PowersOfOne(m: int, z: int, w: int)
    requires m > 1 && Cong(m, z * w, 1)
    ensures Cong(m, CurveFormulas.Sq(z) * (w * w), 1) && Cong(m, CurveFormulas.Cube(z) * (w * (w * w)), 1)
  {
    var u := z * w;
    CongMul(m, u, 1, u, 1);
    CongMul(m, u * u, 1, u, 1);
    assert u * u == CurveFormulas.Sq(z) * (w * w);
    assert u * u * u == CurveFormulas.Cube(z) * (w * (w * w));
  }

  // The inverse's square and cube invert the square and cube.
  lemma InversePowers(f: Field, z: int, w: int)
    requires f.Lawful() && 0 < z < f.m && w == f.inv(z)
    ensures CurveFormulas.Sq(z) * f.Mul(w, w) % f.m == 1
    ensures CurveFormulas.Cube(z) * f.Mul(w, f.Mul(w, w)) % f.m == 1
  {
    Inverse(f, z);
    ModSmall(1, f.m);
    var sq, cu, w2 := CurveFormulas.Sq(z), CurveFormulas.Cube(z), f.Mul(w, w);
    PowersOfOne(f.m, z, w);
    MulCong(f, w, w);
    MulCong(f, w, w2);
    CongMul(f.m, sq, sq, w2, w * w);
    CongMul(f.m, w, w, w2, w * w);
    CongMul(f.m, cu, cu, f.Mul(w, w2), w * (w * w));
  }

  /** Dividing by z^2 and z^3 recovers the affine coordinates. */
  lemma ToAffine<P(!new)>(c: Curve<P>, j: Jacobian, a: P, w: int)
    requires c.Lawful() && j.Jacobian? && Represents(c, j, a) && w == c.base.inv(j.z)
    ensures a != c.group.zero && c.Solves(c.x(a), c.y(a))
    ensures var f := c.base; f.Mul(j.x, f.Mul(w, w)) == c.x(a) && f.Mul(f.Mul(j.y, w), f.Mul(w, w)) == c.y(a)
  {
    var f := c.base;
    assert c.AffineAt(a);
    InversePowers(f, j.z, w);
    Divided(f, c.x(a), CurveFormulas.Sq(j.z), j.x, f.Mul(w, w));
    Divided(f, c.y(a), CurveFormulas.Cube(j.z), j.y, f.Mul(w, f.Mul(w, w)));
    MulAssoc(f, j.y, w, f.Mul(w, w));
  }

  // ---------- Advice ----------

  /** What a producer makes of a record: its hint, when the record is valid. */
  ghost function Advised<P(!new)>(c: Curve<P>, rec: Record): Record
    requires c.Lawful()
  {
    if Ordinary(c, rec) then ParsedRange(c, rec); Hinted(c, rec, ResultPoint(c, Parse(c, rec).value)) else rec
  }

  /** Advice for a valid record rebuilds the very point the ordinary check computes. */
  lemma AdviceWorks<P(!new)>(c: Curve<P>, rec: Record, fullY: bool)
    requires c.Lawful() && Ordinary(c, rec)
    ensures Parse(c, Advised(c, rec)) == Parse(c, rec)
    ensures var sig := Parse(c, rec).value;
            0 < sig.r < c.N() && 0 < sig.s < c.N() && 0 <= sig.z < c.N() &&
            NonceFromHint(c, Advised(c, rec), sig.r, fullY) == Some(ResultPoint(c, sig))
  {
    ParsedRange(c, rec);
    var sig := Parse(c, rec).value;
    HintRoundTrip(c, rec, sig.r, ResultPoint(c, sig), fullY);
  }

  // The scalar a coordinate reduces to, and whether it had to be reduced.
  lemma ReducedX<P(!new)>(c: Curve<P>, vx: int)
    requires c.Lawful() && 0 <= vx < c.base.m
    ensures vx % c.N() == if vx >= c.N() then vx - c.N() else vx
  {
    if vx < c.N() { ModSmall(vx, c.N()); } else { DivModUnique(vx, c.N(), 1, vx - c.N()); }
  }

  // The point the ordinary check computes, by its coordinates.
  ghost predicate ResultAffine<P(!new)>(c: Curve<P>, sig: Signed<P>, vx: int, vy: int)
    requires c.Lawful() && 0 < sig.r < c.N() && 0 < sig.s < c.N() && 0 <= sig.z < c.N()
  {
    var a := ResultPoint(c, sig);
    a != c.group.zero && c.x(a) == vx && c.y(a) == vy && c.Solves(vx, vy)
  }

  /** Advice from the affine coordinates of the result, or nothing when x does not reduce to r. */
  method HintFrom<P(!new)>(c: Curve<P>, rec: Record, r: int, vx: int, vy: int, ghost sig: Signed<P>)
      returns (ok: bool, out: Record)
    requires c.Lawful() && Parse(c, rec) == Some(sig) && r == sig.r
    requires 0 < sig.r < c.N() && 0 < sig.s < c.N() && 0 <= sig.z < c.N()
    requires ResultAffine(c, sig, vx, vy)
    ensures ok == Ordinary(c, rec) && out == Advised(c, rec)
  {
    ReducedX(c, vx);
    var carry := vx >= c.N();
    var reduced := if carry then vx - c.N() else vx;
    if reduced != r {
      return false, rec;
    }
    ok, out := true, rec.(hint := vy % 2 + (if carry then 2 else 0), y := vy);
  }

  /** One hint, normalised by its own inversion. */
  method ProduceHint<P(!new)>(c: Curve<P>, rec: Record) returns (ok: bool, out: Record)
    requires c.Lawful()
    ensures ok == Ordinary(c, rec) && out == Advised(c, rec)
  {
    var parsed := Parse(c, rec);
    if parsed.None? {
      return false, rec;
    }
    ParsedRange(c, rec);
    var sig := parsed.value;
    var w := c.group.scalars.inv(sig.s);
    var result := Ecmult(c, sig.q, c.group.scalars.Mul(w, sig.r), c.group.scalars.Mul(w, sig.z));
    if result.Infinity? {
      return false, rec;
    }
    var zinv := c.base.inv(result.z);
    ToAffine(c, result, ResultPoint(c, sig), zinv);
    var z2 := c.base.Mul(zinv, zinv);
    ok, out := HintFrom(c, rec, sig.r, c.base.Mul(result.x, z2), c.base.Mul(c.base.Mul(result.y, zinv), z2), sig);
  }

  // A record's result and the r kept for its x check.
  ghost predicate ResultAt<P(!new)>(c: Curve<P>, records: seq<Record>, w: seq<Work<P>>, results: seq<Jacobian>, j: nat)
    requires c.Lawful() && j < |records| && j < |w| && j < |results|
  {
    && Parse(c, records[j]).Some?
    && (ParsedRange(c, records[j]);
        Represents(c, results[j], ResultPoint(c, Parse(c, records[j]).value)) && w[j].r == Parse(c, records[j]).value.r)
  }

  ghost predicate AdvisedAt<P(!new)>(c: Curve<P>, before: seq<Record>, after: seq<Record>, i: nat)
    requires c.Lawful() && i < |before| && i < |after|
  {
    Ordinary(c, before[i]) && after[i] == Advised(c, before[i])
  }

  ghost predicate AllOrdinary<P(!new)>(c: Curve<P>, records: seq<Record>)
    requires c.Lawful()
  {
    forall i :: 0 <= i < |records| ==> Ordinary(c, records[i])
  }

  // The first k records carry their advice.
  ghost function AdvisedPrefix<P(!new)>(c: Curve<P>, records: seq<Record>, k: nat): (r: seq<Record>)
    requires c.Lawful() && k <= |records|
    ensures |r| == |records|
  {
    seq(|records|, i requires 0 <= i < |records| => if i < k then Advised(c, records[i]) else records[i])
  }

  lemma AdvisedSoFar<P(!new)>(c: Curve<P>, before: seq<Record>, after: seq<Record>, k: nat)
    requires c.Lawful() && k <= |before| == |after|
    requires forall i {:trigger AdvisedAt(c, before, after, i)} :: 0 <= i < k ==> AdvisedAt(c, before, after, i)
    requires forall i :: k <= i < |after| ==> after[i] == before[i]
    ensures after == AdvisedPrefix(c, before, k) && AllOrdinary(c, before[..k])
  {
    forall i | 0 <= i < k ensures Ordinary(c, before[i]) && after[i] == Advised(c, before[i]) {
      assert AdvisedAt(c, before, after, i);
    }
  }

  lemma ScalesNonzero<P(!new)>(c: Curve<P>, records: seq<Record>, w: seq<Work<P>>, results: seq<Jacobian>)
    requires c.Lawful() && |results| == |records| <= |w|
    requires forall i {:trigger ResultAt(c, records, w, results, i)} ::
               0 <= i < |records| ==> ResultAt(c, records, w, results, i)
    ensures Invertible(c.base, Zs(results))
  {
    forall i | 0 <= i < |results| ensures 0 < Zs(results)[i] < c.base.m {
      assert ResultAt(c, records, w, results, i);
    }
  }

  ghost predicate IsProduct(f: Field, xs: seq<int>, v: int, j: nat)
    requires j <= |xs| && f.m > 1
  {
    v == Product(f, xs[..j])
  }

  // The scales that are multiplied together, 1 for an infinity.
  ghost function Zs(results: seq<Jacobian>): (zs: seq<int>)
    ensures |zs| == |results|
  {
    seq(|results|, i requires 0 <= i < |results| => match results[i] case Infinity => 1 case Jacobian(_, _, jz) => jz)
  }

  class Engine<P(==, !new)> {
    const curve: Curve<P>
    const points: array<P>
    const scalars: array<int>
    const inversion: array<Work<P>>

    constructor (curve: Curve<P>)
      ensures this.curve == curve && Shaped() && fresh(points) && fresh(scalars) && fresh(inversion)
    {
      this.curve := curve;
      var zero := curve.group.zero;
      points := new P[2 * MAX_BATCH](_ => zero);
      scalars := new int[2 * MAX_BATCH](_ => 0);
      inversion := new Work<P>[MAX_BATCH](_ => Work(0, 0, 0, 0, 0, zero, 0));
    }

    ghost predicate Shaped() {
      && points.Length == 2 * MAX_BATCH && scalars.Length == 2 * MAX_BATCH && inversion.Length == MAX_BATCH
      && points as object != scalars as object && inversion as object !in {points as object, scalars as object}
    }

    ghost predicate Ready() {
      Shaped() && curve.Lawful()
    }

    /** The way back of Montgomery's trick: one inverse yields them all. */
    method InvertAll(n: nat, run: int, ghost ss: seq<int>)
      requires Ready() && n == |ss| <= MAX_BATCH && Invertible(curve.group.scalars, ss)
      requires 0 <= run < curve.N() && curve.group.scalars.Mul(run, Product(curve.group.scalars, ss)) == 1
      requires forall j {:trigger PrefixedAt(curve.group.scalars, inversion[..], ss, j)} ::
                 0 <= j < n ==> PrefixedAt(curve.group.scalars, inversion[..], ss, j)
      modifies inversion
      ensures forall j {:trigger InvertedAt(curve.group.scalars, inversion[..], ss, j)} ::
                0 <= j < n ==> InvertedAt(curve.group.scalars, inversion[..], ss, j)
      ensures SameInputs(inversion[..], old(inversion[..]))
    {
      ghost var f := curve.group.scalars;
      ghost var before := inversion[..];
      var running := run;
      var i := n;
      assert ss[..n] == ss;
      while i > 0
        invariant 0 <= i <= n && 0 <= running < curve.N()
        invariant f.Mul(running, Product(f, ss[..i])) == 1
        invariant SameInputs(inversion[..], before)
        invariant forall j :: 0 <= j < i ==> inversion[j] == before[j]
        invariant forall j {:trigger InvertedAt(f, inversion[..], ss, j)} :: i <= j < n ==> InvertedAt(f, inversion[..], ss, j)
      {
        i := i - 1;
        ghost var now := inversion[..];
        assert PrefixedAt(f, before, ss, i);
        Unwind(f, ss, i, running);
        inversion[i] := inversion[i].(inverse := curve.group.scalars.Mul(running, inversion[i].prefix));
        running := curve.group.scalars.Mul(running, inversion[i].s);
        forall j | i <= j < n ensures InvertedAt(f, inversion[..], ss, j) {
          if j > i { assert InvertedAt(f, now, ss, j); }
        }
      }
    }

    /** The batched inverses of a prepared list of scalars. */
    method ScalarInverseBatch(n: nat, ghost ss: seq<int>)
      requires Ready() && n == |ss| <= MAX_BATCH && Invertible(curve.group.scalars, ss)
      requires forall j :: 0 <= j < n ==> inversion[j].s == ss[j]
      modifies inversion
      ensures forall j {:trigger InvertedAt(curve.group.scalars, inversion[..], ss, j)} ::
                0 <= j < n ==> InvertedAt(curve.group.scalars, inversion[..], ss, j)
      ensures SameInputs(inversion[..], old(inversion[..]))
    {
      ghost var f := curve.group.scalars;
      ghost var before := inversion[..];
      var running := 1;
      for i := 0 to n
        invariant running == Product(f, ss[..i])
        invariant SameInputs(inversion[..], before)
        invariant forall j :: i <= j < n ==> inversion[j] == before[j]
        invariant forall j {:trigger PrefixedAt(f, inversion[..], ss, j)} :: 0 <= j < i ==> PrefixedAt(f, inversion[..], ss, j)
      {
        ghost var now := inversion[..];
        ProductStep(f, ss, i);
        inversion[i] := inversion[i].(prefix := running);
        running := curve.group.scalars.Mul(running, inversion[i].s);
        forall j | 0 <= j <= i ensures PrefixedAt(f, inversion[..], ss, j) {
          if j < i { assert PrefixedAt(f, now, ss, j); }
        }
      }
      assert ss[..n] == ss;
      ProductInvertible(f, ss);
      Inverse(f, running);
      MulComm(f, running, f.inv(running));
      InvertAll(n, curve.group.scalars.inv(running), ss);
    }

    /** The ordinary point and x check with a supplied inverse. */
    method VerifyPreinverted(w: Work<P>, ghost sig: Signed<P>) returns (ok: bool)
      requires curve.Lawful() && 0 < sig.r < curve.N() && 0 < sig.s < curve.N() && 0 <= sig.z < curve.N()
      requires Holds(w, sig) && w.inverse == curve.group.scalars.inv(sig.s)
      ensures ok == Accepts(curve, sig)
    {
      var u1, u2 := curve.group.scalars.Mul(w.inverse, w.z), curve.group.scalars.Mul(w.inverse, w.r);
      var result := curve.group.add(curve.group.Mul(u2, w.q), curve.group.Mul(u1, curve.group.g));
      if result == curve.group.zero {
        return false;
      }
      TwoCandidates(curve, w.r, result);
      var x := w.r;
      if x == curve.x(result) {
        return true;
      }
      if x >= curve.base.m - curve.N() {
        return false;
      }
      x := x + curve.N();
      return x == curve.x(result);
    }

    /** Parses every record, an invalid one standing in as 1, and inverts all at once. */
    method ParseAndInvert(records: seq<Record>, valid: array<bool>)
      requires Ready() && |records| <= MAX_BATCH && valid.Length >= |records|
      modifies inversion, valid
      ensures forall j {:trigger ParsedAt(curve, records, inversion[..], valid[..], j)} ::
                0 <= j < |records| ==> ParsedAt(curve, records, inversion[..], valid[..], j)
      ensures forall j {:trigger InvertedAt(curve.group.scalars, inversion[..], Inverted(curve, records), j)} ::
                0 <= j < |records| ==> InvertedAt(curve.group.scalars, inversion[..], Inverted(curve, records), j)
    {
      ghost var f, ss := curve.group.scalars, Inverted(curve, records);
      var product := 1;
      for i := 0 to |records|
        invariant product == Product(f, ss[..i])
        invariant forall j {:trigger PrefixedAt(f, inversion[..], ss, j)} :: 0 <= j < i ==> PrefixedAt(f, inversion[..], ss, j)
        invariant forall j {:trigger ParsedAt(curve, records, inversion[..], valid[..], j)} ::
                    0 <= j < i ==> ParsedAt(curve, records, inversion[..], valid[..], j)
      {
        ghost var now, validNow := inversion[..], valid[..];
        var parsed := Parse(curve, records[i]);
        valid[i] := parsed.Some?;
        var w := inversion[i];
        w := if parsed.Some? then w.(r := parsed.value.r, s := parsed.value.s, z := parsed.value.z, q := parsed.value.q)
             else w.(s := 1);
        ProductStep(f, ss, i);
        inversion[i] := w.(prefix := product);
        product := curve.group.scalars.Mul(product, w.s);
        forall j | 0 <= j <= i ensures PrefixedAt(f, inversion[..], ss, j) {
          if j < i { assert PrefixedAt(f, now, ss, j); }
        }
        forall j | 0 <= j <= i ensures ParsedAt(curve, records, inversion[..], valid[..], j) {
          if j < i { assert ParsedAt(curve, records, now, validNow, j); }
        }
      }
      assert ss[..|records|] == ss;
      ghost var parsed := inversion[..];
      ProductInvertible(f, ss);
      Inverse(f, product);
      MulComm(f, product, f.inv(product));
      InvertAll(|records|, curve.group.scalars.inv(product), ss);
      forall j | 0 <= j < |records| ensures ParsedAt(curve, records, inversion[..], valid[..], j) {
        assert ParsedAt(curve, records, parsed, valid[..], j);
        assert Inputs(inversion[j]) == Inputs(parsed[j]);
      }
    }

    /** The mask is the ordinary verdict of every record; an invalid one disturbs no other. */
    method BatchInversion(records: seq<Record>, valid: array<bool>)
      requires Ready() && |records| <= MAX_BATCH && valid.Length >= |records|
      modifies inversion, valid
      ensures forall i :: 0 <= i < |records| ==> valid[i] == Ordinary(curve, records[i])
    {
      if |records| == 0 {
        return;
      }
      ParseAndInvert(records, valid);
      ghost var work, parsed := inversion[..], valid[..];
      for i := 0 to |records|
        invariant inversion[..] == work
        invariant forall j :: 0 <= j < i ==> valid[j] == Ordinary(curve, records[j])
        invariant forall j :: i <= j < |records| ==> valid[j] == parsed[j]
      {
        assert ParsedAt(curve, records, work, parsed, i);
        assert InvertedAt(curve.group.scalars, work, Inverted(curve, records), i);
        if valid[i] {
          ParsedRange(curve, records[i]);
          valid[i] := VerifyPreinverted(inversion[i], Parse(curve, records[i]).value);
        }
      }
    }

    // ---------- Batched advice ----------

    /** Every record's result in Jacobian form, or failure at the first that does not parse. */
    method Results(records: array<Record>) returns (ok: bool, results: array<Jacobian>)
      requires Ready() && records.Length <= MAX_BATCH
      modifies inversion
      ensures fresh(results) && results.Length == records.Length
      ensures ok == forall i :: 0 <= i < records.Length ==> Parse(curve, records[i]).Some?
      ensures ok ==> forall i {:trigger ResultAt(curve, records[..], inversion[..], results[..], i)} ::
                       0 <= i < records.Length ==> ResultAt(curve, records[..], inversion[..], results[..], i)
    {
      hide Parse, Represents;
      var n := records.Length;
      results := new Jacobian[n](_ => Infinity);
      for i := 0 to n
        invariant forall j :: 0 <= j < i ==> Parse(curve, records[j]).Some?
        invariant forall j {:trigger ResultAt(curve, records[..], inversion[..], results[..], j)} ::
                    0 <= j < i ==> ResultAt(curve, records[..], inversion[..], results[..], j)
      {
        ghost var now, resultsNow := inversion[..], results[..];
        var parsed := Parse(curve, records[i]);
        if parsed.None? {
          return false, results;
        }
        ParsedRange(curve, records[i]);
        var sig := parsed.value;
        var w := curve.group.scalars.inv(sig.s);
        results[i] := Ecmult(curve, sig.q, curve.group.scalars.Mul(w, sig.r), curve.group.scalars.Mul(w, sig.z));
        inversion[i] := inversion[i].(r := sig.r);
        forall j | 0 <= j <= i ensures ResultAt(curve, records[..], inversion[..], results[..], j) {
          if j < i { assert ResultAt(curve, records[..], now, resultsNow, j); }
        }
      }
      ok := true;
    }

    /** The running products of the scales; infinities are passed over. */
    method ScaleProducts(results: array<Jacobian>, pref: array<int>) returns (acc: int)
      requires curve.Lawful() && Invertible(curve.base, Zs(results[..])) && pref.Length == results.Length
      modifies pref
      ensures acc == Product(curve.base, Zs(results[..]))
      ensures forall j {:trigger IsProduct(curve.base, Zs(results[..]), pref[j], j)} ::
                0 <= j < pref.Length ==> IsProduct(curve.base, Zs(results[..]), pref[j], j)
    {
      ghost var f, zs := curve.base, Zs(results[..]);
      acc := 1;
      for i := 0 to results.Length
        invariant acc == Product(f, zs[..i])
        invariant forall j {:trigger IsProduct(f, zs, pref[j], j)} :: 0 <= j < i ==> IsProduct(f, zs, pref[j], j)
      {
        pref[i] := acc;
        assert IsProduct(f, zs, pref[i], i);
        ProductStep(f, zs, i);
        ProductInvertible(f, zs[..i]);
        MulOne(f, acc);
        if !results[i].Infinity? {
          acc := curve.base.Mul(acc, results[i].z);
        }
      }
      assert zs[..results.Length] == zs;
    }

    /** The way back: every scale's inverse from the inverse of their product. */
    method ScaleInverses(results: array<Jacobian>, pref: array<int>, zinv: array<int>, inverse: int)
      requires curve.Lawful() && Invertible(curve.base, Zs(results[..]))
      requires pref.Length == zinv.Length == results.Length && pref != zinv
      requires 0 <= inverse < curve.base.m && curve.base.Mul(inverse, Product(curve.base, Zs(results[..]))) == 1
      requires forall j {:trigger IsProduct(curve.base, Zs(results[..]), pref[j], j)} ::
                 0 <= j < pref.Length ==> IsProduct(curve.base, Zs(results[..]), pref[j], j)
      modifies zinv
      ensures forall i :: 0 <= i < results.Length && results[i].Jacobian? ==> zinv[i] == curve.base.inv(results[i].z)
    {
      ghost var f, zs := curve.base, Zs(results[..]);
      var acc := inverse;
      var i := results.Length;
      assert zs[..i] == zs;
      while i > 0
        invariant 0 <= i <= results.Length && 0 <= acc < f.m && f.Mul(acc, Product(f, zs[..i])) == 1
        invariant forall j :: i <= j < results.Length && results[j].Jacobian? ==> zinv[j] == f.inv(results[j].z)
      {
        i := i - 1;
        assert IsProduct(f, zs, pref[i], i);
        Unwind(f, zs, i, acc);
        MulOne(f, acc);
        if results[i].Infinity? {
          continue;
        }
        zinv[i] := curve.base.Mul(acc, pref[i]);
        acc := curve.base.Mul(acc, results[i].z);
      }
    }

    /** Montgomery's trick over the scales of the results. */
    method Scales(results: array<Jacobian>) returns (zinv: array<int>)
      requires curve.Lawful() && Invertible(curve.base, Zs(results[..]))
      ensures fresh(zinv) && zinv.Length == results.Length
      ensures forall i :: 0 <= i < results.Length && results[i].Jacobian? ==> zinv[i] == curve.base.inv(results[i].z)
    {
      var pref := new int[results.Length];
      zinv := new int[results.Length];
      var acc := ScaleProducts(results, pref);
      ProductInvertible(curve.base, Zs(results[..]));
      Inverse(curve.base, acc);
      MulComm(curve.base, acc, curve.base.inv(acc));
      ScaleInverses(results, pref, zinv, curve.base.inv(acc));
    }

    /** One record's advice from its result and the inverse of its scale. */
    method HintOne(rec: Record, r: int, result: Jacobian, zinv: int) returns (ok: bool, out: Record)
      requires curve.Lawful() && Parse(curve, rec).Some? && r == Parse(curve, rec).value.r
      requires 0 < r < curve.N() && 0 < Parse(curve, rec).value.s < curve.N() && 0 <= Parse(curve, rec).value.z < curve.N()
      requires Represents(curve, result, ResultPoint(curve, Parse(curve, rec).value))
      requires result.Jacobian? ==> zinv == curve.base.inv(result.z)
      ensures ok == Ordinary(curve, rec) && out == Advised(curve, rec)
    {
      if result.Infinity? {
        return false, rec;
      }
      ghost var sig := Parse(curve, rec).value;
      ToAffine(curve, result, ResultPoint(curve, sig), zinv);
      var z2 := curve.base.Mul(zinv, zinv);
      var x := curve.base.Mul(result.x, z2);
      var y := curve.base.Mul(curve.base.Mul(result.y, zinv), z2);
      ok, out := HintFrom(curve, rec, r, x, y, sig);
    }

    /** Writes the advice record by record, stopping at the first that fails. */
    method WriteHints(records: array<Record>, results: array<Jacobian>, zinv: array<int>, ghost before: seq<Record>)
        returns (ok: bool, ghost done: nat)
      requires Ready() && results.Length == zinv.Length == records.Length <= MAX_BATCH
      requires records[..] == before
      requires forall i {:trigger ResultAt(curve, before, inversion[..], results[..], i)} ::
                 0 <= i < records.Length ==> ResultAt(curve, before, inversion[..], results[..], i)
      requires forall i :: 0 <= i < results.Length && results[i].Jacobian? ==> zinv[i] == curve.base.inv(results[i].z)
      modifies records
      ensures done <= records.Length && (ok ==> done == records.Length)
      ensures !ok ==> done < records.Length && !Ordinary(curve, before[done])
      ensures forall i {:trigger AdvisedAt(curve, before, records[..], i)} ::
                0 <= i < done ==> AdvisedAt(curve, before, records[..], i)
      ensures forall i :: done <= i < records.Length ==> records[i] == before[i]
    {
      done := 0;
      for i := 0 to records.Length
        invariant done == i
        invariant forall j {:trigger AdvisedAt(curve, before, records[..], j)} ::
                    0 <= j < i ==> AdvisedAt(curve, before, records[..], j)
        invariant forall j :: i <= j < records.Length ==> records[j] == before[j]
      {
        ghost var now := records[..];
        assert ResultAt(curve, before, inversion[..], results[..], i);
        ParsedRange(curve, before[i]);
        var hinted;
        ok, hinted := HintOne(records[i], inversion[i].r, results[i], zinv[i]);
        if !ok {
          return;
        }
        records[i] := hinted;
        forall j | 0 <= j <= i ensures AdvisedAt(curve, before, records[..], j) {
          if j < i { assert AdvisedAt(curve, before, now, j); }
        }
        done := i + 1;
      }
      ok := true;
    }

    /**
     * Batched advice succeeds exactly when the one-by-one producer succeeds on
     * every record, and then writes the same hints. On failure a prefix of
     * the records may already carry its hints.
     */
    method ProduceHintsBatch(records: array<Record>) returns (ok: bool, ghost done: nat)
      requires Ready() && records.Length <= MAX_BATCH
      modifies inversion, records
      ensures done <= records.Length && (ok ==> done == records.Length)
      ensures ok == AllOrdinary(curve, old(records[..]))
      ensures records[..] == AdvisedPrefix(curve, old(records[..]), done)
    {
      done := 0;
      ghost var before := records[..];
      if records.Length == 0 {
        return true, 0;
      }
      var results;
      ok, results := Results(records);
      if !ok {
        return;
      }
      assert records[..] == before;
      ScalesNonzero(curve, before, inversion[..], results[..]);
      var zinv := Scales(results);
      ok, done := WriteHints(records, results, zinv, before);
      AdvisedSoFar(curve, before, records[..], done);
    }
  }
}
