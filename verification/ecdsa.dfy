/**
 ECDSA records, the ordinary verdict of section 4.1.4 of SEC 1 v2.0, and the
 one-byte nonce hint. The curve is an abstract prime-order group whose nonzero
 points have affine coordinates; library calls appear only through what they
 promise.
 */
module Ecdsa {
  import opened Wrappers
  import opened Arith
  import opened Fields
  import opened Groups
  import CurveFormulas

  type Word256 = x: int | 0 <= x < 0x1_0000_0000_0000_0000_0000_0000_0000_0000_0000_0000_0000_0000_0000_0000_0000_0000
  type Key = s: seq<Octet> | |s| == 33 witness seq(33, _ => 0)

  // hint: bit 0 is the parity of y, bit 1 says x = r + n instead of r.
  datatype Record = Record(msg: Word256, sigR: Word256, sigS: Word256, pub: Key, hint: Octet, y: Word256, qy: Word256)

  datatype Curve<!P(==, !new)> = Curve(group: Group<P>, base: Field, x: P -> int, y: P -> int, at: (int, int) -> P,
                                       root: (int, bool) -> Option<int>)
  {
    ghost predicate Solves(vx: int, vy: int)
      requires base.m > 1
    {
      0 <= vx < base.m && 0 <= vy < base.m && CurveFormulas.OnCurve(base.m, vx, vy, 1)
    }

    // Every point but zero has coordinates, and every solution is such a point.
    ghost predicate AffineAt(a: P)
      requires base.m > 1
    {
      a != group.zero ==> Solves(x(a), y(a)) && at(x(a), y(a)) == a
    }

    ghost predicate PointAt(vx: int, vy: int)
      requires base.m > 1
    {
      Solves(vx, vy) ==> at(vx, vy) != group.zero && x(at(vx, vy)) == vx && y(at(vx, vy)) == vy
    }

    // Decompression finds the solution of the wanted parity exactly when there is one.
    ghost predicate RootAt(vx: int, odd: bool)
      requires base.m > 1
    {
      match root(vx, odd)
      case Some(vy) => Solves(vx, vy) && (vy % 2 == 1) == odd
      case None => forall vy {:trigger Solves(vx, vy)} :: Solves(vx, vy) ==> (vy % 2 == 1) != odd
    }

    ghost predicate Lawful() {
      && group.Lawful() && base.Lawful()
      && ModuliFit(base.m, group.scalars.m)
      && (forall a {:trigger AffineAt(a)} :: AffineAt(a))
      && (forall vx, vy {:trigger PointAt(vx, vy)} :: PointAt(vx, vy))
      && (forall vx, odd {:trigger RootAt(vx, odd)} :: RootAt(vx, odd))
    }

    function N(): int { group.scalars.m }

    // The curve equation, as a test.
    predicate OnCurve(vx: int, vy: int)
      requires base.m > 1
    {
      vy * vy % base.m == (vx * vx * vx + 7) % base.m
    }
  }

  // How the field prime and the group order lie to each other and to 2^256.
  predicate ModuliFit(p: int, n: int) {
    p % 2 == 1 && n < p < 2 * n && p <= 0x1_0000_0000_0000_0000_0000_0000_0000_0000_0000_0000_0000_0000_0000_0000_0000_0000
  }

  // ---------- Coordinates ----------

  // Two square roots of the same parity are the same root.
  lemma RootsDiffer(f: Field, y1: int, y2: int)
    requires f.Lawful() && f.m % 2 == 1 && 0 <= y2 < y1 < f.m && y1 % 2 == y2 % 2
    ensures (y1 - y2) * (y1 + y2) % f.m != 0
  {
    var d, s := y1 - y2, y1 + y2;
    if s < f.m {
      NoZeroDivisors(f, d, s);
    } else {
      NoZeroDivisors(f, d, s - f.m);
      assert d * (s - f.m) == d * s + f.m * -d;
      ModShift(d * s, -d, f.m);
    }
  }

  lemma SquaresDiffer(f: Field, y1: int, y2: int)
    requires f.Lawful() && f.m % 2 == 1 && 0 <= y2 < y1 < f.m && y1 % 2 == y2 % 2
    ensures !Cong(f.m, CurveFormulas.Sq(y1), CurveFormulas.Sq(y2))
  {
    var a, b := CurveFormulas.Sq(y1), CurveFormulas.Sq(y2);
    RootsDiffer(f, y1, y2);
    assert (y1 - y2) * (y1 + y2) == a - b;
    if Cong(f.m, a, b) {
      CongSub(f.m, a, b, b, b);
      ModSmall(0, f.m);
    }
  }

  lemma RootUnique<P(!new)>(c: Curve<P>, vx: int, y1: int, y2: int)
    requires c.Lawful() && c.Solves(vx, y1) && c.Solves(vx, y2) && y1 % 2 == y2 % 2
    ensures y1 == y2
  {
    if y1 > y2 { SquaresDiffer(c.base, y1, y2); }
    if y2 > y1 { SquaresDiffer(c.base, y2, y1); }
  }

  lemma OnCurveMeans<P(!new)>(c: Curve<P>, vx: int, vy: int)
    requires c.Lawful() && 0 <= vx < c.base.m && 0 <= vy < c.base.m
    ensures c.OnCurve(vx, vy) <==> c.Solves(vx, vy)
  {
    assert CurveFormulas.Sixth(1) == 1;
  }

  // ---------- Parsing ----------

  function BigEndian(s: seq<Octet>): nat {
    if s == [] then 0 else 256 * BigEndian(s[..|s| - 1]) + s[|s| - 1]
  }

  // A checked signature with its key.
  datatype Signed<P> = Signed(r: int, s: int, z: int, q: P)

  // The library's decompression of a 33-byte key.
  function ParseKey<P(!new)>(c: Curve<P>, pub: Key): Option<P> {
    if pub[0] != 2 && pub[0] != 3 then None
    else
      var vx := BigEndian(pub[1..]);
      if vx >= c.base.m then None
      else
        match c.root(vx, pub[0] == 3)
        case None => None
        case Some(vy) => Some(c.at(vx, vy))
  }

  // Both halves below the order, the second brought to its low form, neither zero.
  function ParseSignature<P(!new)>(c: Curve<P>, rec: Record): Option<(int, int, int)>
    requires c.N() > 1
  {
    if rec.sigR >= c.N() || rec.sigS >= c.N() then None
    else
      var s := if rec.sigS > c.N() / 2 then c.N() - rec.sigS else rec.sigS;
      if rec.sigR == 0 || s == 0 then None
      else Some((rec.sigR, s, rec.msg % c.N()))
  }

  function Parse<P(!new)>(c: Curve<P>, rec: Record): Option<Signed<P>>
    requires c.N() > 1
  {
    match ParseKey(c, rec.pub)
    case None => None
    case Some(q) =>
      match ParseSignature(c, rec)
      case None => None
      case Some(t) => Some(Signed(t.0, t.1, t.2, q))
  }

  // The key rebuilt from an advised y, when it has the right parity and lies on the curve.
  function KeyFromHint<P(!new)>(c: Curve<P>, rec: Record): Option<P>
    requires c.base.m > 1
  {
    if rec.pub[0] != 2 && rec.pub[0] != 3 then None
    else
      var vx := BigEndian(rec.pub[1..]);
      if vx >= c.base.m || rec.qy >= c.base.m || (rec.qy % 2 == 1) != (rec.pub[0] == 3) || !c.OnCurve(vx, rec.qy) then None
      else Some(c.at(vx, rec.qy))
  }

  function ParseAdvised<P(!new)>(c: Curve<P>, rec: Record): Option<Signed<P>>
    requires c.N() > 1 && c.base.m > 1
  {
    match ParseSignature(c, rec)
    case None => None
    case Some(t) =>
      match KeyFromHint(c, rec)
      case Some(q) => Some(Signed(t.0, t.1, t.2, q))
      case None =>
        match ParseKey(c, rec.pub)
        case None => None
        case Some(q) => Some(Signed(t.0, t.1, t.2, q))
  }

  /** Whatever y is advised, the key point is the one decompression gives. */
  lemma AdvisedKeyIsReal<P(!new)>(c: Curve<P>, rec: Record)
    requires c.Lawful()
    ensures KeyFromHint(c, rec).Some? ==> KeyFromHint(c, rec) == ParseKey(c, rec.pub)
    ensures ParseAdvised(c, rec) == Parse(c, rec)
  {
    if KeyFromHint(c, rec).Some? {
      var vx := BigEndian(rec.pub[1..]);
      OnCurveMeans(c, vx, rec.qy);
      assert c.RootAt(vx, rec.pub[0] == 3);
      assert c.Solves(vx, rec.qy);
      RootUnique(c, vx, rec.qy, c.root(vx, rec.pub[0] == 3).value);
    }
  }

  /** Advice that is the real y is always taken. */
  lemma RealAdviceTaken<P(!new)>(c: Curve<P>, rec: Record)
    requires c.Lawful() && ParseKey(c, rec.pub).Some? && c.y(ParseKey(c, rec.pub).value) == rec.qy
    ensures KeyFromHint(c, rec) == ParseKey(c, rec.pub)
  {
    var vx, odd := BigEndian(rec.pub[1..]), rec.pub[0] == 3;
    assert c.RootAt(vx, odd);
    assert c.PointAt(vx, c.root(vx, odd).value);
    OnCurveMeans(c, vx, rec.qy);
  }

  lemma ParsedRange<P(!new)>(c: Curve<P>, rec: Record)
    requires c.Lawful() && Parse(c, rec).Some?
    ensures var p := Parse(c, rec).value; 0 < p.r < c.N() && 0 < p.s < c.N() && 0 <= p.z < c.N()
  {
    DivMod(rec.msg, c.N());
  }

  // ---------- The ordinary verdict ----------

  /** u1 G + u2 Q of step 5 of section 4.1.4. */
  function ResultPoint<P(!new)>(c: Curve<P>, sig: Signed<P>): P
    requires c.N() > 1 && 0 < sig.r < c.N() && 0 < sig.s < c.N() && 0 <= sig.z < c.N()
  {
    var w := c.group.scalars.inv(sig.s);
    c.group.add(c.group.Mul(c.group.scalars.Mul(w, sig.r), sig.q), c.group.Mul(c.group.scalars.Mul(w, sig.z), c.group.g))
  }

  ghost predicate Accepts<P(!new)>(c: Curve<P>, sig: Signed<P>)
    requires c.N() > 1 && 0 < sig.r < c.N() && 0 < sig.s < c.N() && 0 <= sig.z < c.N()
  {
    ResultPoint(c, sig) != c.group.zero && c.x(ResultPoint(c, sig)) % c.N() == sig.r
  }

  /** The verdict of section 4.1.4 on a record, parsing included. */
  ghost predicate Ordinary<P(!new)>(c: Curve<P>, rec: Record)
    requires c.Lawful()
  {
    Parse(c, rec).Some? && (ParsedRange(c, rec); Accepts(c, Parse(c, rec).value))
  }

  /** Comparing x with r and then r + n is the test x mod n = r. */
  lemma TwoCandidates<P(!new)>(c: Curve<P>, r: int, a: P)
    requires c.Lawful() && 0 < r < c.N() && a != c.group.zero
    ensures c.x(a) % c.N() == r <==> (c.x(a) == r || (r < c.base.m - c.N() && c.x(a) == r + c.N()))
  {
    assert c.AffineAt(a);
    var vx, n := c.x(a), c.N();
    if vx < n { ModSmall(vx, n); } else { DivModUnique(vx, n, 1, vx - n); }
  }

  // ---------- Nonce hints ----------

  function NonceFromHint<P(!new)>(c: Curve<P>, rec: Record, r: int, fullY: bool): Option<P>
    requires c.base.m > 1
  {
    if rec.hint > 3 || r >= c.base.m then None
    else if rec.hint / 2 % 2 == 1 && r >= c.base.m - c.N() then None
    else
      var vx := if rec.hint / 2 % 2 == 1 then r + c.N() else r;
      if !fullY then
        match c.root(vx, rec.hint % 2 == 1)
        case None => None
        case Some(vy) => Some(c.at(vx, vy))
      else if rec.y >= c.base.m || rec.y % 2 != rec.hint % 2 || !c.OnCurve(vx, rec.y) then None
      else Some(c.at(vx, rec.y))
  }

  /** A rebuilt nonce is a nonzero point whose x reduces to r: the x half of the verdict is already decided. */
  lemma NonceMatches<P(!new)>(c: Curve<P>, rec: Record, r: int, fullY: bool)
    requires c.Lawful() && 0 < r < c.N() && NonceFromHint(c, rec, r, fullY).Some?
    ensures var a := NonceFromHint(c, rec, r, fullY).value; a != c.group.zero && c.x(a) % c.N() == r
  {
    var vx := if rec.hint / 2 % 2 == 1 then r + c.N() else r;
    var vy := if fullY then rec.y else c.root(vx, rec.hint % 2 == 1).value;
    if fullY { OnCurveMeans(c, vx, vy); } else { assert c.RootAt(vx, rec.hint % 2 == 1); }
    assert c.PointAt(vx, vy);
    TwoCandidates(c, r, c.at(vx, vy));
  }

  /** The advice for a point: parity of y, and whether x lies above the order. */
  function Hinted<P(!new)>(c: Curve<P>, rec: Record, a: P): (h: Record)
    requires c.Lawful() && a != c.group.zero
  {
    assert c.AffineAt(a);
    rec.(hint := c.y(a) % 2 + (if c.x(a) >= c.N() then 2 else 0), y := c.y(a))
  }

  /** The hint of a point rebuilds that point, in both the x = r and the x = r + n case. */
  lemma HintRoundTrip<P(!new)>(c: Curve<P>, rec: Record, r: int, a: P, fullY: bool)
    requires c.Lawful() && a != c.group.zero && 0 < r < c.N() && c.x(a) % c.N() == r
    ensures NonceFromHint(c, Hinted(c, rec, a), r, fullY) == Some(a)
  {
    assert c.AffineAt(a);
    TwoCandidates(c, r, a);
    var vx, vy := c.x(a), c.y(a);
    OnCurveMeans(c, vx, vy);
    if !fullY {
      assert c.RootAt(vx, vy % 2 == 1);
      RootUnique(c, vx, vy, c.root(vx, vy % 2 == 1).value);
    }
  }
}
