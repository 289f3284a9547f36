/**
 What a record says, in the terms of the standards: the key point and the three
 scalars that are read from its bytes, the verdict of section 4.1.4 of SEC 1
 v2.0 over them, and the points that hints stand for.
 */
module Verdicts {
  import opened Wrappers
  import opened Arith
  import opened Fields
  import opened Groups
  import opened Ecdsa
  import opened Counts

  // ---------- Big-endian numbers ----------

  // v has the bytes s, the first one the most significant.
  ghost predicate NumberOf(s: seq<Octet>, v: int) {
    0 <= v < Pow256(|s|) && forall i {:trigger s[i]} :: 0 <= i < |s| ==> v / Pow256(|s| - 1 - i) % 256 == s[i]
  }

  lemma DigitsUp(b: Octet, n: nat, p: nat)
    requires p > 0
    ensures (256 * n + b) / (256 * p) == n / p
  {
    DivMod(n, p);
    var q, r := n / p, n % p;
    assert 256 * n + b == 256 * p * q + (256 * r + b);
    DivModUnique(256 * n + b, 256 * p, q, 256 * r + b);
  }

  lemma DigitKept(n: nat, b: Octet, e: nat)
    requires e > 0
    ensures (256 * n + b) / Pow256(e) % 256 == n / Pow256(e - 1) % 256
  {
    assert Pow256(e) == 256 * Pow256(e - 1);
    DigitsUp(b, n, Pow256(e - 1));
  }

  lemma {:induction false} BigEndianIsNumber(s: seq<Octet>)
    ensures NumberOf(s, BigEndian(s))
  {
    if s != [] {
      var k := |s| - 1;
      var front, n := s[..k], BigEndian(s[..k]);
      BigEndianIsNumber(front);
      assert BigEndian(s) == 256 * n + s[k];
      assert Pow256(k + 1) == 256 * Pow256(k) && Pow256(0) == 1;
      forall i | 0 <= i < k ensures BigEndian(s) / Pow256(k - i) % 256 == s[i] {
        DigitKept(n, s[k], k - i);
        assert front[i] == s[i];
      }
      assert BigEndian(s) % 256 == s[k];
    }
  }

  /** A byte string has only one number. */
  lemma {:induction false} NumberUnique(s: seq<Octet>, v: int)
    requires NumberOf(s, v)
    ensures v == BigEndian(s)
  {
    if s == [] {
      assert Pow256(0) == 1;
    } else {
      var k := |s| - 1;
      assert Pow256(k + 1) == 256 * Pow256(k) && Pow256(0) == 1;
      assert v % 256 == s[k];
      assert v == 256 * (v / 256) + s[k];
      forall i | 0 <= i < k ensures v / 256 / Pow256(k - 1 - i) % 256 == s[..k][i] {
        DigitKept(v / 256, s[k], k - i);
        assert v / Pow256(k - i) % 256 == s[i];
      }
      NumberUnique(s[..k], v / 256);
    }
  }

  // ---------- Keys and signatures ----------

  // q is the point a compressed key names: x from the last 32 bytes, the parity of y from the first.
  ghost predicate NamesPoint<P(!new)>(c: Curve<P>, pub: Key, q: P) {
    q != c.group.zero && NumberOf(pub[1..], c.x(q)) && (pub[0] == 2 || pub[0] == 3) && c.y(q) % 2 == pub[0] - 2
  }

  /** Decompression yields the named point, and fails exactly when no point is named. */
  lemma KeyMeans<P(!new)>(c: Curve<P>, pub: Key, q: P)
    requires c.Lawful()
    ensures ParseKey(c, pub) == Some(q) <==> NamesPoint(c, pub, q)
  {
    var vx, odd := BigEndian(pub[1..]), pub[0] == 3;
    BigEndianIsNumber(pub[1..]);
    assert c.RootAt(vx, odd);
    if ParseKey(c, pub) == Some(q) {
      assert c.PointAt(vx, c.root(vx, odd).value);
    }
    if NamesPoint(c, pub, q) {
      NumberUnique(pub[1..], c.x(q));
      assert c.AffineAt(q);
      RootUnique(c, vx, c.y(q), c.root(vx, odd).value);
    }
  }

  /** The advised y is used exactly when it is the y of the named point. */
  lemma AdviceMeans<P(!new)>(c: Curve<P>, rec: Record, q: P)
    requires c.Lawful()
    ensures KeyFromHint(c, rec) == Some(q) <==> NamesPoint(c, rec.pub, q) && c.y(q) == rec.qy
  {
    KeyMeans(c, rec.pub, q);
    AdvisedKeyIsReal(c, rec);
    if KeyFromHint(c, rec) == Some(q) {
      OnCurveMeans(c, BigEndian(rec.pub[1..]), rec.qy);
      assert c.PointAt(BigEndian(rec.pub[1..]), rec.qy);
    }
    if NamesPoint(c, rec.pub, q) && c.y(q) == rec.qy { RealAdviceTaken(c, rec); }
  }

  // The scalars and the key that are read from a record; s is brought to its low form.
  ghost predicate Reads<P(!new)>(c: Curve<P>, rec: Record, sig: Signed<P>)
    requires c.N() > 1
  {
    && NamesPoint(c, rec.pub, sig.q)
    && 0 < rec.sigR < c.N() && sig.r == rec.sigR
    && 0 < rec.sigS < c.N() && (sig.s == rec.sigS || sig.s == c.N() - rec.sigS) && 2 * sig.s <= c.N()
    && 0 <= sig.z < c.N() && Cong(c.N(), sig.z, rec.msg)
  }

  /** Parsing reads a record's scalars and key, and fails exactly when there are none to read. */
  lemma ParseMeans<P(!new)>(c: Curve<P>, rec: Record, sig: Signed<P>)
    requires c.Lawful()
    ensures Parse(c, rec) == Some(sig) <==> Reads(c, rec, sig)
  {
    KeyMeans(c, rec.pub, sig.q);
    DivMod(rec.msg, c.N());
    ModSmall(rec.msg % c.N(), c.N());
    if Reads(c, rec, sig) {
      ModSmall(sig.z, c.N());
    }
  }

  // ---------- The verdict ----------

  // Steps 4 to 8 of section 4.1.4 of SEC 1 v2.0, w being the inverse of s.
  ghost predicate Verifies<P(!new)>(c: Curve<P>, sig: Signed<P>, w: int)
    requires c.N() > 1
  {
    && 0 <= w < c.N() && w * sig.s % c.N() == 1
    && var g, u1, u2 := c.group, w * sig.z % c.N(), w * sig.r % c.N();
       0 <= u1 && 0 <= u2 &&
       var point := g.add(g.Mul(u1, g.g), g.Mul(u2, sig.q));
       point != g.zero && c.x(point) % c.N() == sig.r
  }

  ghost predicate Verified<P(!new)>(c: Curve<P>, rec: Record, sig: Signed<P>, w: int)
    requires c.N() > 1
  {
    Reads(c, rec, sig) && Verifies(c, sig, w)
  }

  lemma VerifiesExactly<P(!new)>(c: Curve<P>, sig: Signed<P>, w: int)
    requires c.Lawful() && 0 < sig.r < c.N() && 0 < sig.s < c.N() && 0 <= sig.z < c.N()
    requires 0 <= w < c.N() && w * sig.s % c.N() == 1
    ensures Verifies(c, sig, w) <==> Accepts(c, sig)
  {
    var f, g := c.group.scalars, c.group;
    assert f.Mul(sig.s, w) == 1 by { assert sig.s * w == w * sig.s; }
    InverseUnique(f, sig.s, w);
    MulRange(f, w, sig.r);
    MulRange(f, w, sig.z);
    Comm(g, g.Mul(f.Mul(w, sig.r), sig.q), g.Mul(f.Mul(w, sig.z), g.g));
  }

  lemma InverseFits<P(!new)>(c: Curve<P>, s: int) returns (w: int)
    requires c.Lawful() && 0 < s < c.N()
    ensures 0 <= w < c.N() && w * s % c.N() == 1
  {
    w := c.group.scalars.inv(s);
    Inverse(c.group.scalars, s);
    assert s * w == w * s;
  }

  /** The ordinary verdict is the standard's, on what is read from the record. */
  lemma OrdinaryMeans<P(!new)>(c: Curve<P>, rec: Record)
    requires c.Lawful()
    ensures Ordinary(c, rec) <==> exists sig, w {:trigger Verified(c, rec, sig, w)} :: Verified(c, rec, sig, w)
  {
    hide Parse, Reads, Accepts, Verifies;
    if Ordinary(c, rec) {
      ParsedRange(c, rec);
      var sig := Parse(c, rec).value;
      ParseMeans(c, rec, sig);
      var w := InverseFits(c, sig.s);
      VerifiesExactly(c, sig, w);
      assert Verified(c, rec, sig, w);
    }
    forall sig, w | Verified(c, rec, sig, w) ensures Ordinary(c, rec) { VerifiedIsOrdinary(c, rec, sig, w); }
  }

  lemma VerifiedIsOrdinary<P(!new)>(c: Curve<P>, rec: Record, sig: Signed<P>, w: int)
    requires c.Lawful() && Verified(c, rec, sig, w)
    ensures Ordinary(c, rec)
  {
    hide Parse, Reads, Accepts;
    ParseMeans(c, rec, sig);
    ParsedRange(c, rec);
    VerifiesExactly(c, sig, w);
  }

  // ---------- Nonce hints ----------

  // a is the point a hint stands for: bit 0 the parity of y, bit 1 that x lies above the order.
  ghost predicate HintStandsFor<P(!new)>(c: Curve<P>, rec: Record, r: int, fullY: bool, a: P)
    requires c.N() > 1
  {
    && a != c.group.zero && rec.hint <= 3
    && c.x(a) == (if rec.hint == 2 || rec.hint == 3 then r + c.N() else r)
    && c.y(a) % 2 == (if rec.hint == 1 || rec.hint == 3 then 1 else 0)
    && (fullY ==> c.y(a) == rec.y)
  }

  /** Rebuilding yields the point the hint stands for, and fails exactly when there is none. */
  lemma NonceMeans<P(!new)>(c: Curve<P>, rec: Record, r: int, fullY: bool, a: P)
    requires c.Lawful() && 0 < r < c.N()
    ensures NonceFromHint(c, rec, r, fullY) == Some(a) <==> HintStandsFor(c, rec, r, fullY, a)
  {
    var vx, odd := if rec.hint == 2 || rec.hint == 3 then r + c.N() else r, rec.hint % 2 == 1;
    assert c.RootAt(vx, odd);
    if NonceFromHint(c, rec, r, fullY) == Some(a) {
      var vy := if fullY then rec.y else c.root(vx, odd).value;
      if fullY { OnCurveMeans(c, vx, vy); }
      assert c.PointAt(vx, vy);
    }
    if HintStandsFor(c, rec, r, fullY, a) {
      assert c.AffineAt(a);
      OnCurveMeans(c, vx, c.y(a));
      if !fullY { RootUnique(c, vx, c.y(a), c.root(vx, odd).value); }
    }
  }

  /** A produced hint is below 4, stands for its point, and leaves the rest of the record alone. */
  lemma HintedMeans<P(!new)>(c: Curve<P>, rec: Record, a: P)
    requires c.Lawful() && a != c.group.zero
    ensures var h := Hinted(c, rec, a);
            && h.hint <= 3 && h.y == c.y(a)
            && (h.hint == 1 || h.hint == 3 <==> c.y(a) % 2 == 1)
            && (h.hint == 2 || h.hint == 3 <==> c.x(a) >= c.N())
            && h.msg == rec.msg && h.sigR == rec.sigR && h.sigS == rec.sigS && h.pub == rec.pub && h.qy == rec.qy
  {
    assert c.AffineAt(a);
  }
}
