/**
 The randomised batch equation: one linear combination of all residuals
 s R - r Q - z G, and what accepting it means.
 */
module BatchEquation {
  import opened Wrappers
  import opened Arith
  import opened Fields
  import opened Groups
  import opened Ecdsa

  // One equation s R = r Q + z G; `nonce` is R.
  datatype Item<P> = Item(s: int, r: int, z: int, q: P, nonce: P)

  ghost predicate InRange<P(!new)>(c: Curve<P>, it: Item<P>) {
    0 <= it.s < c.N() && 0 <= it.r < c.N() && 0 <= it.z < c.N()
  }

  ghost function Target<P(!new)>(c: Curve<P>, it: Item<P>): P
    requires InRange(c, it)
  {
    c.group.add(c.group.Mul(it.r, it.q), c.group.Mul(it.z, c.group.g))
  }

  ghost function Residual<P(!new)>(c: Curve<P>, it: Item<P>): P
    requires InRange(c, it)
  {
    c.group.add(c.group.Mul(it.s, it.nonce), c.group.neg(Target(c, it)))
  }

  ghost predicate Coefficients<P(!new)>(c: Curve<P>, a: seq<int>) {
    forall i :: 0 <= i < |a| ==> 0 <= a[i] < c.N()
  }

  ghost predicate AllInRange<P(!new)>(c: Curve<P>, items: seq<Item<P>>) {
    forall i :: 0 <= i < |items| ==> InRange(c, items[i])
  }

  ghost function Terms<P(!new)>(c: Curve<P>, items: seq<Item<P>>, a: seq<int>): (ts: seq<P>)
    requires |items| <= |a| && AllInRange(c, items) && Coefficients(c, a)
    ensures |ts| == |items|
  {
    seq(|items|, i requires 0 <= i < |items| => c.group.Mul(a[i], Residual(c, items[i])))
  }

  ghost function Equation<P(!new)>(c: Curve<P>, items: seq<Item<P>>, a: seq<int>): P
    requires |items| <= |a| && AllInRange(c, items) && Coefficients(c, a)
  {
    c.group.Sum(Terms(c, items, a))
  }

  lemma EquationStep<P(!new)>(c: Curve<P>, items: seq<Item<P>>, it: Item<P>, a: seq<int>)
    requires |items| < |a| && AllInRange(c, items) && InRange(c, it) && Coefficients(c, a)
    ensures Equation(c, items + [it], a) == c.group.add(Equation(c, items, a), c.group.Mul(a[|items|], Residual(c, it)))
  {
    assert Terms(c, items + [it], a)[..|items|] == Terms(c, items, a);
  }

  // ---------- Residuals and verdicts ----------

  ghost function ItemFor<P(!new)>(sig: Signed<P>, nonce: P): Item<P> {
    Item(sig.s, sig.r, sig.z, sig.q, nonce)
  }

  // s (w a) = a when w is the inverse of s.
  lemma {:induction false} InverseUndoes<P(!new)>(c: Curve<P>, s: int, a: P)
    requires c.Lawful() && 0 < s < c.N()
    ensures c.group.scalars.inv(s) >= 0
    ensures c.group.Mul(s, c.group.Mul(c.group.scalars.inv(s), a)) == a
    ensures c.group.Mul(c.group.scalars.inv(s), c.group.Mul(s, a)) == a
  {
    var f, w := c.group.scalars, c.group.scalars.inv(s);
    Inverse(f, s);
    MulProduct(c.group, s, w, a);
    MulComm(f, s, w);
    MulProduct(c.group, w, s, a);
    assert c.group.Mul(1, a) == c.group.add(c.group.Mul(0, a), a);
    Zero(c.group, a);
  }

  lemma ResultScaled<P(!new)>(c: Curve<P>, sig: Signed<P>, nonce: P)
    requires c.Lawful() && 0 < sig.r < c.N() && 0 < sig.s < c.N() && 0 <= sig.z < c.N()
    ensures c.group.scalars.inv(sig.s) >= 0
    ensures ResultPoint(c, sig) == c.group.Mul(c.group.scalars.inv(sig.s), Target(c, ItemFor(sig, nonce)))
  {
    var f, w := c.group.scalars, c.group.scalars.inv(sig.s);
    Inverse(f, sig.s);
    MulProduct(c.group, w, sig.r, sig.q);
    MulProduct(c.group, w, sig.z, c.group.g);
    MulSum(c.group, w, c.group.Mul(sig.r, sig.q), c.group.Mul(sig.z, c.group.g));
  }

  lemma DifferenceZero<P(!new)>(c: Group<P>, a: P, b: P)
    requires c.Lawful()
    ensures c.add(a, c.neg(b)) == c.zero <==> a == b
  {
    Negates(c, b);
    if c.add(a, c.neg(b)) == c.zero { Cancel(c, a, b, c.neg(b)); }
  }

  /** The residual vanishes exactly when the nonce is the point the ordinary check computes. */
  lemma ResidualZero<P(!new)>(c: Curve<P>, sig: Signed<P>, nonce: P)
    requires c.Lawful() && 0 < sig.r < c.N() && 0 < sig.s < c.N() && 0 <= sig.z < c.N()
    ensures Residual(c, ItemFor(sig, nonce)) == c.group.zero <==> nonce == ResultPoint(c, sig)
  {
    var t := Target(c, ItemFor(sig, nonce));
    ResultScaled(c, sig, nonce);
    DifferenceZero(c.group, c.group.Mul(sig.s, nonce), t);
    InverseUndoes(c, sig.s, t);
    InverseUndoes(c, sig.s, nonce);
  }

  // The equation of a record, when both it and its hint parse.
  function ItemOf<P(!new)>(c: Curve<P>, rec: Record, fullY: bool): Option<Item<P>>
    requires c.N() > 1 && c.base.m > 1
  {
    match Parse(c, rec)
    case None => None
    case Some(sig) =>
      match NonceFromHint(c, rec, sig.r, fullY)
      case None => None
      case Some(nonce) => Some(Item(sig.s, sig.r, sig.z, sig.q, nonce))
  }

  lemma ItemRange<P(!new)>(c: Curve<P>, rec: Record, fullY: bool)
    requires c.Lawful() && ItemOf(c, rec, fullY).Some?
    ensures InRange(c, ItemOf(c, rec, fullY).value) && 0 < ItemOf(c, rec, fullY).value.s
  {
    ParsedRange(c, rec);
  }

  ghost predicate AllItems<P(!new)>(c: Curve<P>, records: seq<Record>, fullY: bool)
    requires c.Lawful()
  {
    forall i :: 0 <= i < |records| ==> ItemOf(c, records[i], fullY).Some?
  }

  ghost function ItemsOf<P(!new)>(c: Curve<P>, records: seq<Record>, fullY: bool): (items: seq<Item<P>>)
    requires c.Lawful() && AllItems(c, records, fullY)
    ensures |items| == |records| && AllInRange(c, items)
    ensures forall i :: 0 <= i < |items| ==> items[i] == ItemOf(c, records[i], fullY).value
  {
    forall i | 0 <= i < |records| ensures InRange(c, ItemOf(c, records[i], fullY).value) {
      ItemRange(c, records[i], fullY);
    }
    seq(|records|, i requires 0 <= i < |records| => ItemOf(c, records[i], fullY).value)
  }

  /** A vanishing residual is the ordinary verdict: a forged hint can only fail. */
  lemma ZeroResidualIsVerdict<P(!new)>(c: Curve<P>, rec: Record, fullY: bool)
    requires c.Lawful() && ItemOf(c, rec, fullY).Some?
    ensures InRange(c, ItemOf(c, rec, fullY).value)
    ensures Residual(c, ItemOf(c, rec, fullY).value) == c.group.zero ==> Ordinary(c, rec)
  {
    ParsedRange(c, rec);
    var sig := Parse(c, rec).value;
    var nonce := NonceFromHint(c, rec, sig.r, fullY).value;
    NonceMatches(c, rec, sig.r, fullY);
    ResidualZero(c, sig, nonce);
  }

  // ---------- What the batch decides ----------

  /** The decision of every variant: all records parse with their hints and the combination vanishes. */
  ghost predicate BatchAccepts<P(!new)>(c: Curve<P>, records: seq<Record>, a: seq<int>, fullY: bool)
    requires c.Lawful() && |a| == |records| && Coefficients(c, a)
  {
    AllItems(c, records, fullY) && Equation(c, ItemsOf(c, records, fullY), a) == c.group.zero
  }

  /** Completeness: when every residual vanishes, all coefficients accept. */
  lemma ZeroResidualsAccept<P(!new)>(c: Curve<P>, records: seq<Record>, a: seq<int>, fullY: bool)
    requires c.Lawful() && |a| == |records| && Coefficients(c, a) && AllItems(c, records, fullY)
    requires forall i :: 0 <= i < |records| ==> Residual(c, ItemsOf(c, records, fullY)[i]) == c.group.zero
    ensures BatchAccepts(c, records, a, fullY)
  {
    var items := ItemsOf(c, records, fullY);
    forall i | 0 <= i < |items| ensures Terms(c, items, a)[i] == c.group.zero {
      MulZeroPoint(c.group, a[i]);
    }
    SumZeros(c.group, Terms(c, items, a));
  }

  /** Soundness: with the other coefficients fixed, at most one value of a_i lets a nonzero residual through. */
  lemma AtMostOneCoefficient<P(!new)>(c: Curve<P>, items: seq<Item<P>>, a: seq<int>, i: nat, u: int, v: int)
    requires c.Lawful() && |a| == |items| && Coefficients(c, a) && AllInRange(c, items)
    requires i < |items| && 0 <= u < c.N() && 0 <= v < c.N()
    requires Residual(c, items[i]) != c.group.zero
    requires Equation(c, items, a[i := u]) == c.group.zero && Equation(c, items, a[i := v]) == c.group.zero
    ensures u == v
  {
    var d := Residual(c, items[i]);
    var tu, tv := Terms(c, items, a[i := u]), Terms(c, items, a[i := v]);
    assert tv == tu[i := c.group.Mul(v, d)];
    SumUpdate(c.group, tu, i, c.group.Mul(v, d));
    Zero(c.group, c.group.Mul(u, d));
    Zero(c.group, c.group.Mul(v, d));
    MulInjective(c.group, u, v, d);
  }

  /** The same on records: a record the ordinary check rejects survives at most one value of its coefficient. */
  lemma AtMostOneAccepts<P(!new)>(c: Curve<P>, records: seq<Record>, a: seq<int>, fullY: bool, i: nat, u: int, v: int)
    requires c.Lawful() && |a| == |records| && Coefficients(c, a) && i < |records|
    requires 0 <= u < c.N() && 0 <= v < c.N() && !Ordinary(c, records[i])
    requires BatchAccepts(c, records, a[i := u], fullY) && BatchAccepts(c, records, a[i := v], fullY)
    ensures u == v
  {
    ZeroResidualIsVerdict(c, records[i], fullY);
    AtMostOneCoefficient(c, ItemsOf(c, records, fullY), a, i, u, v);
  }

  // ---------- Sums of scalar multiples ----------

  function MSum<P(!new)>(c: Group<P>, ss: seq<int>, ps: seq<P>): P
    requires |ss| == |ps| && forall i :: 0 <= i < |ss| ==> 0 <= ss[i]
  {
    if ss == [] then c.zero else c.add(MSum(c, ss[..|ss| - 1], ps[..|ps| - 1]), c.Mul(ss[|ss| - 1], ps[|ps| - 1]))
  }

  lemma {:induction false} MSumZeros<P(!new)>(c: Group<P>, ss: seq<int>, ps: seq<P>)
    requires c.Lawful() && |ss| == |ps| && forall i :: 0 <= i < |ss| ==> ss[i] == 0
    ensures MSum(c, ss, ps) == c.zero
  {
    if ss != [] {
      MSumZeros(c, ss[..|ss| - 1], ps[..|ps| - 1]);
      Zero(c, c.zero);
    }
  }

  lemma {:induction false} MSumSplit<P(!new)>(c: Group<P>, ss: seq<int>, ps: seq<P>, k: nat)
    requires c.Lawful() && k <= |ss| == |ps| && forall i :: 0 <= i < |ss| ==> 0 <= ss[i]
    ensures MSum(c, ss, ps) == c.add(MSum(c, ss[..k], ps[..k]), MSum(c, ss[k..], ps[k..]))
    decreases |ss| - k
  {
    if k == |ss| {
      assert ss[..k] == ss && ps[..k] == ps;
      Zero(c, MSum(c, ss, ps));
    } else {
      var e := |ss| - 1;
      MSumSplit(c, ss[..e], ps[..e], k);
      assert ss[..e][..k] == ss[..k] && ps[..e][..k] == ps[..k];
      assert ss[k..][..e - k] == ss[..e][k..] && ps[k..][..e - k] == ps[..e][k..];
      Assoc(c, MSum(c, ss[..k], ps[..k]), MSum(c, ss[..e][k..], ps[..e][k..]), c.Mul(ss[e], ps[e]));
    }
  }

  /** Adding to one scalar adds that multiple of its point. */
  lemma {:induction false} MSumBump<P(!new)>(c: Group<P>, ss: seq<int>, ps: seq<P>, k: nat, d: int)
    requires c.Lawful() && k < |ss| == |ps| && 0 <= d && forall i :: 0 <= i < |ss| ==> 0 <= ss[i]
    ensures MSum(c, ss[k := (ss[k] + d) % c.scalars.m], ps) == c.add(MSum(c, ss, ps), c.Mul(d, ps[k]))
  {
    var e := |ss| - 1;
    var tt := ss[k := (ss[k] + d) % c.scalars.m];
    if k == e {
      assert tt[..e] == ss[..e];
      MulAddition(c, ss[k], d, ps[k]);
      Assoc(c, MSum(c, ss[..e], ps[..e]), c.Mul(ss[k], ps[k]), c.Mul(d, ps[k]));
    } else {
      assert tt[..e] == ss[..e][k := (ss[k] + d) % c.scalars.m];
      MSumBump(c, ss[..e], ps[..e], k, d);
      Shuffle(c, MSum(c, ss[..e], ps[..e]), c.Mul(d, ps[k]), c.Mul(ss[e], ps[e]));
    }
  }

  // ---------- One record's contribution ----------

  lemma NegSum<P(!new)>(c: Group<P>, a: P, b: P)
    requires c.Lawful()
    ensures c.neg(c.add(a, b)) == c.add(c.neg(a), c.neg(b))
  {
    Swap(c, a, b, c.neg(a), c.neg(b));
    Negates(c, a);
    Negates(c, b);
    Zero(c, c.zero);
    NegUnique(c, c.add(a, b), c.add(c.neg(a), c.neg(b)));
  }

  lemma Regroup<P(!new)>(c: Group<P>, m: P, a: P, b: P, g: P, d: P)
    requires c.Lawful()
    ensures c.add(c.add(c.add(m, a), b), c.add(g, d)) == c.add(c.add(m, g), c.add(a, c.add(b, d)))
  {
    Swap(c, c.add(m, a), b, g, d);
    Shuffle(c, m, a, g);
    Assoc(c, c.add(m, g), a, c.add(b, d));
  }

  // A multiple of a residual, term by term.
  lemma {:induction false} ScaledResidual<P(!new)>(c: Curve<P>, it: Item<P>, a: int)
    requires c.Lawful() && InRange(c, it) && 0 <= a < c.N()
    ensures var f := c.group.scalars;
            c.group.Mul(a, Residual(c, it)) ==
            c.group.add(c.group.Mul(f.Mul(a, it.s), it.nonce),
                        c.group.add(c.group.neg(c.group.Mul(f.Mul(a, it.r), it.q)),
                                    c.group.neg(c.group.Mul(f.Mul(a, it.z), c.group.g))))
  {
    var g := c.group;
    MulProduct(g, a, it.s, it.nonce);
    MulProduct(g, a, it.r, it.q);
    MulProduct(g, a, it.z, g.g);
    MulSum(g, a, g.Mul(it.s, it.nonce), g.neg(Target(c, it)));
    MulNeg(g, a, Target(c, it));
    MulSum(g, a, g.Mul(it.r, it.q), g.Mul(it.z, g.g));
    NegSum(g, g.Mul(a, g.Mul(it.r, it.q)), g.Mul(a, g.Mul(it.z, g.g)));
  }

  /** The sum so far, less the generator's part, is the equation so far. */
  ghost predicate Balanced<P(!new)>(c: Curve<P>, m: P, gen: int, e: P) {
    0 <= gen < c.N() && c.group.add(m, c.group.neg(c.group.Mul(gen, c.group.g))) == e
  }

  function KeyScalar<P(!new)>(c: Curve<P>, a: int, r: int): int
    requires c.N() > 1
  {
    Negate(c.N(), c.group.scalars.Mul(a, r))
  }

  lemma {:induction false} BalanceStep<P(!new)>(c: Curve<P>, m: P, gen: int, e: P, it: Item<P>, a: int)
    requires c.Lawful() && InRange(c, it) && 0 <= a < c.N() && Balanced(c, m, gen, e)
    ensures var f := c.group.scalars;
            Balanced(c, c.group.add(c.group.add(m, c.group.Mul(f.Mul(a, it.s), it.nonce)), c.group.Mul(KeyScalar(c, a, it.r), it.q)),
                     (gen + f.Mul(a, it.z)) % c.N(), c.group.add(e, c.group.Mul(a, Residual(c, it))))
  {
    var f, g := c.group.scalars, c.group;
    MulRange(f, a, it.s);
    MulRange(f, a, it.r);
    MulRange(f, a, it.z);
    ScaledResidual(c, it, a);
    MulNegate(g, f.Mul(a, it.r), it.q);
    MulAddition(g, gen, f.Mul(a, it.z), g.g);
    NegSum(g, g.Mul(gen, g.g), g.Mul(f.Mul(a, it.z), g.g));
    Regroup(g, m, g.Mul(f.Mul(a, it.s), it.nonce), g.neg(g.Mul(f.Mul(a, it.r), it.q)),
            g.neg(g.Mul(gen, g.g)), g.neg(g.Mul(f.Mul(a, it.z), g.g)));
    DivMod(gen + f.Mul(a, it.z), c.N());
  }

  /** The final multi-multiplication, with the generator's scalar negated. */
  lemma BalanceDecides<P(!new)>(c: Curve<P>, m: P, gen: int, e: P)
    requires c.Lawful() && Balanced(c, m, gen, e)
    ensures c.group.add(c.group.Mul(Negate(c.N(), gen), c.group.g), m) == e
  {
    MulNegate(c.group, gen, c.group.g);
    Comm(c.group, c.group.neg(c.group.Mul(gen, c.group.g)), m);
  }

  lemma BalanceStart<P(!new)>(c: Curve<P>)
    requires c.Lawful()
    ensures Balanced(c, c.group.zero, 0, c.group.zero)
  {
    Negates(c.group, c.group.zero);
  }
}
