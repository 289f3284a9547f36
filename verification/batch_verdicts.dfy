/** What a batch decides, in terms of what its records say and of running sums of points. */
module BatchVerdicts {
  import opened Wrappers
  import opened Arith
  import opened Fields
  import opened Groups
  import opened Ecdsa
  import opened BatchEquation
  import opened ShortBatches
  import opened Verdicts

  // s R - r Q - z G.
  function Left<P(!new)>(c: Curve<P>, sig: Signed<P>, nonce: P): P
    requires 0 <= sig.s && 0 <= sig.r && 0 <= sig.z
  {
    var g := c.group;
    g.add(g.Mul(sig.s, nonce), g.neg(g.add(g.Mul(sig.r, sig.q), g.Mul(sig.z, g.g))))
  }

  // The record and its hint can be read, and the sum grows by a times what they leave.
  ghost predicate Adds<P(!new)>(c: Curve<P>, rec: Record, fullY: bool, a: int, before: P, after: P, sig: Signed<P>, nonce: P)
    requires c.N() > 1
  {
    && Reads(c, rec, sig) && HintStandsFor(c, rec, sig.r, fullY, nonce)
    && 0 <= a && after == c.group.add(before, c.group.Mul(a, Left(c, sig, nonce)))
  }

  ghost predicate AddsOne<P(!new)>(c: Curve<P>, rec: Record, fullY: bool, a: int, before: P, after: P)
    requires c.N() > 1
  {
    exists sig, nonce :: Adds(c, rec, fullY, a, before, after, sig, nonce)
  }

  ghost predicate AddsAt<P(!new)>(c: Curve<P>, records: seq<Record>, fullY: bool, a: seq<int>, sums: seq<P>, i: int)
    requires c.N() > 1
  {
    && 0 <= i < |records| && i < |a| && i + 1 < |sums|
    && AddsOne(c, records[i], fullY, a[i], sums[i], sums[i + 1])
  }

  // The sums start at zero and take in one record each.
  ghost predicate SumsUp<P(!new)>(c: Curve<P>, records: seq<Record>, fullY: bool, a: seq<int>, sums: seq<P>)
    requires c.N() > 1
  {
    && |sums| == |records| + 1 && sums[0] == c.group.zero
    && forall i {:trigger AddsAt(c, records, fullY, a, sums, i)} :: 0 <= i < |records| ==> AddsAt(c, records, fullY, a, sums, i)
  }

  lemma {:induction false} OneAdds<P(!new)>(c: Curve<P>, rec: Record, fullY: bool, a: int, before: P, after: P)
    requires c.Lawful() && 0 <= a
    ensures AddsOne(c, rec, fullY, a, before, after) <==>
              ItemOf(c, rec, fullY).Some? && InRange(c, ItemOf(c, rec, fullY).value) &&
              after == c.group.add(before, c.group.Mul(a, Residual(c, ItemOf(c, rec, fullY).value)))
  {
    hide Reads, HintStandsFor, Parse, NonceFromHint;
    if ItemOf(c, rec, fullY).Some? {
      var sig := Parse(c, rec).value;
      var nonce := NonceFromHint(c, rec, sig.r, fullY).value;
      ItemRange(c, rec, fullY);
      ParsedRange(c, rec);
      ParseMeans(c, rec, sig);
      NonceMeans(c, rec, sig.r, fullY, nonce);
      if after == c.group.add(before, c.group.Mul(a, Residual(c, ItemOf(c, rec, fullY).value))) {
        assert Adds(c, rec, fullY, a, before, after, sig, nonce);
      }
    }
    forall sig, nonce | Adds(c, rec, fullY, a, before, after, sig, nonce)
      ensures ItemOf(c, rec, fullY).Some? && InRange(c, ItemOf(c, rec, fullY).value) &&
              after == c.group.add(before, c.group.Mul(a, Residual(c, ItemOf(c, rec, fullY).value)))
    {
      ParseMeans(c, rec, sig);
      ParsedRange(c, rec);
      NonceMeans(c, rec, sig.r, fullY, nonce);
      assert ItemOf(c, rec, fullY) == Some(Item(sig.s, sig.r, sig.z, sig.q, nonce));
      ItemRange(c, rec, fullY);
    }
  }

  // The sum after the first k records.
  ghost function SumTo<P(!new)>(c: Curve<P>, records: seq<Record>, a: seq<int>, fullY: bool, k: nat): P
    requires c.Lawful() && k <= |records| == |a| && Coefficients(c, a) && AllItems(c, records, fullY)
  {
    Equation(c, ItemsOf(c, records, fullY)[..k], a)
  }

  lemma SumNext<P(!new)>(c: Curve<P>, records: seq<Record>, a: seq<int>, fullY: bool, k: nat)
    requires c.Lawful() && k < |records| == |a| && Coefficients(c, a) && AllItems(c, records, fullY)
    ensures InRange(c, ItemOf(c, records[k], fullY).value)
    ensures SumTo(c, records, a, fullY, k + 1) ==
            c.group.add(SumTo(c, records, a, fullY, k), c.group.Mul(a[k], Residual(c, ItemOf(c, records[k], fullY).value)))
  {
    hide ItemOf, Residual, Equation;
    var items := ItemsOf(c, records, fullY);
    EquationStep(c, items[..k], items[k], a);
    assert items[..k + 1] == items[..k] + [items[k]];
  }

  lemma {:induction false} SumsAreEquation<P(!new)>(c: Curve<P>, records: seq<Record>, a: seq<int>, fullY: bool, sums: seq<P>, k: nat)
    requires c.Lawful() && k <= |records| == |a| && Coefficients(c, a) && AllItems(c, records, fullY)
    requires SumsUp(c, records, fullY, a, sums)
    ensures sums[k] == SumTo(c, records, a, fullY, k)
    decreases k
  {
    if k > 0 {
      SumsAreEquation(c, records, a, fullY, sums, k - 1);
      SumNext(c, records, a, fullY, k - 1);
      assert AddsAt(c, records, fullY, a, sums, k - 1);
      OneAdds(c, records[k - 1], fullY, a[k - 1], sums[k - 1], sums[k]);
    }
  }

  lemma AddsMeansItems<P(!new)>(c: Curve<P>, records: seq<Record>, a: seq<int>, fullY: bool, sums: seq<P>)
    requires c.Lawful() && |records| == |a| && Coefficients(c, a) && SumsUp(c, records, fullY, a, sums)
    ensures AllItems(c, records, fullY)
  {
    forall i | 0 <= i < |records| ensures ItemOf(c, records[i], fullY).Some? {
      assert AddsAt(c, records, fullY, a, sums, i);
      OneAdds(c, records[i], fullY, a[i], sums[i], sums[i + 1]);
    }
  }

  lemma AcceptedSums<P(!new)>(c: Curve<P>, records: seq<Record>, a: seq<int>, fullY: bool) returns (sums: seq<P>)
    requires c.Lawful() && |records| == |a| && Coefficients(c, a) && AllItems(c, records, fullY)
    ensures SumsUp(c, records, fullY, a, sums)
  {
    hide ItemOf, Residual, Equation;
    sums := seq(|records| + 1, k requires 0 <= k <= |records| => SumTo(c, records, a, fullY, k));
    forall i | 0 <= i < |records| ensures AddsAt(c, records, fullY, a, sums, i) {
      SumNext(c, records, a, fullY, i);
      OneAdds(c, records[i], fullY, a[i], sums[i], sums[i + 1]);
    }
    EmptyEquation(c, records, a, fullY);
  }

  lemma EmptyEquation<P(!new)>(c: Curve<P>, records: seq<Record>, a: seq<int>, fullY: bool)
    requires c.Lawful() && |records| == |a| && Coefficients(c, a) && AllItems(c, records, fullY)
    ensures SumTo(c, records, a, fullY, 0) == c.group.zero
  {}

  /** A batch is accepted exactly when every record and hint can be read and the sums they give end at zero. */
  lemma BatchMeans<P(!new)>(c: Curve<P>, records: seq<Record>, a: seq<int>, fullY: bool)
    requires c.Lawful() && |records| == |a| && Coefficients(c, a)
    ensures BatchAccepts(c, records, a, fullY) <==>
              exists sums :: SumsUp(c, records, fullY, a, sums) && sums[|records|] == c.group.zero
  {
    hide SumsUp, ItemOf, Equation, AllItems;
    if BatchAccepts(c, records, a, fullY) {
      var sums := AcceptedSums(c, records, a, fullY);
      LastSum(c, records, a, fullY, sums);
    }
    forall sums | SumsUp(c, records, fullY, a, sums)
      ensures |sums| == |records| + 1 && (sums[|records|] == c.group.zero ==> BatchAccepts(c, records, a, fullY))
    {
      AddsMeansItems(c, records, a, fullY, sums);
      LastSum(c, records, a, fullY, sums);
    }
  }

  lemma LastSum<P(!new)>(c: Curve<P>, records: seq<Record>, a: seq<int>, fullY: bool, sums: seq<P>)
    requires c.Lawful() && |records| == |a| && Coefficients(c, a) && AllItems(c, records, fullY)
    requires SumsUp(c, records, fullY, a, sums)
    ensures |sums| == |records| + 1 && sums[|records|] == Equation(c, ItemsOf(c, records, fullY), a)
  {
    SumsAreEquation(c, records, a, fullY, sums, |records|);
    assert ItemsOf(c, records, fullY)[..|records|] == ItemsOf(c, records, fullY);
  }

  /** The coefficient of the plain form, times s, is the one of the short form. */
  lemma RescaledMeans<P(!new)>(c: Curve<P>, records: seq<Record>, a: seq<int>, i: nat, sig: Signed<P>)
    requires c.Lawful() && |records| == |a| && Coefficients(c, a) && i < |records| && Reads(c, records[i], sig)
    ensures Rescaled(c, records, a)[i] * sig.s % c.N() == a[i]
  {
    ParseMeans(c, records[i], sig);
    ParsedRange(c, records[i]);
    ShortScalars(c.group.scalars, a[i], sig.s, 0, 0);
  }
}
