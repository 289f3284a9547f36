/** A group whose order is prime, its scalar multiples, and sums of terms. */
module Groups {
  import opened Arith
  import opened Fields

  /** A commutative group with a generator, and the field of its scalars. */
  datatype Group<!P(==, !new)> = Group(zero: P, add: (P, P) -> P, neg: P -> P, g: P, scalars: Field)
  {
    predicate AssocAt(a: P, b: P, d: P) { add(add(a, b), d) == add(a, add(b, d)) }
    predicate CommAt(a: P, b: P) { add(a, b) == add(b, a) }
    predicate ZeroAt(a: P) { add(a, zero) == a }
    predicate NegAt(a: P) { add(a, neg(a)) == zero }
    predicate OrderAt(a: P)
      requires scalars.m > 1
    {
      Mul(scalars.m, a) == zero
    }

    ghost predicate Lawful() {
      && scalars.Lawful()
      && (forall a, b, d {:trigger AssocAt(a, b, d)} :: AssocAt(a, b, d))
      && (forall a, b {:trigger CommAt(a, b)} :: CommAt(a, b))
      && (forall a {:trigger ZeroAt(a)} :: ZeroAt(a))
      && (forall a {:trigger NegAt(a)} :: NegAt(a))
      && (forall a {:trigger OrderAt(a)} :: OrderAt(a))
    }

    function Mul(k: nat, a: P): P {
      if k == 0 then zero else add(Mul(k - 1, a), a)
    }

    function Sum(ts: seq<P>): P {
      if ts == [] then zero else add(Sum(ts[..|ts| - 1]), ts[|ts| - 1])
    }
  }

  // ---------- Group laws ----------

  lemma Assoc<P(!new)>(c: Group<P>, a: P, b: P, d: P)
    requires c.Lawful()
    ensures c.add(c.add(a, b), d) == c.add(a, c.add(b, d))
  {
    assert c.AssocAt(a, b, d);
  }

  lemma Comm<P(!new)>(c: Group<P>, a: P, b: P)
    requires c.Lawful()
    ensures c.add(a, b) == c.add(b, a)
  {
    assert c.CommAt(a, b);
  }

  lemma Zero<P(!new)>(c: Group<P>, a: P)
    requires c.Lawful()
    ensures c.add(a, c.zero) == a == c.add(c.zero, a)
  {
    assert c.ZeroAt(a);
    Comm(c, a, c.zero);
  }

  lemma Negates<P(!new)>(c: Group<P>, a: P)
    requires c.Lawful()
    ensures c.add(a, c.neg(a)) == c.zero == c.add(c.neg(a), a)
  {
    assert c.NegAt(a);
    Comm(c, a, c.neg(a));
  }

  lemma Swap<P(!new)>(c: Group<P>, a: P, b: P, d: P, e: P)
    requires c.Lawful()
    ensures c.add(c.add(a, b), c.add(d, e)) == c.add(c.add(a, d), c.add(b, e))
  {
    Assoc(c, a, b, c.add(d, e));
    Assoc(c, b, d, e);
    Comm(c, b, d);
    Assoc(c, d, b, e);
    Assoc(c, a, d, c.add(b, e));
  }

  lemma Cancel<P(!new)>(c: Group<P>, a: P, b: P, d: P)
    requires c.Lawful() && c.add(a, d) == c.add(b, d)
    ensures a == b
  {
    Assoc(c, a, d, c.neg(d));
    Assoc(c, b, d, c.neg(d));
    Negates(c, d);
    Zero(c, a);
    Zero(c, b);
  }

  lemma NegUnique<P(!new)>(c: Group<P>, a: P, b: P)
    requires c.Lawful() && c.add(a, b) == c.zero
    ensures b == c.neg(a)
  {
    Negates(c, a);
    Comm(c, a, b);
    Cancel(c, b, c.neg(a), a);
  }

  // ---------- Scalar multiples ----------

  lemma {:induction false} MulZeroPoint<P(!new)>(c: Group<P>, k: nat)
    requires c.Lawful()
    ensures c.Mul(k, c.zero) == c.zero
  {
    if k > 0 {
      MulZeroPoint(c, k - 1);
      Zero(c, c.zero);
    }
  }

  lemma {:induction false} MulPlus<P(!new)>(c: Group<P>, j: nat, k: nat, a: P)
    requires c.Lawful()
    ensures c.Mul(j + k, a) == c.add(c.Mul(j, a), c.Mul(k, a))
  {
    if k == 0 {
      Zero(c, c.Mul(j, a));
    } else {
      MulPlus(c, j, k - 1, a);
      Assoc(c, c.Mul(j, a), c.Mul(k - 1, a), a);
    }
  }

  lemma {:induction false} MulSum<P(!new)>(c: Group<P>, k: nat, a: P, b: P)
    requires c.Lawful()
    ensures c.Mul(k, c.add(a, b)) == c.add(c.Mul(k, a), c.Mul(k, b))
  {
    if k == 0 {
      Zero(c, c.zero);
    } else {
      MulSum(c, k - 1, a, b);
      Swap(c, c.Mul(k - 1, a), c.Mul(k - 1, b), a, b);
    }
  }

  lemma {:induction false} MulTimes<P(!new)>(c: Group<P>, j: nat, k: nat, a: P)
    requires c.Lawful()
    ensures c.Mul(j * k, a) == c.Mul(j, c.Mul(k, a))
  {
    if j == 0 {
      assert j * k == 0;
    } else {
      MulTimes(c, j - 1, k, a);
      assert j * k == (j - 1) * k + k;
      MulPlus(c, (j - 1) * k, k, a);
    }
  }

  lemma {:induction false} MulNeg<P(!new)>(c: Group<P>, k: nat, a: P)
    requires c.Lawful()
    ensures c.Mul(k, c.neg(a)) == c.neg(c.Mul(k, a))
  {
    MulSum(c, k, a, c.neg(a));
    Negates(c, a);
    MulZeroPoint(c, k);
    NegUnique(c, c.Mul(k, a), c.Mul(k, c.neg(a)));
  }

  lemma {:induction false} MulModulo<P(!new)>(c: Group<P>, k: nat, a: P)
    requires c.Lawful()
    ensures c.Mul(k % c.scalars.m, a) == c.Mul(k, a)
  {
    var m := c.scalars.m;
    DivMod(k, m);
    DivBelow(k, m, k / m + 1);
    MulPlus(c, k / m * m, k % m, a);
    MulTimes(c, k / m, m, a);
    assert c.OrderAt(a);
    MulZeroPoint(c, k / m);
    Zero(c, c.Mul(k % m, a));
    assert k / m * m == m * (k / m);
  }

  // Scalar arithmetic carried over to points.
  lemma {:induction false} MulProduct<P(!new)>(c: Group<P>, j: nat, k: nat, a: P)
    requires c.Lawful()
    ensures 0 <= c.scalars.Mul(j, k) < c.scalars.m && c.Mul(c.scalars.Mul(j, k), a) == c.Mul(j, c.Mul(k, a))
  {
    MulRange(c.scalars, j, k);
    MulNonNegative(j, k);
    MulModulo(c, j * k, a);
    MulTimes(c, j, k, a);
  }

  lemma {:induction false} MulAddition<P(!new)>(c: Group<P>, j: nat, k: nat, a: P)
    requires c.Lawful()
    ensures c.Mul((j + k) % c.scalars.m, a) == c.add(c.Mul(j, a), c.Mul(k, a))
  {
    MulModulo(c, j + k, a);
    MulPlus(c, j, k, a);
  }

  function Negate(m: int, k: int): (r: int)
    requires m > 1 && 0 <= k < m
    ensures 0 <= r < m && (r + k) % m == 0
  {
    if k == 0 then 0 else m - k
  }

  lemma {:induction false} MulNegate<P(!new)>(c: Group<P>, k: nat, a: P)
    requires c.Lawful() && k < c.scalars.m
    ensures c.Mul(Negate(c.scalars.m, k), a) == c.neg(c.Mul(k, a))
  {
    var r := Negate(c.scalars.m, k);
    MulAddition(c, k, r, a);
    NegUnique(c, c.Mul(k, a), c.Mul(r, a));
  }

  /** In a group of prime order a nonzero multiple of a nonzero point is nonzero. */
  lemma {:induction false} MulInjective<P(!new)>(c: Group<P>, j: nat, k: nat, a: P)
    requires c.Lawful() && j < c.scalars.m && k < c.scalars.m && a != c.zero
    requires c.Mul(j, a) == c.Mul(k, a)
    ensures j == k
  {
    if j < k {
      Difference(c, j, k, a);
    } else if k < j {
      Difference(c, k, j, a);
    }
  }

  lemma {:induction false} Difference<P(!new)>(c: Group<P>, j: nat, k: nat, a: P)
    requires c.Lawful() && j < k < c.scalars.m && c.Mul(j, a) == c.Mul(k, a)
    ensures a == c.zero
  {
    var d := k - j;
    MulPlus(c, d, j, a);
    Zero(c, c.Mul(j, a));
    Cancel(c, c.Mul(d, a), c.zero, c.Mul(j, a));
    Inverse(c.scalars, d);
    MulComm(c.scalars, d, c.scalars.inv(d));
    MulProduct(c, c.scalars.inv(d), d, a);
    MulZeroPoint(c, c.scalars.inv(d));
    Zero(c, a);
    assert c.Mul(1, a) == c.add(c.Mul(0, a), a);
  }

  // ---------- Sums ----------

  lemma {:induction false} SumStep<P(!new)>(c: Group<P>, ts: seq<P>, i: nat)
    requires i < |ts|
    ensures c.Sum(ts[..i + 1]) == c.add(c.Sum(ts[..i]), ts[i])
  {
    assert ts[..i + 1][..i] == ts[..i];
  }

  lemma {:induction false} SumAppend<P(!new)>(c: Group<P>, ts: seq<P>, us: seq<P>)
    requires c.Lawful()
    ensures c.Sum(ts + us) == c.add(c.Sum(ts), c.Sum(us))
  {
    if us == [] {
      assert ts + us == ts;
      Zero(c, c.Sum(ts));
    } else {
      var k := |us| - 1;
      assert (ts + us)[..|ts| + k] == ts + us[..k];
      SumAppend(c, ts, us[..k]);
      Assoc(c, c.Sum(ts), c.Sum(us[..k]), us[k]);
    }
  }

  /** Replacing one term changes a sum by exactly that term. */
  lemma {:induction false} SumUpdate<P(!new)>(c: Group<P>, ts: seq<P>, i: nat, t: P)
    requires c.Lawful() && i < |ts|
    ensures c.add(c.Sum(ts[i := t]), ts[i]) == c.add(c.Sum(ts), t)
  {
    var k := |ts| - 1;
    if i == k {
      assert ts[i := t][..k] == ts[..k];
      Assoc(c, c.Sum(ts[..k]), t, ts[i]);
      Comm(c, t, ts[i]);
      Assoc(c, c.Sum(ts[..k]), ts[i], t);
    } else {
      assert ts[i := t][..k] == ts[..k][i := t];
      SumUpdate(c, ts[..k], i, t);
      Shuffle(c, c.Sum(ts[..k][i := t]), ts[k], ts[i]);
      Shuffle(c, c.Sum(ts[..k]), ts[k], t);
    }
  }

  lemma Shuffle<P(!new)>(c: Group<P>, a: P, b: P, d: P)
    requires c.Lawful()
    ensures c.add(c.add(a, b), d) == c.add(c.add(a, d), b)
  {
    Assoc(c, a, b, d);
    Comm(c, b, d);
    Assoc(c, a, d, b);
  }

  lemma {:induction false} SumZeros<P(!new)>(c: Group<P>, ts: seq<P>)
    requires c.Lawful() && forall i :: 0 <= i < |ts| ==> ts[i] == c.zero
    ensures c.Sum(ts) == c.zero
  {
    if ts != [] {
      SumZeros(c, ts[..|ts| - 1]);
      Zero(c, c.zero);
    }
  }

  // The terms at the given indices.
  function Pick<P>(ts: seq<P>, indices: seq<nat>): (r: seq<P>)
    requires forall k :: 0 <= k < |indices| ==> indices[k] < |ts|
    ensures |r| == |indices| && forall k :: 0 <= k < |r| ==> r[k] == ts[indices[k]]
  {
    seq(|indices|, k requires 0 <= k < |indices| => ts[indices[k]])
  }

  lemma WithoutOne(s: seq<nat>, i: nat)
    requires i < |s|
    ensures multiset(s) == multiset(s[..i] + s[i + 1..]) + multiset{s[i]}
  {
    assert s == s[..i] + [s[i]] + s[i + 1..];
  }

  lemma SameWithoutOne(s: seq<nat>, k: nat, t: seq<nat>, i: nat)
    requires k == |s| - 1 && i < |t| && t[i] == s[k] && multiset(s) == multiset(t)
    ensures multiset(s[..k]) == multiset(t[..i] + t[i + 1..])
  {
    WithoutOne(s, k);
    WithoutOne(t, i);
    assert s[..k] + s[k + 1..] == s[..k];
    assert multiset(s[..k]) == multiset(s) - multiset{s[k]};
    assert multiset(t[..i] + t[i + 1..]) == multiset(t) - multiset{t[i]};
  }

  lemma {:induction false} SumWithout<P(!new)>(c: Group<P>, ts: seq<P>, i: nat)
    requires c.Lawful() && i < |ts|
    ensures c.Sum(ts) == c.add(c.Sum(ts[..i] + ts[i + 1..]), ts[i])
  {
    assert ts == ts[..i + 1] + ts[i + 1..];
    SumAppend(c, ts[..i + 1], ts[i + 1..]);
    SumStep(c, ts, i);
    SumAppend(c, ts[..i], ts[i + 1..]);
    Shuffle(c, c.Sum(ts[..i]), ts[i], c.Sum(ts[i + 1..]));
  }

  lemma PickWithout<P>(ts: seq<P>, t: seq<nat>, i: nat)
    requires i < |t| && forall k :: 0 <= k < |t| ==> t[k] < |ts|
    ensures Pick(ts, t)[..i] + Pick(ts, t)[i + 1..] == Pick(ts, t[..i] + t[i + 1..])
    ensures Pick(ts, t)[..i] == Pick(ts, t[..i])
  {}

  /** Adding up the same terms in another order gives the same sum. */
  lemma {:induction false} SumPermuted<P(!new)>(c: Group<P>, ts: seq<P>, s: seq<nat>, t: seq<nat>)
    requires c.Lawful() && multiset(s) == multiset(t)
    requires forall k :: 0 <= k < |s| ==> s[k] < |ts|
    requires forall k :: 0 <= k < |t| ==> t[k] < |ts|
    ensures c.Sum(Pick(ts, s)) == c.Sum(Pick(ts, t))
    decreases |s|
  {
    hide Pick;
    assert |s| == |multiset(s)| == |multiset(t)| == |t|;
    if s != [] {
      var k := |s| - 1;
      assert s[k] in multiset(t);
      var i :| 0 <= i < |t| && t[i] == s[k];
      var u := t[..i] + t[i + 1..];
      SameWithoutOne(s, k, t, i);
      SumPermuted(c, ts, s[..k], u);
      PickWithout(ts, s, k);
      PickWithout(ts, t, i);
      SumWithout(c, Pick(ts, t), i);
    }
  }
}
