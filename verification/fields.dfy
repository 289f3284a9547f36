/** Prime fields: residues with an inverse, and what follows from that alone. */
module Fields {
  import opened Arith

  /** Residues modulo m; `inv` is the inverse of a nonzero residue. */
  datatype Field = Field(m: int, inv: int -> int)
  {
    predicate InvAt(x: int)
      requires m > 1
    {
      0 <= inv(x) < m && (0 < x < m ==> x * inv(x) % m == 1)
    }

    // The one field law needed: every nonzero residue has an inverse.
    ghost predicate Lawful() {
      m > 1 && forall x {:trigger InvAt(x)} :: InvAt(x)
    }

    function Mul(x: int, y: int): (r: int)
      requires m > 1
    {
      x * y % m
    }
  }

  lemma MulRange(f: Field, x: int, y: int)
    requires f.Lawful()
    ensures 0 <= f.Mul(x, y) < f.m
  {
    DivMod(x * y, f.m);
  }

  lemma MulComm(f: Field, x: int, y: int)
    requires f.Lawful()
    ensures f.Mul(x, y) == f.Mul(y, x)
  {
    assert x * y == y * x;
  }

  lemma MulAssoc(f: Field, x: int, y: int, z: int)
    requires f.Lawful()
    ensures f.Mul(f.Mul(x, y), z) == f.Mul(x, f.Mul(y, z))
  {
    ModMul(x * y, z, f.m);
    ModMul(y * z, x, f.m);
    assert x * y * z == y * z * x;
    assert f.Mul(y, z) * x == x * f.Mul(y, z);
  }

  lemma MulOne(f: Field, x: int)
    requires f.Lawful() && 0 <= x < f.m
    ensures f.Mul(x, 1) == x == f.Mul(1, x)
  {
    ModSmall(x, f.m);
  }

  lemma MulZero(f: Field, x: int)
    requires f.Lawful()
    ensures f.Mul(x, 0) == 0
  {
    ModSmall(0, f.m);
  }

  lemma Inverse(f: Field, x: int)
    requires f.Lawful() && 0 < x < f.m
    ensures 0 < f.inv(x) < f.m && f.Mul(x, f.inv(x)) == 1
  {
    assert f.InvAt(x);
    ModSmall(0, f.m);
    assert x * 0 == 0;
  }

  /** Inverses are unique. */
  lemma InverseUnique(f: Field, x: int, y: int)
    requires f.Lawful() && 0 < x < f.m && 0 <= y < f.m && f.Mul(x, y) == 1
    ensures y == f.inv(x)
  {
    var w := f.inv(x);
    Inverse(f, x);
    MulAssoc(f, w, x, y);
    MulComm(f, w, x);
    MulOne(f, w);
    MulOne(f, y);
  }

  /** A product of nonzero residues is nonzero. */
  lemma NoZeroDivisors(f: Field, x: int, y: int)
    requires f.Lawful() && 0 < x < f.m && 0 < y < f.m
    ensures 0 < f.Mul(x, y) < f.m
  {
    MulRange(f, x, y);
    Inverse(f, x);
    MulAssoc(f, f.inv(x), x, y);
    MulComm(f, f.inv(x), x);
    MulOne(f, y);
    MulZero(f, f.inv(x));
  }

  // ---------- Montgomery's trick ----------

  function Product(f: Field, xs: seq<int>): int
    requires f.m > 1
  {
    if xs == [] then 1 else f.Mul(Product(f, xs[..|xs| - 1]), xs[|xs| - 1])
  }

  ghost predicate Invertible(f: Field, xs: seq<int>) {
    forall i :: 0 <= i < |xs| ==> 0 < xs[i] < f.m
  }

  lemma {:induction false} ProductInvertible(f: Field, xs: seq<int>)
    requires f.Lawful() && Invertible(f, xs)
    ensures 0 < Product(f, xs) < f.m
  {
    if xs != [] {
      ProductInvertible(f, xs[..|xs| - 1]);
      NoZeroDivisors(f, Product(f, xs[..|xs| - 1]), xs[|xs| - 1]);
    }
  }

  lemma {:induction false} ProductStep(f: Field, xs: seq<int>, i: nat)
    requires f.Lawful() && i < |xs|
    ensures Product(f, xs[..i + 1]) == f.Mul(Product(f, xs[..i]), xs[i])
  {
    assert xs[..i + 1][..i] == xs[..i];
  }

  /** One step back: `run` inverts the product of i + 1 items, so it yields the inverse of the last and goes on. */
  lemma {:induction false} Unwind(f: Field, xs: seq<int>, i: nat, run: int)
    requires f.Lawful() && Invertible(f, xs) && i < |xs| && 0 <= run < f.m
    requires f.Mul(run, Product(f, xs[..i + 1])) == 1
    ensures f.Mul(run, Product(f, xs[..i])) == f.inv(xs[i])
    ensures f.Mul(f.Mul(run, xs[i]), Product(f, xs[..i])) == 1
  {
    var pre, x := Product(f, xs[..i]), xs[i];
    ProductStep(f, xs, i);
    MulAssoc(f, run, pre, x);
    MulComm(f, f.Mul(run, pre), x);
    MulRange(f, run, pre);
    InverseUnique(f, x, f.Mul(run, pre));
    MulComm(f, pre, x);
    MulAssoc(f, run, x, pre);
  }
}
