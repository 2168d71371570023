/** The scalars of BLS12-381 as a commutative ring: integers modulo the order of the groups. */
module ScalarField {
  import opened Algebra
  import Arith

  const ORDER: int := 0x73eda753299d7d483339d80809a1d80553bda402fffe5bfeffffffff00000001

  type Fr = x: int | 0 <= x < ORDER

  function AddMod(a: int, b: int, p: int): int
    requires p > 0
  {
    (a + b) % p
  }

  function MulMod(a: int, b: int, p: int): int
    requires p > 0
  {
    (a * b) % p
  }

  lemma {:induction false} ModUnique(x: int, y: int, p: int, k: int)
    requires p > 0 && x == y + k * p
    ensures x % p == y % p
  {
    var q := x / p - k;
    assert x / p * p == (q + k) * p;
    assert y == q * p + x % p;
    Arith.DivModUnique(y, p, q, x % p);
  }

  lemma {:induction false} AddLaws(a: int, b: int, c: int, p: int)
    requires p > 0
    ensures AddMod(AddMod(a, b, p), c, p) == AddMod(a, AddMod(b, c, p), p)
  {
    ModUnique(a + b + c, (a + b) % p + c, p, (a + b) / p);
    ModUnique(a + b + c, a + (b + c) % p, p, (b + c) / p);
  }

  lemma {:induction false} ModProduct(x: int, y: int, p: int)
    requires p > 0
    ensures (x % p * y) % p == (x * y) % p
  {
    assert x * y == (x / p * p + x % p) * y == x % p * y + x / p * y * p;
    ModUnique(x * y, x % p * y, p, x / p * y);
  }

  lemma {:induction false} Commute(x: int, y: int)
    ensures x * y == y * x
  {
  }

  lemma {:induction false} MulAssociative(a: int, b: int, c: int, p: int)
    requires p > 0
    ensures MulMod(MulMod(a, b, p), c, p) == MulMod(a, MulMod(b, c, p), p)
  {
    var x, y := a * b, b * c;
    ModProduct(x, c, p);
    ModProduct(y, a, p);
    Commute(y % p, a);
    Commute(y, a);
    Arith.Mul3(a, b, c);
  }

  lemma {:induction false} MulDistributes(a: int, b: int, c: int, p: int)
    requires p > 0
    ensures MulMod(a, AddMod(b, c, p), p) == AddMod(MulMod(a, b, p), MulMod(a, c, p), p)
  {
    var x, u, v := b + c, a * b, a * c;
    ModProduct(x, a, p);
    Commute(x % p, a);
    Spread(a, b, c);
    Quotients(u, v, p);
    ModUnique(u + v, u % p + v % p, p, u / p + v / p);
  }

  lemma {:induction false} Spread(a: int, b: int, c: int)
    ensures (b + c) * a == a * b + a * c
  {
  }

  lemma {:induction false} Quotients(u: int, v: int, p: int)
    requires p > 0
    ensures u + v == u % p + v % p + (u / p + v / p) * p
  {
  }

  function FrAdd(a: Fr, b: Fr): Fr { AddMod(a, b, ORDER) }

  function FrNeg(a: Fr): Fr { if a == 0 then 0 else ORDER - a }

  function FrMul(a: Fr, b: Fr): Fr { MulMod(a, b, ORDER) }

  /** The ring that the C code computes in, with a given inversion. */
  function FrRing(inverse: Fr -> Fr): Ring<Fr> {
    Ring(Group(0, FrAdd, FrNeg), 1, FrMul, inverse)
  }

  lemma {:induction false} FrAddAssociative(a: Fr, b: Fr, c: Fr)
    ensures FrAdd(FrAdd(a, b), c) == FrAdd(a, FrAdd(b, c))
  {
    AddLaws(a, b, c, ORDER);
  }

  lemma {:induction false} FrMulAssociative(a: Fr, b: Fr, c: Fr)
    ensures FrMul(FrMul(a, b), c) == FrMul(a, FrMul(b, c))
  {
    MulAssociative(a, b, c, ORDER);
  }

  lemma {:induction false} FrDistributes(a: Fr, b: Fr, c: Fr)
    ensures FrMul(a, FrAdd(b, c)) == FrAdd(FrMul(a, b), FrMul(a, c))
  {
    MulDistributes(a, b, c, ORDER);
  }

  /** The scalars form a commutative ring, so the theorems about rings and modules apply to them. */
  lemma {:induction false} FrIsRing(inverse: Fr -> Fr)
    ensures IsRing(FrRing(inverse))
  {
    var R := FrRing(inverse);
    forall a: Fr, b: Fr {:trigger Use2(a, b)}
      ensures R.Plus(a, b) == R.Plus(b, a) && R.Mul(a, b) == R.Mul(b, a)
    {
      Commute(a, b);
    }
    forall a: Fr, b: Fr, c: Fr {:trigger Use3(a, b, c)}
      ensures R.Plus(R.Plus(a, b), c) == R.Plus(a, R.Plus(b, c))
      ensures R.Mul(R.Mul(a, b), c) == R.Mul(a, R.Mul(b, c))
      ensures R.Mul(a, R.Plus(b, c)) == R.Plus(R.Mul(a, b), R.Mul(a, c))
    {
      FrAddAssociative(a, b, c);
      FrMulAssociative(a, b, c);
      FrDistributes(a, b, c);
    }
    forall a: Fr {:trigger Use1(a)}
      ensures R.Plus(a, R.Zero()) == a && R.Plus(a, R.Neg(a)) == R.Zero() && R.Mul(a, R.one) == a
    {
    }
  }
}
