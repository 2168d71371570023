/** Abelian groups, commutative rings and modules, given as records of operations.

    The C code works on the scalar field `Fr` and on the groups `G1` and `G2`, whose arithmetic lives in
    blst.  Everything proved about it here holds for every structure that meets the laws below;
    the module `ScalarField` gives the ring of scalars.

    The laws are quantified with triggers on the predicates `Use1`, `Use2` and `Use3`, so that a proof
    applies a law by naming its arguments and the verifier never rewrites modulo associativity on its own. */
module Algebra {

  ghost predicate Use1<T>(a: T) { true }
  ghost predicate Use2<S, T>(a: S, b: T) { true }
  ghost predicate Use3<S, T, U>(a: S, b: T, c: U) { true }

  datatype Group<!T> = Group(zero: T, add: (T, T) -> T, opp: T -> T) {
    function Plus(a: T, b: T): T { add(a, b) }
    function Neg(a: T): T { opp(a) }
    function Minus(a: T, b: T): T { Plus(a, Neg(b)) }
  }

  datatype Ring<!T> = Ring(additive: Group<T>, one: T, times: (T, T) -> T, recip: T -> T) {
    function Zero(): T { additive.zero }
    function Plus(a: T, b: T): T { additive.Plus(a, b) }
    function Neg(a: T): T { additive.Neg(a) }
    function Minus(a: T, b: T): T { additive.Minus(a, b) }
    function Mul(a: T, b: T): T { times(a, b) }
    function Inv(a: T): T { recip(a) }
    function MinusOne(): T { Neg(one) }
  }

  /** A module over `ring`: `Fr` over itself, or `G1` and `G2` over `Fr`. */
  datatype Space<!S, !G> = Space(ring: Ring<S>, group: Group<G>, scaling: (S, G) -> G) {
    function Scale(s: S, x: G): G { scaling(s, x) }
  }

  ghost predicate IsGroup<T(!new)>(A: Group<T>) {
    && (forall a: T, b: T {:trigger Use2(a, b)} :: Use2(a, b) ==> A.Plus(a, b) == A.Plus(b, a))
    && (forall a: T, b: T, c: T {:trigger Use3(a, b, c)} :: Use3(a, b, c) ==>
          A.Plus(A.Plus(a, b), c) == A.Plus(a, A.Plus(b, c)))
    && (forall a: T {:trigger Use1(a)} :: Use1(a) ==>
          A.Plus(a, A.zero) == a && A.Plus(a, A.Neg(a)) == A.zero)
  }

  ghost predicate IsRing<T(!new)>(R: Ring<T>) {
    && IsGroup(R.additive)
    && (forall a: T, b: T {:trigger Use2(a, b)} :: Use2(a, b) ==> R.Mul(a, b) == R.Mul(b, a))
    && (forall a: T, b: T, c: T {:trigger Use3(a, b, c)} :: Use3(a, b, c) ==>
          && R.Mul(R.Mul(a, b), c) == R.Mul(a, R.Mul(b, c))
          && R.Mul(a, R.Plus(b, c)) == R.Plus(R.Mul(a, b), R.Mul(a, c)))
    && (forall a: T {:trigger Use1(a)} :: Use1(a) ==> R.Mul(a, R.one) == a)
  }

  ghost predicate IsField<T(!new)>(R: Ring<T>) {
    && IsRing(R)
    && R.one != R.Zero()
    && (forall a: T {:trigger Use1(a)} :: Use1(a) ==> a != R.Zero() ==> R.Mul(a, R.Inv(a)) == R.one)
  }

  ghost predicate IsSpace<S(!new), G(!new)>(V: Space<S, G>) {
    && IsRing(V.ring)
    && IsGroup(V.group)
    && (forall s: S, x: G, y: G {:trigger Use3(s, x, y)} :: Use3(s, x, y) ==>
          V.Scale(s, V.group.Plus(x, y)) == V.group.Plus(V.Scale(s, x), V.Scale(s, y)))
    && (forall s: S, t: S, x: G {:trigger Use3(s, t, x)} :: Use3(s, t, x) ==>
          && V.Scale(V.ring.Plus(s, t), x) == V.group.Plus(V.Scale(s, x), V.Scale(t, x))
          && V.Scale(V.ring.Mul(s, t), x) == V.Scale(s, V.Scale(t, x)))
    && (forall x: G {:trigger Use1(x)} :: Use1(x) ==> V.Scale(V.ring.one, x) == x)
  }

  // ----- the laws, one lemma each -----

  lemma {:induction false} PlusComm<T(!new)>(A: Group<T>, a: T, b: T)
    requires IsGroup(A)
    ensures A.Plus(a, b) == A.Plus(b, a)
  {
    assert Use2(a, b);
  }

  lemma {:induction false} PlusAssoc<T(!new)>(A: Group<T>, a: T, b: T, c: T)
    requires IsGroup(A)
    ensures A.Plus(A.Plus(a, b), c) == A.Plus(a, A.Plus(b, c))
  {
    assert Use3(a, b, c);
  }

  lemma {:induction false} PlusZero<T(!new)>(A: Group<T>, a: T)
    requires IsGroup(A)
    ensures A.Plus(A.zero, a) == a && A.Plus(a, A.zero) == a
  {
    assert Use2(A.zero, a) && Use1(a);
  }

  lemma {:induction false} PlusNeg<T(!new)>(A: Group<T>, a: T)
    requires IsGroup(A)
    ensures A.Plus(a, A.Neg(a)) == A.zero && A.Plus(A.Neg(a), a) == A.zero && A.Minus(a, a) == A.zero
  {
    assert Use1(a) && Use2(a, A.Neg(a));
  }

  lemma {:induction false} MulComm<T(!new)>(R: Ring<T>, a: T, b: T)
    requires IsRing(R)
    ensures R.Mul(a, b) == R.Mul(b, a)
  {
    assert Use2(a, b);
  }

  lemma {:induction false} MulAssoc<T(!new)>(R: Ring<T>, a: T, b: T, c: T)
    requires IsRing(R)
    ensures R.Mul(R.Mul(a, b), c) == R.Mul(a, R.Mul(b, c))
  {
    assert Use3(a, b, c);
  }

  lemma {:induction false} Distrib<T(!new)>(R: Ring<T>, a: T, b: T, c: T)
    requires IsRing(R)
    ensures R.Mul(a, R.Plus(b, c)) == R.Plus(R.Mul(a, b), R.Mul(a, c))
    ensures R.Mul(R.Plus(b, c), a) == R.Plus(R.Mul(b, a), R.Mul(c, a))
  {
    assert Use3(a, b, c);
    assert Use2(a, R.Plus(b, c)) && Use2(a, b) && Use2(a, c);
  }

  lemma {:induction false} OneMul<T(!new)>(R: Ring<T>, a: T)
    requires IsRing(R)
    ensures R.Mul(R.one, a) == a && R.Mul(a, R.one) == a
  {
    assert Use2(R.one, a) && Use1(a);
  }

  lemma {:induction false} MulInv<T(!new)>(R: Ring<T>, a: T)
    requires IsField(R) && a != R.Zero()
    ensures R.Mul(a, R.Inv(a)) == R.one && R.Mul(R.Inv(a), a) == R.one
  {
    assert Use1(a) && Use2(a, R.Inv(a));
  }

  lemma {:induction false} ScalePlus<S(!new), G(!new)>(V: Space<S, G>, s: S, x: G, y: G)
    requires IsSpace(V)
    ensures V.Scale(s, V.group.Plus(x, y)) == V.group.Plus(V.Scale(s, x), V.Scale(s, y))
  {
    assert Use3(s, x, y);
  }

  lemma {:induction false} ScaleSum<S(!new), G(!new)>(V: Space<S, G>, s: S, t: S, x: G)
    requires IsSpace(V)
    ensures V.Scale(V.ring.Plus(s, t), x) == V.group.Plus(V.Scale(s, x), V.Scale(t, x))
  {
    assert Use3(s, t, x);
  }

  lemma {:induction false} ScaleMul<S(!new), G(!new)>(V: Space<S, G>, s: S, t: S, x: G)
    requires IsSpace(V)
    ensures V.Scale(V.ring.Mul(s, t), x) == V.Scale(s, V.Scale(t, x))
  {
    assert Use3(s, t, x);
  }

  lemma {:induction false} ScaleOne<S(!new), G(!new)>(V: Space<S, G>, x: G)
    requires IsSpace(V)
    ensures V.Scale(V.ring.one, x) == x
  {
    assert Use1(x);
  }

  // ----- groups -----

  lemma {:induction false} PlusSwap4<T(!new)>(A: Group<T>, a: T, b: T, c: T, d: T)
    requires IsGroup(A)
    ensures A.Plus(A.Plus(a, b), A.Plus(c, d)) == A.Plus(A.Plus(a, c), A.Plus(b, d))
  {
    PlusAssoc(A, a, b, A.Plus(c, d));
    PlusAssoc(A, b, c, d);
    PlusComm(A, b, c);
    PlusAssoc(A, c, b, d);
    PlusAssoc(A, a, c, A.Plus(b, d));
  }

  lemma {:induction false} PlusCancel<T(!new)>(A: Group<T>, a: T, b: T, c: T)
    requires IsGroup(A)
    requires A.Plus(a, c) == A.Plus(b, c)
    ensures a == b
  {
    PlusAssoc(A, a, c, A.Neg(c));
    PlusAssoc(A, b, c, A.Neg(c));
    PlusNeg(A, c);
    PlusZero(A, a);
    PlusZero(A, b);
  }

  lemma {:induction false} NegUnique<T(!new)>(A: Group<T>, a: T, b: T)
    requires IsGroup(A)
    requires A.Plus(a, b) == A.zero
    ensures b == A.Neg(a)
  {
    PlusComm(A, a, b);
    PlusNeg(A, a);
    PlusCancel(A, b, A.Neg(a), a);
  }

  lemma {:induction false} NegNeg<T(!new)>(A: Group<T>, a: T)
    requires IsGroup(A)
    ensures A.Neg(A.Neg(a)) == a
    ensures A.Neg(A.zero) == A.zero
  {
    PlusNeg(A, a);
    NegUnique(A, A.Neg(a), a);
    PlusZero(A, A.zero);
    NegUnique(A, A.zero, A.zero);
  }

  // ----- rings -----

  lemma {:induction false} MulZero<T(!new)>(R: Ring<T>, a: T)
    requires IsRing(R)
    ensures R.Mul(a, R.Zero()) == R.Zero() && R.Mul(R.Zero(), a) == R.Zero()
  {
    var z := R.Zero();
    Distrib(R, a, z, z);
    PlusZero(R.additive, z);
    PlusZero(R.additive, R.Mul(a, z));
    PlusCancel(R.additive, R.Mul(a, z), z, R.Mul(a, z));
    MulComm(R, a, z);
  }

  lemma {:induction false} MulNeg<T(!new)>(R: Ring<T>, a: T, b: T)
    requires IsRing(R)
    ensures R.Mul(a, R.Neg(b)) == R.Neg(R.Mul(a, b))
    ensures R.Mul(R.Neg(a), b) == R.Neg(R.Mul(a, b))
  {
    MulZero(R, a);
    MulZero(R, b);
    PlusNeg(R.additive, a);
    PlusNeg(R.additive, b);
    Distrib(R, a, b, R.Neg(b));
    NegUnique(R.additive, R.Mul(a, b), R.Mul(a, R.Neg(b)));
    Distrib(R, b, a, R.Neg(a));
    NegUnique(R.additive, R.Mul(a, b), R.Mul(R.Neg(a), b));
  }

  lemma {:induction false} MulSwap4<T(!new)>(R: Ring<T>, a: T, b: T, c: T, d: T)
    requires IsRing(R)
    ensures R.Mul(R.Mul(a, b), R.Mul(c, d)) == R.Mul(R.Mul(a, c), R.Mul(b, d))
  {
    MulAssoc(R, a, b, R.Mul(c, d));
    MulAssoc(R, b, c, d);
    MulComm(R, b, c);
    MulAssoc(R, c, b, d);
    MulAssoc(R, a, c, R.Mul(b, d));
  }

  lemma {:induction false} NoZeroDivisors<T(!new)>(R: Ring<T>, a: T, b: T)
    requires IsField(R)
    requires R.Mul(a, b) == R.Zero()
    ensures a == R.Zero() || b == R.Zero()
  {
    if a != R.Zero() {
      MulInv(R, a);
      MulAssoc(R, R.Inv(a), a, b);
      OneMul(R, b);
      MulZero(R, R.Inv(a));
    }
  }

  lemma {:induction false} SquareRootOfOne<T(!new)>(R: Ring<T>, x: T)
    requires IsField(R) && R.Mul(x, x) == R.one && x != R.one
    ensures x == R.MinusOne()
  {
    var A, u := R.additive, R.MinusOne();
    // (x - 1) (x + 1) == 0
    var y, z := R.Plus(x, u), R.Plus(x, R.one);
    Distrib(R, y, x, R.one);
    OneMul(R, y);
    Distrib(R, x, x, u);
    MulNeg(R, x, R.one);
    MulNeg(R, R.one, x);
    OneMul(R, x);
    // y x == 1 - x and y 1 == x - 1
    assert R.Mul(y, z) == R.Plus(R.Plus(R.one, R.Neg(x)), R.Plus(x, u));
    PlusSwap4(A, R.one, R.Neg(x), x, u);
    PlusComm(A, R.one, x);
    PlusComm(A, R.Neg(x), u);
    PlusSwap4(A, x, R.one, u, R.Neg(x));
    PlusSwap4(A, x, u, R.one, R.Neg(x));
    PlusNeg(A, x);
    PlusNeg(A, R.one);
    PlusZero(A, R.Zero());
    PlusComm(A, R.Neg(x), x);
    PlusAssoc(A, R.one, R.Neg(x), R.Plus(x, u));
    PlusAssoc(A, R.Neg(x), x, u);
    PlusZero(A, u);
    assert R.Mul(y, z) == R.Zero();
    NoZeroDivisors(R, y, z);
    if y == R.Zero() {
      PlusComm(A, x, u);
      NegUnique(A, u, x);
      NegNeg(A, R.one);
      assert false;
    }
    PlusComm(A, x, R.one);
    NegUnique(A, R.one, x);
  }

  function Pow<T>(R: Ring<T>, x: T, n: nat): T {
    if n == 0 then R.one else R.Mul(Pow(R, x, n - 1), x)
  }

  lemma {:induction false} PowAdd<T(!new)>(R: Ring<T>, x: T, m: nat, n: nat)
    requires IsRing(R)
    ensures Pow(R, x, m + n) == R.Mul(Pow(R, x, m), Pow(R, x, n))
  {
    if n == 0 {
      OneMul(R, Pow(R, x, m));
    } else {
      PowAdd(R, x, m, n - 1);
      MulAssoc(R, Pow(R, x, m), Pow(R, x, n - 1), x);
    }
  }

  lemma {:induction false} PowMul<T(!new)>(R: Ring<T>, x: T, m: nat, n: nat)
    requires IsRing(R)
    ensures Pow(R, Pow(R, x, m), n) == Pow(R, x, m * n)
  {
    if n == 0 {
      assert m * n == 0;
    } else {
      PowMul(R, x, m, n - 1);
      PowAdd(R, x, m * (n - 1), m);
      assert m * (n - 1) + m == m * n;
    }
  }

  lemma {:induction false} PowAddAs<T(!new)>(R: Ring<T>, x: T, m: nat, n: nat, e: nat)
    requires IsRing(R) && e == m + n
    ensures Pow(R, x, e) == R.Mul(Pow(R, x, m), Pow(R, x, n))
  {
    PowAdd(R, x, m, n);
  }

  lemma {:induction false} PowMulAs<T(!new)>(R: Ring<T>, x: T, m: nat, n: nat, e: nat)
    requires IsRing(R) && e == m * n
    ensures Pow(R, Pow(R, x, m), n) == Pow(R, x, e)
  {
    PowMul(R, x, m, n);
  }

  lemma {:induction false} PowZero<T(!new)>(R: Ring<T>, e: nat)
    requires IsRing(R) && e > 0
    ensures Pow(R, R.Zero(), e) == R.Zero()
  {
    MulZero(R, Pow(R, R.Zero(), e - 1));
  }

  lemma {:induction false} PowOne<T(!new)>(R: Ring<T>, n: nat)
    requires IsRing(R)
    ensures Pow(R, R.one, n) == R.one
  {
    if n > 0 {
      PowOne(R, n - 1);
      OneMul(R, R.one);
    }
  }

  lemma {:induction false} PowOfProduct<T(!new)>(R: Ring<T>, x: T, y: T, n: nat)
    requires IsRing(R)
    ensures Pow(R, R.Mul(x, y), n) == R.Mul(Pow(R, x, n), Pow(R, y, n))
  {
    if n == 0 {
      OneMul(R, R.one);
    } else {
      PowOfProduct(R, x, y, n - 1);
      MulSwap4(R, Pow(R, x, n - 1), Pow(R, y, n - 1), x, y);
    }
  }

  /** Exponents may be reduced modulo the order of a root of unity. */
  lemma {:induction false} PowMod<T(!new)>(R: Ring<T>, w: T, n: nat, k: nat)
    requires IsRing(R)
    requires n > 0 && Pow(R, w, n) == R.one
    ensures Pow(R, w, k % n) == Pow(R, w, k)
  {
    var q := k / n;
    assert k == n * q + k % n;
    PowAdd(R, w, n * q, k % n);
    PowMul(R, w, n, q);
    PowOne(R, q);
    OneMul(R, Pow(R, w, k % n));
  }

  /** `blst_fr_from_uint64`: the natural number `n` as a ring element. */
  function OfNat<T>(R: Ring<T>, n: nat): T {
    if n == 0 then R.Zero() else R.Plus(OfNat(R, n - 1), R.one)
  }

  // ----- modules -----

  lemma {:induction false} ScaleZero<S(!new), G(!new)>(V: Space<S, G>, s: S, x: G)
    requires IsSpace(V)
    ensures V.Scale(V.ring.Zero(), x) == V.group.zero
    ensures V.Scale(s, V.group.zero) == V.group.zero
  {
    var A, o, z := V.group, V.ring.Zero(), V.group.zero;
    ScaleSum(V, o, o, x);
    PlusZero(V.ring.additive, o);
    PlusZero(A, V.Scale(o, x));
    PlusCancel(A, V.Scale(o, x), z, V.Scale(o, x));
    ScalePlus(V, s, z, z);
    PlusZero(A, z);
    PlusZero(A, V.Scale(s, z));
    PlusCancel(A, V.Scale(s, z), z, V.Scale(s, z));
  }

  lemma {:induction false} ScaleNeg<S(!new), G(!new)>(V: Space<S, G>, s: S, x: G)
    requires IsSpace(V)
    ensures V.Scale(V.ring.Neg(s), x) == V.group.Neg(V.Scale(s, x))
  {
    ScaleZero(V, s, x);
    ScaleSum(V, s, V.ring.Neg(s), x);
    PlusNeg(V.ring.additive, s);
    NegUnique(V.group, V.Scale(s, x), V.Scale(V.ring.Neg(s), x));
  }

  /** A ring as a module over itself: the form in which the `Fr` code is an instance. */
  function SelfSpace<T>(R: Ring<T>): Space<T, T> {
    Space(R, R.additive, R.times)
  }

  lemma {:induction false} SelfSpaceIsSpace<T(!new)>(R: Ring<T>)
    requires IsRing(R)
    ensures IsSpace(SelfSpace(R))
  {
    var V := SelfSpace(R);
    forall s: T, x: T, y: T {:trigger Use3(s, x, y)}
      ensures V.Scale(s, V.group.Plus(x, y)) == V.group.Plus(V.Scale(s, x), V.Scale(s, y))
    {
      Distrib(R, s, x, y);
    }
    forall s: T, t: T, x: T {:trigger Use3(s, t, x)}
      ensures V.Scale(V.ring.Plus(s, t), x) == V.group.Plus(V.Scale(s, x), V.Scale(t, x))
      ensures V.Scale(V.ring.Mul(s, t), x) == V.Scale(s, V.Scale(t, x))
    {
      Distrib(R, x, s, t);
      MulAssoc(R, s, t, x);
    }
    forall x: T {:trigger Use1(x)}
      ensures V.Scale(V.ring.one, x) == x
    {
      OneMul(R, x);
    }
  }
}
