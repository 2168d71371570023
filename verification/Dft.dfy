/** The discrete Fourier transform as a formula, its inverse, and the even/odd split behind the fast transform. */
module Dft {
  import opened Algebra
  import opened Sums
  import opened Bits
  import opened Arith

  /** A coefficient sequence read as infinite: zero outside its range. */
  function At<T>(A: Group<T>, c: seq<T>, i: int): T {
    if 0 <= i < |c| then c[i] else A.zero
  }

  /** The summands of X_k: w^(k t) times the t-th coefficient. */
  function Terms<S, G>(V: Space<S, G>, c: seq<G>, w: S, k: nat): int -> G {
    t => if t < 0 then V.group.zero else V.Scale(Pow(V.ring, w, k * t), At(V.group, c, t))
  }

  /** X_k: the sum over t < n of w^(k t) times the t-th coefficient. */
  function DftAt<S, G>(V: Space<S, G>, c: seq<G>, w: S, n: nat, k: nat): G {
    Sum(V.group, n, Terms(V, c, w, k))
  }

  /** The transform of length `n` of `c`, padded with zeros. */
  function Transform<S, G>(V: Space<S, G>, c: seq<G>, w: S, n: nat): (X: seq<G>)
    ensures |X| == n
  {
    seq(n, k requires 0 <= k => DftAt(V, c, w, n, k))
  }

  // ----- geometric sums and principal roots of unity -----

  function Powers<T>(R: Ring<T>, x: T): int -> T {
    k => if k < 0 then R.Zero() else Pow(R, x, k)
  }

  function Geometric<T>(R: Ring<T>, x: T, n: nat): T {
    Sum(R.additive, n, Powers(R, x))
  }

  /** `w` is an n-th root of unity whose proper powers have vanishing geometric sums. */
  ghost predicate Principal<T>(R: Ring<T>, w: T, n: nat) {
    && n > 0
    && Pow(R, w, n) == R.one
    && forall d | 0 < d < n :: Geometric(R, Pow(R, w, d), n) == R.Zero()
  }

  lemma {:induction false} GeometricAdd<T(!new)>(R: Ring<T>, x: T, m: nat, n: nat)
    requires IsRing(R)
    ensures Geometric(R, x, m + n) == R.Plus(Geometric(R, x, m), R.Mul(Pow(R, x, m), Geometric(R, x, n)))
  {
    var A, p := R.additive, Pow(R, x, m);
    if n == 0 {
      MulZero(R, p);
      PlusZero(A, Geometric(R, x, m));
    } else {
      GeometricAdd(R, x, m, n - 1);
      PowAdd(R, x, m, n - 1);
      var s, q := Geometric(R, x, n - 1), Pow(R, x, n - 1);
      assert Geometric(R, x, n) == R.Plus(s, q);
      Distrib(R, p, s, q);
      PlusAssoc(A, Geometric(R, x, m), R.Mul(p, s), R.Mul(p, q));
    }
  }

  lemma {:induction false} GeometricTelescopes<T(!new)>(R: Ring<T>, x: T, n: nat)
    requires IsRing(R)
    ensures R.Plus(R.Mul(Geometric(R, x, n), x), R.one) == R.Plus(Geometric(R, x, n), Pow(R, x, n))
  {
    var A := R.additive;
    if n == 0 {
      MulZero(R, x);
    } else {
      GeometricTelescopes(R, x, n - 1);
      var s, p := Geometric(R, x, n - 1), Pow(R, x, n - 1);
      assert Geometric(R, x, n) == R.Plus(s, p);
      Distrib(R, x, s, p);
      PlusComm(A, R.Mul(s, x), R.Mul(p, x));
      PlusAssoc(A, R.Mul(p, x), R.Mul(s, x), R.one);
      PlusComm(A, R.Mul(p, x), R.Plus(s, p));
    }
  }

  /** In a field, a primitive root of unity is a principal one. */
  lemma {:induction false} PrimitiveIsPrincipal<T(!new)>(R: Ring<T>, w: T, n: nat)
    requires IsField(R)
    requires n > 0 && Pow(R, w, n) == R.one
    requires forall d | 0 < d < n :: Pow(R, w, d) != R.one
    ensures Principal(R, w, n)
  {
    forall d | 0 < d < n
      ensures Geometric(R, Pow(R, w, d), n) == R.Zero()
    {
      var x, A := Pow(R, w, d), R.additive;
      var s := Geometric(R, x, n);
      PowMul(R, w, d, n);
      PowMul(R, w, n, d);
      assert d * n == n * d;
      PowOne(R, d);
      GeometricTelescopes(R, x, n);
      PlusCancel(A, R.Mul(s, x), s, R.one);
      // s x == s, so s (x - 1) == 0
      var y := R.Plus(x, R.Neg(R.one));
      Distrib(R, s, x, R.Neg(R.one));
      MulNeg(R, s, R.one);
      OneMul(R, s);
      PlusNeg(A, s);
      NoZeroDivisors(R, s, y);
      if y == R.Zero() {
        PlusAssoc(A, x, R.Neg(R.one), R.one);
        PlusNeg(A, R.one);
        PlusZero(A, x);
        PlusZero(A, R.one);
      }
    }
  }

  lemma {:induction false} PowMinusOneOdd<T(!new)>(R: Ring<T>, d: nat)
    requires IsRing(R)
    ensures Pow(R, R.MinusOne(), 2 * d) == R.one
    ensures Pow(R, R.MinusOne(), 2 * d + 1) == R.MinusOne()
  {
    var u := R.MinusOne();
    MulNeg(R, u, R.one);
    OneMul(R, u);
    OneMul(R, R.one);
    NegNeg(R.additive, R.one);
    assert R.Mul(u, u) == R.one;
    if d > 0 {
      PowMinusOneOdd(R, d - 1);
      assert Pow(R, u, 2 * d) == R.Mul(Pow(R, u, 2 * d - 1), u);
    }
    OneMul(R, u);
  }

  /** For sizes that are powers of two, w^(n/2) == -1 alone makes `w` principal: opposite terms cancel. */
  lemma {:induction false} HalfTurnIsPrincipal<T(!new)>(R: Ring<T>, w: T, l: nat)
    requires IsRing(R)
    requires HalfTurn(R, w, l)
    ensures Principal(R, w, Pow2(l))
  {
    if l == 0 {
      OneMul(R, R.one);
      assert Pow(R, w, 1) == R.Mul(Pow(R, w, 0), w);
    } else {
      var m := Pow2(l - 1);
      PowAdd(R, w, m, m);
      PowMinusOneOdd(R, 1);
      assert Pow(R, R.MinusOne(), 2) == R.Mul(Pow(R, R.MinusOne(), 1), R.MinusOne());
      PowMinusOneOdd(R, 0);
      forall d | 0 < d < 2 * m
        ensures Geometric(R, Pow(R, w, d), 2 * m) == R.Zero()
      {
        if d % 2 == 1 {
          OddTermsCancel(R, w, d, m);
        } else {
          // w^d == (w^2)^(d/2), and w^2 is a half turn of the smaller size
          SquareHalfTurn(R, w, l);
          HalfTurnIsPrincipal(R, Pow(R, w, 2), l - 1);
          EvenTermsCancel(R, w, d, d / 2, m);
        }
      }
    }
  }

  /** With x == w^d, x^m == (w^m)^d == -1. */
  lemma {:induction false} OddTermsCancel<T(!new)>(R: Ring<T>, w: T, d: nat, m: nat)
    requires IsRing(R) && d % 2 == 1 && Pow(R, w, m) == R.MinusOne()
    ensures Geometric(R, Pow(R, w, d), 2 * m) == R.Zero()
  {
    hide Pow;
    var x := Pow(R, w, d);
    GeometricAdd(R, x, m, m);
    NatProduct(d, m);
    PowMulAs(R, w, d, m, d * m);
    PowMulAs(R, w, m, d, d * m);
    PowMinusOneOdd(R, d / 2);
    MulNeg(R, R.one, Geometric(R, x, m));
    OneMul(R, Geometric(R, x, m));
    PlusNeg(R.additive, Geometric(R, x, m));
  }

  lemma {:induction false} EvenTermsCancel<T(!new)>(R: Ring<T>, w: T, d: nat, h: nat, m: nat)
    requires IsRing(R) && d == 2 * h && 0 < h < m && Principal(R, Pow(R, w, 2), m)
    ensures Geometric(R, Pow(R, w, d), 2 * m) == R.Zero()
  {
    hide Pow;
    var x := Pow(R, w, d);
    GeometricAdd(R, x, m, m);
    PowMulAs(R, w, 2, h, d);
    MulZero(R, Pow(R, x, m));
    PlusZero(R.additive, R.Zero());
  }

  /** The precondition of the fast transform of size 2^l. */
  ghost predicate HalfTurn<T>(R: Ring<T>, w: T, l: nat) {
    if l == 0 then w == R.one else Pow(R, w, Pow2(l - 1)) == R.MinusOne()
  }

  lemma {:induction false} SquareHalfTurn<T(!new)>(R: Ring<T>, w: T, l: nat)
    requires IsRing(R)
    requires l > 0 && HalfTurn(R, w, l)
    ensures HalfTurn(R, Pow(R, w, 2), l - 1)
  {
    if l > 1 {
      PowMul(R, w, 2, Pow2(l - 2));
    } else {
      PowAdd(R, w, 1, 1);
      PowMinusOneOdd(R, 1);
      PowMinusOneOdd(R, 0);
      assert Pow(R, R.MinusOne(), 2) == R.Mul(Pow(R, R.MinusOne(), 1), R.MinusOne());
    }
  }

  // ----- the inverse transform -----

  /** The powers of a principal root are orthogonal. */
  lemma {:induction false} Orthogonality<T(!new)>(R: Ring<T>, w: T, n: nat, d: nat)
    requires IsRing(R) && Principal(R, w, n)
    ensures Geometric(R, Pow(R, w, d), n) == if d % n == 0 then OfNat(R, n) else R.Zero()
  {
    PowMod(R, w, n, d);
    if d % n == 0 {
      forall k | 0 <= k < n
        ensures Powers(R, R.one)(k) == R.one
      {
        PowOne(R, k);
      }
      SumOfOnes(R, n, Powers(R, R.one));
    }
  }

  lemma {:induction false} ExponentDifference(n: nat, j: nat, t: nat)
    requires j < n && t < n
    ensures ((n - 1) * j + t) % n == 0 <==> t == j
  {
    var a := (n - 1) * j + t;
    assert a == n * j + (t - j) by {
      assert (n - 1) * j == n * j - j;
    }
    if t >= j {
      DivModUnique(a, n, j, t - j);
    } else {
      assert n * (j - 1) == n * j - n;
      DivModUnique(a, n, j - 1, n + t - j);
    }
  }

  lemma {:induction false} MixedPower<T(!new)>(R: Ring<T>, w: T, n: nat, j: nat, k: nat, t: nat)
    requires IsRing(R) && n > 0
    ensures R.Mul(Pow(R, Pow(R, w, n - 1), j * k), Pow(R, w, k * t)) == Pow(R, Pow(R, w, (n - 1) * j + t), k)
  {
    hide Pow;
    var m := n - 1;
    MixedExponent(m, j, k, t);
    MixedPowers(R, w, m, j * k, k * t, m * j + t, k, m * (j * k), (m * j + t) * k);
  }

  lemma {:induction false} MixedExponent(m: int, j: int, k: int, t: int)
    ensures m * (j * k) + k * t == (m * j + t) * k
  {
    assert m * (j * k) == (m * j) * k;
  }

  lemma {:induction false} MixedPowers<T(!new)>(
      R: Ring<T>, w: T, m: nat, p: nat, q: nat, d: nat, k: nat, mp: nat, dk: nat)
    requires IsRing(R) && mp == m * p && dk == d * k && dk == mp + q
    ensures R.Mul(Pow(R, Pow(R, w, m), p), Pow(R, w, q)) == Pow(R, Pow(R, w, d), k)
  {
    hide Pow;
    PowMulAs(R, w, m, p, mp);
    PowAddAs(R, w, mp, q, dk);
    PowMulAs(R, w, d, k, dk);
  }

  /** Transforming with w, then with its inverse w^(n-1), and dividing by n gives the coefficients back. */
  lemma {:induction false} InverseDft<S(!new), G(!new)>(V: Space<S, G>, c: seq<G>, w: S, n: nat, u: S, j: nat)
    requires IsSpace(V) && Principal(V.ring, w, n)
    requires V.ring.Mul(u, OfNat(V.ring, n)) == V.ring.one
    requires j < n
    ensures V.Scale(u, DftAt(V, Transform(V, c, w, n), Pow(V.ring, w, n - 1), n, j)) == At(V.group, c, j)
  {
    var R, A, X, v := V.ring, V.group, Transform(V, c, w, n), Pow(V.ring, w, n - 1);
    var F := InverseTerms(V, c, w, n, j);
    var columns: int -> G := t => Sum(A, n, k => F(k, t));
    forall k | 0 <= k < n
      ensures Terms(V, X, v, j)(k) == Sum(A, n, t => F(k, t))
    {
      InverseRow(V, c, w, n, j, k, t => F(k, t));
    }
    SumSwap(A, n, n, F, Terms(V, X, v, j), columns);
    forall t | 0 <= t < n
      ensures columns(t) == if t == j then V.Scale(OfNat(R, n), At(A, c, t)) else A.zero
    {
      InverseColumn(V, c, w, n, j, t, k => F(k, t));
    }
    SumSingle(A, n, columns, j);
    ScaleMul(V, u, OfNat(R, n), At(A, c, j));
    ScaleOne(V, At(A, c, j));
  }

  function InverseTerms<S, G>(V: Space<S, G>, c: seq<G>, w: S, n: nat, j: nat): (int, int) -> G
    requires n > 0
  {
    (k, t) => if k < 0 || t < 0 then V.group.zero
              else V.Scale(Pow(V.ring, Pow(V.ring, w, (n - 1) * j + t), k), At(V.group, c, t))
  }

  lemma {:induction false} InverseColumn<S(!new), G(!new)>(
      V: Space<S, G>, c: seq<G>, w: S, n: nat, j: nat, t: nat, column: int -> G)
    requires IsSpace(V) && Principal(V.ring, w, n)
    requires j < n && t < n
    requires forall k | 0 <= k < n ::
               column(k) == V.Scale(Pow(V.ring, Pow(V.ring, w, (n - 1) * j + t), k), At(V.group, c, t))
    ensures Sum(V.group, n, column) ==
            if t == j then V.Scale(OfNat(V.ring, n), At(V.group, c, t)) else V.group.zero
  {
    var d := (n - 1) * j + t;
    SumOfScalars(V, n, Powers(V.ring, Pow(V.ring, w, d)), At(V.group, c, t), column);
    Orthogonality(V.ring, w, n, d);
    ExponentDifference(n, j, t);
    ScaleZero(V, V.ring.one, At(V.group, c, t));
  }

  lemma {:induction false} InverseRow<S(!new), G(!new)>(
      V: Space<S, G>, c: seq<G>, w: S, n: nat, j: nat, k: nat, row: int -> G)
    requires IsSpace(V) && k < n
    requires forall t | 0 <= t < n ::
               row(t) == V.Scale(Pow(V.ring, Pow(V.ring, w, (n - 1) * j + t), k), At(V.group, c, t))
    ensures Terms(V, Transform(V, c, w, n), Pow(V.ring, w, n - 1), j)(k) == Sum(V.group, n, row)
  {
    var s, f := Pow(V.ring, Pow(V.ring, w, n - 1), j * k), Terms(V, c, w, k);
    forall t | 0 <= t < n
      ensures row(t) == V.Scale(s, f(t))
    {
      MixedPower(V.ring, w, n, j, k, t);
      ScaleMul(V, s, Pow(V.ring, w, k * t), At(V.group, c, t));
    }
    ScaleOfSum(V, s, n, f, row);
  }

  // ----- the even/odd split -----

  /** One value of a short transform: the `m` coefficients of `c` at r, r + e, r + 2e, ... transformed with v^e. */
  function Block<S, G>(V: Space<S, G>, c: seq<G>, v: S, e: nat, r: nat, m: nat, j: nat): G {
    Sum(V.group, m, BlockTerms(V, c, v, e, r, j))
  }

  function BlockTerms<S, G>(V: Space<S, G>, c: seq<G>, v: S, e: nat, r: nat, j: nat): int -> G {
    t => if t < 0 then V.group.zero else V.Scale(Pow(V.ring, v, e * j * t), At(V.group, c, r + e * t))
  }

  lemma {:induction false} BlockTerm<S, G>(
      V: Space<S, G>, c: seq<G>, v: S, e: nat, r: nat, j: nat, t: nat, x: nat, p: nat)
    requires x == e * j * t && p == r + e * t
    ensures BlockTerms(V, c, v, e, r, j)(t) == V.Scale(Pow(V.ring, v, x), At(V.group, c, p))
  {
  }

  /** A block of 2m values from two blocks of m values: the butterfly. */
  lemma {:induction false} Butterfly<S(!new), G(!new)>(V: Space<S, G>, c: seq<G>, v: S, e: nat, r: nat, m: nat, j: nat)
    requires IsSpace(V)
    requires j < m && Pow(V.ring, v, e * m) == V.ring.MinusOne()
    ensures Block(V, c, v, e, r, 2 * m, j) ==
            V.group.Plus(Block(V, c, v, 2 * e, r, m, j),
                         V.Scale(Pow(V.ring, v, e * j), Block(V, c, v, 2 * e, r + e, m, j)))
    ensures Block(V, c, v, e, r, 2 * m, j + m) ==
            V.group.Minus(Block(V, c, v, 2 * e, r, m, j),
                          V.Scale(Pow(V.ring, v, e * j), Block(V, c, v, 2 * e, r + e, m, j)))
  {
    var R := V.ring;
    HalfBlock(V, c, v, e, r, m, j, j, Pow(R, v, e * j));
    // the upper half: v^(e (j + m)) == - v^(e j), and even powers lose the sign
    PowAdd(R, v, e * j, e * m);
    assert e * (j + m) == e * j + e * m;
    MulNeg(R, Pow(R, v, e * j), R.one);
    OneMul(R, Pow(R, v, e * j));
    HalfBlock(V, c, v, e, r, m, j, j + m, Pow(R, v, e * (j + m)));
    ScaleNeg(V, Pow(R, v, e * j), Block(V, c, v, 2 * e, r + e, m, j));
  }

  /** Splitting the terms of a block at `J` (either j or j + m) into even and odd positions. */
  lemma {:induction false} HalfBlock<S(!new), G(!new)>(
      V: Space<S, G>, c: seq<G>, v: S, e: nat, r: nat, m: nat, j: nat, J: nat, s: S)
    requires IsSpace(V)
    requires j < m && (J == j || (J == j + m && Pow(V.ring, v, e * m) == V.ring.MinusOne()))
    requires s == Pow(V.ring, v, e * J)
    ensures Block(V, c, v, e, r, 2 * m, J) ==
            V.group.Plus(Block(V, c, v, 2 * e, r, m, j), V.Scale(s, Block(V, c, v, 2 * e, r + e, m, j)))
  {
    var even, odd := BlockTerms(V, c, v, 2 * e, r, j), BlockTerms(V, c, v, 2 * e, r + e, j);
    var scaled: int -> G := t => V.Scale(s, odd(t));
    forall t | 0 <= t < m
      ensures even(t) == BlockTerms(V, c, v, e, r, J)(2 * t)
      ensures scaled(t) == BlockTerms(V, c, v, e, r, J)(2 * t + 1)
    {
      HalfBlockTerms(V, c, v, e, r, m, j, J, t);
    }
    SumEvenOdd(V.group, m, BlockTerms(V, c, v, e, r, J), even, scaled);
    ScaleOfSum(V, s, m, odd, scaled);
  }

  lemma {:induction false} HalfBlockTerms<S(!new), G(!new)>(
      V: Space<S, G>, c: seq<G>, v: S, e: nat, r: nat, m: nat, j: nat, J: nat, t: nat)
    requires IsSpace(V)
    requires J == j || (J == j + m && Pow(V.ring, v, e * m) == V.ring.MinusOne())
    ensures BlockTerms(V, c, v, e, r, J)(2 * t) == BlockTerms(V, c, v, 2 * e, r, j)(t)
    ensures BlockTerms(V, c, v, e, r, J)(2 * t + 1) ==
            V.Scale(Pow(V.ring, v, e * J), BlockTerms(V, c, v, 2 * e, r + e, j)(t))
  {
    hide Pow, BlockTerms;
    var E, x, p, even, odd, low, high := StrideTerms(e, j, J, r, t);
    BlockTerm(V, c, v, e, r, J, 2 * t, even, low);
    BlockTerm(V, c, v, e, r, J, 2 * t + 1, odd, high);
    BlockTerm(V, c, v, E, r, j, t, p, low);
    BlockTerm(V, c, v, E, r + e, j, t, p, high);
    EvenExponent(V.ring, v, e, m, j, J, t, x, p, even, odd);
    ScaleMul(V, Pow(V.ring, v, x), Pow(V.ring, v, p), At(V.group, c, high));
  }

  lemma {:induction false} StrideTerms(e: nat, j: nat, J: nat, r: nat, t: nat)
    returns (E: nat, x: nat, p: nat, even: nat, odd: nat, low: nat, high: nat)
    ensures E == 2 * e && x == e * J && p == E * j * t
    ensures even == e * J * (2 * t) && odd == e * J * (2 * t + 1)
    ensures low == r + e * (2 * t) == r + E * t
    ensures high == r + e * (2 * t + 1) == (r + e) + E * t
  {
    NatProduct(2 * e, t);
    NatProduct(2 * e, j);
    NatProduct(2 * e * j, t);
    NatProduct(e, J);
    NatProduct(e * J, 2 * t);
    NatProduct(e * J, 2 * t + 1);
    StrideArith(e, t);
    return 2 * e, e * J, 2 * e * j * t, e * J * (2 * t), e * J * (2 * t + 1), r + 2 * e * t, r + e + 2 * e * t;
  }

  lemma {:induction false} EvenExponent<T(!new)>(
      R: Ring<T>, v: T, e: nat, m: nat, j: nat, J: nat, t: nat, x: nat, p: nat, even: nat, odd: nat)
    requires IsRing(R)
    requires J == j || (J == j + m && Pow(R, v, e * m) == R.MinusOne())
    requires x == e * J && p == 2 * e * j * t && even == e * J * (2 * t) && odd == e * J * (2 * t + 1)
    ensures Pow(R, v, even) == Pow(R, v, p)
    ensures Pow(R, v, odd) == R.Mul(Pow(R, v, x), Pow(R, v, p))
  {
    hide Pow;
    EvenExponentArith(e, m, j, J, t);
    if J != j {
      NatProduct(e, m);
      NatProduct(e * m, 2 * t);
      EvenSign(R, v, e * m, t, 2 * t, p, (e * m) * (2 * t), even);
    }
    PowAddAs(R, v, x, even, odd);
  }

  /** Even powers lose the sign. */
  lemma {:induction false} EvenSign<T(!new)>(R: Ring<T>, v: T, h: nat, t: nat, tt: nat, base: nat, ht: nat, even: nat)
    requires IsRing(R) && Pow(R, v, h) == R.MinusOne() && tt == 2 * t && ht == h * tt && even == base + ht
    ensures Pow(R, v, even) == Pow(R, v, base)
  {
    hide Pow;
    PowAddAs(R, v, base, ht, even);
    PowMulAs(R, v, h, tt, ht);
    PowMinusOneOdd(R, t);
    OneMul(R, Pow(R, v, base));
  }

  lemma {:induction false} StrideArith(e: nat, t: nat)
    ensures e * (2 * t) == 2 * e * t && e * (2 * t + 1) == e + 2 * e * t
  {
    Mul3(e, 2, t);
    assert e * (2 * t + 1) == e * (2 * t) + e;
  }

  lemma {:induction false} EvenExponentArith(e: nat, m: nat, j: nat, J: nat, t: nat)
    ensures e * J * (2 * t + 1) == e * J + e * J * (2 * t)
    ensures J == j ==> e * J * (2 * t) == 2 * e * j * t
    ensures J == j + m ==> e * J * (2 * t) == 2 * e * j * t + (e * m) * (2 * t)
  {
    var x, y := e * J, e * j;
    assert x * (2 * t + 1) == x + x * (2 * t);
    assert 2 * e * j == 2 * y;
    assert 2 * y * t == y * (2 * t);
    if J == j + m {
      assert x == y + e * m;
      assert (y + e * m) * (2 * t) == y * (2 * t) + (e * m) * (2 * t);
    }
  }
}
