/** Squares in a field, recognised by one power: Euler's criterion, with the square root that Tonelli's method finds. */
module Squares {
  import opened Algebra
  import opened Arith
  import opened Bits
  import opened AdditionChain

  ghost predicate IsSquare<T(!new)>(R: Ring<T>, d: T) {
    exists x: T {:trigger Use1(x)} :: Use1(x) && R.Mul(x, x) == d
  }

  function Two<T>(R: Ring<T>): T { R.Plus(R.one, R.one) }

  /** The hypotheses: a field of odd order q = 2 h + 1, in which 2 is not 0. */
  ghost predicate OddField<T(!new)>(R: Ring<T>, q: nat, h: nat) {
    IsField(R) && Fermat(R, q) && q == 2 * h + 1 && h > 0 && Two(R) != R.Zero()
  }

  lemma {:induction false} SignsDiffer<T(!new)>(R: Ring<T>)
    requires IsField(R) && Two(R) != R.Zero()
    ensures R.MinusOne() != R.one && R.MinusOne() != R.Zero()
    ensures R.Mul(R.MinusOne(), R.MinusOne()) == R.one
  {
    var A := R.additive;
    PlusNeg(A, R.one);
    PlusZero(A, R.one);
    MulNeg(R, R.one, R.MinusOne());
    MulNeg(R, R.one, R.one);
    OneMul(R, R.one);
    OneMul(R, R.MinusOne());
    NegNeg(A, R.one);
  }

  /** x to the 2 h is 1 unless x is 0. */
  lemma {:induction false} FullPower<T(!new)>(R: Ring<T>, q: nat, h: nat, x: T, e: nat)
    requires OddField(R, q, h) && x != R.Zero() && e == 2 * h
    ensures Pow(R, x, e) == R.one
  {
    assert Use1(x);
    var y := Pow(R, x, e);
    assert Pow(R, x, q) == R.Mul(y, x);
    MulInv(R, x);
    MulAssoc(R, y, x, R.Inv(x));
    OneMul(R, y);
  }

  lemma {:induction false} SquarePower<T(!new)>(R: Ring<T>, x: T, e: nat, ee: nat)
    requires IsRing(R) && ee == 2 * e
    ensures Pow(R, R.Mul(x, x), e) == Pow(R, x, ee) == R.Mul(Pow(R, x, e), Pow(R, x, e))
  {
    PowOfProduct(R, x, x, e);
    PowAddAs(R, x, e, e, ee);
  }

  /** A square has no power -1. */
  lemma {:induction false} SquareHasPowerOne<T(!new)>(R: Ring<T>, q: nat, h: nat, d: T)
    requires OddField(R, q, h) && IsSquare(R, d)
    ensures Pow(R, d, h) != R.MinusOne()
  {
    var x: T :| Use1(x) && R.Mul(x, x) == d;
    SignsDiffer(R);
    if x == R.Zero() {
      MulZero(R, x);
      PowZero(R, h);
    } else {
      SquarePower(R, x, h, 2 * h);
      FullPower(R, q, h, x, 2 * h);
    }
  }

  /** h as a power of two times an odd number. */
  lemma {:induction false} OddPart(h: nat) returns (m: nat, t: nat)
    requires h > 0
    ensures h == Pow2(m) * t && t % 2 == 1
  {
    m, t := 0, h;
    while t % 2 == 0
      invariant t > 0 && h == Pow2(m) * t
      decreases t
    {
      Mul3(Pow2(m), 2, t / 2);
      m, t := m + 1, t / 2;
    }
  }

  lemma {:induction false} OddRoot<T(!new)>(R: Ring<T>, d: T, t: nat, j: nat)
    requires IsRing(R) && t == 2 * j + 1 && Pow(R, d, t) == R.one
    ensures IsSquare(R, d)
  {
    var x := Pow(R, d, j + 1);
    PowAddAs(R, d, j + 1, j + 1, t + 1);
    assert Pow(R, d, t + 1) == R.Mul(Pow(R, d, t), d);
    OneMul(R, d);
    assert Use1(x) && R.Mul(x, x) == d;
  }

  /** If d u^2 is a square and u is not 0 then d is one. */
  lemma {:induction false} SquareQuotient<T(!new)>(R: Ring<T>, d: T, u: T)
    requires IsField(R) && u != R.Zero() && IsSquare(R, R.Mul(d, R.Mul(u, u)))
    ensures IsSquare(R, d)
  {
    var x: T :| Use1(x) && R.Mul(x, x) == R.Mul(d, R.Mul(u, u));
    var v := R.Inv(u);
    var y := R.Mul(x, v);
    MulInv(R, u);
    MulSwap4(R, x, v, x, v);
    MulSwap4(R, u, u, v, v);
    MulAssoc(R, d, R.Mul(u, u), R.Mul(v, v));
    OneMul(R, R.one);
    OneMul(R, d);
    assert Use1(y) && R.Mul(y, y) == d;
  }

  /** The step of Tonelli's method: a power of z turns the sign around. */
  lemma {:induction false} TurnSign<T(!new)>(R: Ring<T>, z: T, d: T, u: T, f: nat, ff: nat, e: nat, h: nat)
    requires IsField(R) && Two(R) != R.Zero() && u == Pow(R, z, f) && ff == 2 * f && h == ff * e && e > 0
    requires Pow(R, z, h) == R.MinusOne() && Pow(R, d, e) == R.MinusOne()
    ensures u != R.Zero() && Pow(R, R.Mul(d, R.Mul(u, u)), e) == R.one
  {
    SignsDiffer(R);
    var s := R.Mul(u, u);
    PowAddAs(R, z, f, f, ff);
    PowMulAs(R, z, ff, e, h);
    PowOfProduct(R, d, s, e);
    if u == R.Zero() {
      MulZero(R, u);
      PowZero(R, e);
    }
  }

  lemma {:induction false} SplitPower(m: nat, k: nat, t: nat, f: nat, e: nat)
    requires 0 < k <= m && f == Pow2(m - k) && e == Pow2(k - 1) * t
    ensures Pow2(m) * t == (2 * f) * e && Pow2(k) * t == 2 * e
  {
    Pow2Add(m - k + 1, k - 1);
    assert Pow2(m - k + 1) == 2 * f;
    Mul3(2 * f, Pow2(k - 1), t);
    Mul3(2, Pow2(k - 1), t);
  }

  /** Whatever has a power 1 is a square, if some z has the power -1. */
  lemma {:induction false} Tonelli<T(!new)>(R: Ring<T>, z: T, d: T, h: nat, m: nat, t: nat, k: nat, g: nat)
    requires IsField(R) && Two(R) != R.Zero() && h == Pow2(m) * t && t % 2 == 1 && k <= m && g == Pow2(k) * t
    requires Pow(R, z, h) == R.MinusOne() && Pow(R, d, g) == R.one
    ensures IsSquare(R, d)
    decreases k
  {
    hide Pow, IsSquare;
    if k == 0 {
      OddRoot(R, d, t, t / 2);
    } else {
      NatProduct(Pow2(k - 1), t);
      var f, e := Pow2(m - k), Pow2(k - 1) * t;
      SplitPower(m, k, t, f, e);
      hide Pow2;
      PowAddAs(R, d, e, e, g);
      var y := Pow(R, d, e);
      if y == R.one {
        Tonelli(R, z, d, h, m, t, k - 1, e);
      } else {
        SquareRootOfOne(R, y);
        var u := Pow(R, z, f);
        TurnSign(R, z, d, u, f, 2 * f, e, h);
        Tonelli(R, z, R.Mul(d, R.Mul(u, u)), h, m, t, k - 1, e);
        SquareQuotient(R, d, u);
      }
    }
  }

  lemma {:induction false} ZeroIsSquare<T(!new)>(R: Ring<T>)
    requires IsRing(R)
    ensures IsSquare(R, R.Zero())
  {
    MulZero(R, R.Zero());
    assert Use1(R.Zero());
  }

  /** Euler's criterion: d is not a square if and only if its power is -1. */
  lemma {:induction false} Euler<T(!new)>(R: Ring<T>, q: nat, h: nat, z: T, d: T)
    requires OddField(R, q, h) && Pow(R, z, h) == R.MinusOne()
    ensures !IsSquare(R, d) <==> Pow(R, d, h) == R.MinusOne()
  {
    hide Pow, Fermat, Pow2;
    ZeroIsSquare(R);
    if IsSquare(R, d) {
      SquareHasPowerOne(R, q, h, d);
    } else {
      PowAddAs(R, d, h, h, 2 * h);
      FullPower(R, q, h, d, 2 * h);
      if Pow(R, d, h) != R.one {
        SquareRootOfOne(R, Pow(R, d, h));
      } else {
        var m, t := OddPart(h);
        Tonelli(R, z, d, h, m, t, m, h);
      }
    }
  }
}
