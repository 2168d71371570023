/** Polynomials as coefficient lists, lowest degree first. */
module Polynomials {
  import opened Algebra
  import opened Sums

  /** The coefficient at i; zero outside the list. */
  function Coeff<T>(R: Ring<T>, p: seq<T>, i: int): T {
    if 0 <= i < |p| then p[i] else R.Zero()
  }

  function Eval<T>(R: Ring<T>, p: seq<T>, x: T): T {
    if p == [] then R.Zero() else R.Plus(p[0], R.Mul(x, Eval(R, p[1..], x)))
  }

  /** The sum of the first n coefficients times powers of x. */
  function PowerSum<T>(R: Ring<T>, p: seq<T>, x: T, n: nat): T
    requires n <= |p|
  {
    if n == 0 then R.Zero() else R.Plus(PowerSum(R, p, x, n - 1), R.Mul(p[n - 1], Pow(R, x, n - 1)))
  }

  lemma {:induction false} PowerSumTail<T(!new)>(R: Ring<T>, p: seq<T>, x: T, n: nat)
    requires IsRing(R) && 0 < n <= |p|
    ensures PowerSum(R, p, x, n) == R.Plus(p[0], R.Mul(x, PowerSum(R, p[1..], x, n - 1)))
  {
    if n == 1 {
      MulZero(R, x);
      OneMul(R, p[0]);
      PlusZero(R.additive, p[0]);
      PlusComm(R.additive, p[0], R.Zero());
      assert PowerSum(R, p, x, 1) == R.Plus(PowerSum(R, p, x, 0), R.Mul(p[0], Pow(R, x, 0)));
    } else {
      var m := n - 1;
      PowerSumTail(R, p, x, m);
      var c, y := p[m], Pow(R, x, m - 1);
      assert p[1..][m - 1] == c;
      assert Pow(R, x, m) == R.Mul(y, x);
      // c (y x) = x (c y)
      MulAssoc(R, c, y, x);
      MulComm(R, R.Mul(c, y), x);
      var s := PowerSum(R, p[1..], x, m - 1);
      Distrib(R, x, s, R.Mul(c, y));
      PlusAssoc(R.additive, p[0], R.Mul(x, s), R.Mul(x, R.Mul(c, y)));
    }
  }

  /** Horner's rule evaluates the sum of coefficients times powers. */
  lemma {:induction false} EvalIsPowerSum<T(!new)>(R: Ring<T>, p: seq<T>, x: T)
    requires IsRing(R)
    ensures Eval(R, p, x) == PowerSum(R, p, x, |p|)
  {
    if p != [] {
      EvalIsPowerSum(R, p[1..], x);
      PowerSumTail(R, p, x, |p|);
    }
  }

  // ---- products ----

  /** The part of the coefficient at k that comes from the first n coefficients of p. */
  function Convolution<T>(R: Ring<T>, p: seq<T>, q: seq<T>, k: int, n: nat): T
    requires n <= |p|
  {
    if n == 0 then R.Zero()
    else R.Plus(Convolution(R, p, q, k, n - 1), R.Mul(p[n - 1], Coeff(R, q, k - (n - 1))))
  }

  /** The product, coefficient by coefficient. */
  function Product<T>(R: Ring<T>, p: seq<T>, q: seq<T>, size: nat): (r: seq<T>)
    ensures |r| == size && forall k :: 0 <= k < size ==> r[k] == Convolution(R, p, q, k, |p|)
  {
    seq(size, k requires 0 <= k < size => Convolution(R, p, q, k, |p|))
  }

  lemma {:induction false} EvalZeros<T(!new)>(R: Ring<T>, p: seq<T>, x: T)
    requires IsRing(R) && forall i :: 0 <= i < |p| ==> p[i] == R.Zero()
    ensures Eval(R, p, x) == R.Zero()
  {
    if p != [] {
      EvalZeros(R, p[1..], x);
      MulZero(R, x);
      PlusZero(R.additive, R.Zero());
    }
  }

  /** Evaluating a combination a + c b of two lists. */
  lemma {:induction false} EvalCombination<T(!new)>(R: Ring<T>, a: seq<T>, c: T, b: seq<T>, e: seq<T>, x: T)
    requires IsRing(R) && |a| == |b| == |e|
    requires forall i :: 0 <= i < |a| ==> e[i] == R.Plus(a[i], R.Mul(c, b[i]))
    ensures Eval(R, e, x) == R.Plus(Eval(R, a, x), R.Mul(c, Eval(R, b, x)))
  {
    if a == [] {
      MulZero(R, c);
      PlusZero(R.additive, R.Zero());
    } else {
      EvalCombination(R, a[1..], c, b[1..], e[1..], x);
      var u, v := Eval(R, a[1..], x), Eval(R, b[1..], x);
      Distrib(R, x, u, R.Mul(c, v));
      // x (c v) = c (x v)
      MulAssoc(R, x, c, v);
      MulComm(R, x, c);
      MulAssoc(R, c, x, v);
      Distrib(R, c, b[0], R.Mul(x, v));
      PlusSwap4(R.additive, a[0], R.Mul(c, b[0]), R.Mul(x, u), R.Mul(c, R.Mul(x, v)));
    }
  }

  /** q shifted by n places, filled with zeros up to a size. */
  function Shifted<T>(R: Ring<T>, q: seq<T>, n: nat, size: nat): (r: seq<T>)
    ensures |r| == size && forall k :: 0 <= k < size ==> r[k] == Coeff(R, q, k - n)
  {
    seq(size, k requires 0 <= k < size => Coeff(R, q, k - n))
  }

  lemma {:induction false} EvalPadded<T(!new)>(R: Ring<T>, q: seq<T>, size: nat, x: T)
    requires IsRing(R) && |q| <= size
    ensures Eval(R, Shifted(R, q, 0, size), x) == Eval(R, q, x)
    decreases size
  {
    var r := Shifted(R, q, 0, size);
    if q == [] {
      EvalZeros(R, r, x);
    } else {
      assert r[1..] == Shifted(R, q[1..], 0, size - 1);
      EvalPadded(R, q[1..], size - 1, x);
    }
  }

  lemma {:induction false} EvalShifted<T(!new)>(R: Ring<T>, q: seq<T>, n: nat, size: nat, x: T)
    requires IsRing(R) && n + |q| <= size
    ensures Eval(R, Shifted(R, q, n, size), x) == R.Mul(Pow(R, x, n), Eval(R, q, x))
    decreases n
  {
    if n == 0 {
      EvalPadded(R, q, size, x);
      OneMul(R, Eval(R, q, x));
    } else {
      var m, rest := n - 1, size - 1;
      var r, y, v := Shifted(R, q, n, size), Pow(R, x, n - 1), Eval(R, q, x);
      ShiftedTail(R, q, n, m, size, rest);
      EvalShifted(R, q, m, rest, x);
      PlusComm(R.additive, R.Zero(), R.Mul(x, R.Mul(y, v)));
      PlusZero(R.additive, R.Mul(x, R.Mul(y, v)));
      MulAssoc(R, x, y, v);
      MulComm(R, x, y);
    }
  }

  lemma {:induction false} ShiftedTail<T>(R: Ring<T>, q: seq<T>, n: nat, m: nat, size: nat, rest: nat)
    requires n == m + 1 && size == rest + 1
    ensures Shifted(R, q, n, size)[0] == R.Zero() && Shifted(R, q, n, size)[1..] == Shifted(R, q, m, rest)
  {
  }

  /** The product with the first n coefficients only. */
  function PartialProduct<T>(R: Ring<T>, p: seq<T>, q: seq<T>, size: nat, n: nat): (r: seq<T>)
    requires n <= |p|
    ensures |r| == size && forall k :: 0 <= k < size ==> r[k] == Convolution(R, p, q, k, n)
  {
    seq(size, k requires 0 <= k < size => Convolution(R, p, q, k, n))
  }

  lemma {:induction false} EvalPartialProduct<T(!new)>(R: Ring<T>, p: seq<T>, q: seq<T>, size: nat, n: nat, x: T)
    requires IsRing(R) && n <= |p| && (n > 0 ==> n - 1 + |q| <= size)
    ensures Eval(R, PartialProduct(R, p, q, size, n), x) == R.Mul(PowerSum(R, p, x, n), Eval(R, q, x))
  {
    var v := Eval(R, q, x);
    if n == 0 {
      EvalZeros(R, PartialProduct(R, p, q, size, 0), x);
      MulZero(R, v);
    } else {
      var m := n - 1;
      EvalPartialProduct(R, p, q, size, m, x);
      var before, after, shifted := PartialProduct(R, p, q, size, m), PartialProduct(R, p, q, size, n),
                                    Shifted(R, q, m, size);
      forall k | 0 <= k < size ensures after[k] == R.Plus(before[k], R.Mul(p[m], shifted[k])) {}
      EvalCombination(R, before, p[m], shifted, after, x);
      EvalShifted(R, q, m, size, x);
      FactorOut(R, PowerSum(R, p, x, m), p[m], Pow(R, x, m), v);
    }
  }

  lemma {:induction false} FactorOut<T(!new)>(R: Ring<T>, s: T, c: T, y: T, v: T)
    requires IsRing(R)
    ensures R.Plus(R.Mul(s, v), R.Mul(c, R.Mul(y, v))) == R.Mul(R.Plus(s, R.Mul(c, y)), v)
  {
    MulAssoc(R, c, y, v);
    Distrib(R, v, s, R.Mul(c, y));
    MulComm(R, v, s);
    MulComm(R, v, R.Mul(c, y));
    MulComm(R, v, R.Plus(s, R.Mul(c, y)));
  }

  /** Evaluating the product gives the product of the evaluations. */
  lemma {:induction false} EvalProduct<T(!new)>(R: Ring<T>, p: seq<T>, q: seq<T>, size: nat, x: T)
    requires IsRing(R) && |p| + |q| <= size + 1
    ensures Eval(R, Product(R, p, q, size), x) == R.Mul(Eval(R, p, x), Eval(R, q, x))
  {
    assert Product(R, p, q, size) == PartialProduct(R, p, q, size, |p|);
    EvalPartialProduct(R, p, q, size, |p|, x);
    EvalIsPowerSum(R, p, x);
  }

  // ---- X^n + c ----

  /** The coefficient at i of p times X^n + c. */
  function TimesXn<T>(R: Ring<T>, p: seq<T>, n: nat, c: T, i: int): T {
    R.Plus(Coeff(R, p, i - n), R.Mul(c, Coeff(R, p, i)))
  }

  /** poly = q (X^n + c) + r, with r of degree below n. */
  ghost predicate Divides<T>(R: Ring<T>, poly: seq<T>, n: nat, c: T, q: seq<T>, r: seq<T>) {
    && |r| == n && |poly| == |q| + n
    && forall i :: 0 <= i < |poly| ==> poly[i] == R.Plus(TimesXn(R, q, n, c, i), Coeff(R, r, i))
  }

  lemma {:induction false} PlusSame<T(!new)>(A: Group<T>, a: T, b: T, x: T)
    requires IsGroup(A) && A.Plus(x, a) == A.Plus(x, b)
    ensures a == b
  {
    PlusComm(A, x, a);
    PlusComm(A, x, b);
    PlusCancel(A, a, b, x);
  }

  /** A quotient coefficient is fixed by the ones above it. */
  lemma {:induction false} QuotientFixed<T(!new)>(
      R: Ring<T>, poly: seq<T>, n: nat, c: T, q: seq<T>, r: seq<T>, s: seq<T>, t: seq<T>, k: nat)
    requires IsRing(R) && n > 0 && Divides(R, poly, n, c, q, r) && Divides(R, poly, n, c, s, t) && k < |q|
    requires forall j :: k < j < |q| ==> q[j] == s[j]
    ensures q[k] == s[k]
  {
    var i, A, z := k + n, R.additive, R.Zero();
    assert poly[i] == R.Plus(TimesXn(R, q, n, c, i), Coeff(R, r, i));
    assert poly[i] == R.Plus(TimesXn(R, s, n, c, i), Coeff(R, t, i));
    assert Coeff(R, r, i) == z && Coeff(R, t, i) == z;
    PlusZero(A, TimesXn(R, q, n, c, i));
    PlusZero(A, TimesXn(R, s, n, c, i));
    assert Coeff(R, q, i) == Coeff(R, s, i);
    PlusCancel(A, q[k], s[k], R.Mul(c, Coeff(R, q, i)));
  }

  /** Quotient and remainder are unique. */
  lemma {:induction false} DivisionUnique<T(!new)>(
      R: Ring<T>, poly: seq<T>, n: nat, c: T, q: seq<T>, r: seq<T>, s: seq<T>, t: seq<T>)
    requires IsRing(R) && n > 0 && Divides(R, poly, n, c, q, r) && Divides(R, poly, n, c, s, t)
    ensures q == s && r == t
  {
    var k := |q|;
    while k > 0
      invariant 0 <= k <= |q| && forall j :: k <= j < |q| ==> q[j] == s[j]
    {
      k := k - 1;
      QuotientFixed(R, poly, n, c, q, r, s, t, k);
    }
    assert q == s;
    forall i | 0 <= i < n ensures r[i] == t[i] {
      assert poly[i] == R.Plus(TimesXn(R, q, n, c, i), Coeff(R, r, i));
      assert poly[i] == R.Plus(TimesXn(R, s, n, c, i), Coeff(R, t, i));
      PlusSame(R.additive, r[i], t[i], TimesXn(R, q, n, c, i));
    }
  }

  /** The product of p with X^n + c. */
  function MulXn<T>(R: Ring<T>, p: seq<T>, n: nat, c: T): (r: seq<T>)
    ensures |r| == |p| + n && forall i :: 0 <= i < |r| ==> r[i] == TimesXn(R, p, n, c, i)
  {
    seq(|p| + n, i requires 0 <= i < |p| + n => TimesXn(R, p, n, c, i))
  }

  function ZeroPoly<T>(R: Ring<T>, n: nat): (z: seq<T>)
    ensures |z| == n && forall i :: 0 <= i < n ==> z[i] == R.Zero()
  {
    seq(n, i => R.Zero())
  }

  /** Dividing p (X^n + c) by X^n + c gives p back, and nothing remains. */
  lemma {:induction false} DivisionUndoesMul<T(!new)>(R: Ring<T>, p: seq<T>, n: nat, c: T, q: seq<T>, r: seq<T>)
    requires IsRing(R) && n > 0 && Divides(R, MulXn(R, p, n, c), n, c, q, r)
    ensures q == p && r == ZeroPoly(R, n)
  {
    var poly, z := MulXn(R, p, n, c), ZeroPoly(R, n);
    forall i | 0 <= i < |poly| ensures poly[i] == R.Plus(TimesXn(R, p, n, c, i), Coeff(R, z, i)) {
      PlusZero(R.additive, TimesXn(R, p, n, c, i));
    }
    DivisionUnique(R, poly, n, c, q, r, p, z);
  }

  /** Evaluating p (X^n + c) gives (x^n + c) p(x). */
  lemma {:induction false} EvalMulXn<T(!new)>(R: Ring<T>, p: seq<T>, n: nat, c: T, x: T)
    requires IsRing(R)
    ensures Eval(R, MulXn(R, p, n, c), x) == R.Mul(R.Plus(Pow(R, x, n), c), Eval(R, p, x))
  {
    var size := |p| + n;
    EvalCombination(R, Shifted(R, p, n, size), c, Shifted(R, p, 0, size), MulXn(R, p, n, c), x);
    EvalShifted(R, p, n, size, x);
    EvalPadded(R, p, size, x);
    RightDistrib(R, Pow(R, x, n), c, Eval(R, p, x));
  }

  lemma {:induction false} RightDistrib<T(!new)>(R: Ring<T>, a: T, b: T, v: T)
    requires IsRing(R)
    ensures R.Mul(R.Plus(a, b), v) == R.Plus(R.Mul(a, v), R.Mul(b, v))
  {
    Distrib(R, v, a, b);
    MulComm(R, v, a);
    MulComm(R, v, b);
    MulComm(R, v, R.Plus(a, b));
  }

  /** Evaluating a division by X^n + c: poly(x) = (x^n + c) q(x) + r(x). */
  lemma {:induction false} EvalDivides<T(!new)>(R: Ring<T>, poly: seq<T>, n: nat, c: T, q: seq<T>, r: seq<T>, x: T)
    requires IsRing(R) && Divides(R, poly, n, c, q, r)
    ensures Eval(R, poly, x) == R.Plus(R.Mul(R.Plus(Pow(R, x, n), c), Eval(R, q, x)), Eval(R, r, x))
  {
    var m, rest := MulXn(R, q, n, c), Shifted(R, r, 0, |poly|);
    forall i | 0 <= i < |poly| ensures poly[i] == R.Plus(m[i], R.Mul(R.one, rest[i])) {
      OneMul(R, rest[i]);
      assert rest[i] == Coeff(R, r, i);
    }
    EvalCombination(R, m, R.one, rest, poly, x);
    EvalMulXn(R, q, n, c, x);
    EvalPadded(R, r, |poly|, x);
    OneMul(R, Eval(R, r, x));
  }

  // ---- linear combinations with powers ----

  /** The coefficient at i of p_0 + s p_1 + ... over the first n polynomials. */
  function PowersAt<T>(R: Ring<T>, ps: seq<seq<T>>, s: T, i: int, n: nat): T
    requires n <= |ps|
  {
    if n == 0 then R.Zero()
    else R.Plus(PowersAt(R, ps, s, i, n - 1), R.Mul(Coeff(R, ps[n - 1], i), Pow(R, s, n - 1)))
  }

  /** The same coefficient by Horner's rule, from polynomial j on. */
  function HornerAt<T>(R: Ring<T>, ps: seq<seq<T>>, s: T, i: int): T {
    if ps == [] then R.Zero() else R.Plus(Coeff(R, ps[0], i), R.Mul(s, HornerAt(R, ps[1..], s, i)))
  }

  /** The coefficients at i, one for each polynomial. */
  function Column<T>(R: Ring<T>, ps: seq<seq<T>>, i: int): (c: seq<T>)
    ensures |c| == |ps| && forall j :: 0 <= j < |ps| ==> c[j] == Coeff(R, ps[j], i)
  {
    seq(|ps|, j requires 0 <= j < |ps| => Coeff(R, ps[j], i))
  }

  lemma {:induction false} HornerIsEval<T>(R: Ring<T>, ps: seq<seq<T>>, s: T, i: int)
    ensures HornerAt(R, ps, s, i) == Eval(R, Column(R, ps, i), s)
  {
    if ps != [] {
      HornerIsEval(R, ps[1..], s, i);
      assert Column(R, ps, i)[1..] == Column(R, ps[1..], i);
    }
  }

  lemma {:induction false} PowersIsSum<T>(R: Ring<T>, ps: seq<seq<T>>, s: T, i: int, n: nat)
    requires n <= |ps|
    ensures PowersAt(R, ps, s, i, n) == PowerSum(R, Column(R, ps, i), s, n)
  {
    if n > 0 { PowersIsSum(R, ps, s, i, n - 1); }
  }

  /** Horner's rule and the running power of s give the same combination. */
  lemma {:induction false} HornerIsPowers<T(!new)>(R: Ring<T>, ps: seq<seq<T>>, s: T, i: int)
    requires IsRing(R)
    ensures HornerAt(R, ps, s, i) == PowersAt(R, ps, s, i, |ps|)
  {
    HornerIsEval(R, ps, s, i);
    EvalIsPowerSum(R, Column(R, ps, i), s);
    PowersIsSum(R, ps, s, i, |ps|);
  }

  /** The combination as a list. */
  function Linear<T>(R: Ring<T>, ps: seq<seq<T>>, s: T, size: nat, n: nat): (r: seq<T>)
    requires n <= |ps|
    ensures |r| == size && forall i :: 0 <= i < size ==> r[i] == PowersAt(R, ps, s, i, n)
  {
    seq(size, i requires 0 <= i < size => PowersAt(R, ps, s, i, n))
  }

  /** The sum of the values with powers of s. */
  function ValueSum<T>(R: Ring<T>, ps: seq<seq<T>>, s: T, x: T, n: nat): T
    requires n <= |ps|
  {
    if n == 0 then R.Zero()
    else R.Plus(ValueSum(R, ps, s, x, n - 1), R.Mul(Pow(R, s, n - 1), Eval(R, ps[n - 1], x)))
  }

  /** Evaluating the combination gives the combination of the values. */
  lemma {:induction false} EvalLinear<T(!new)>(R: Ring<T>, ps: seq<seq<T>>, s: T, size: nat, n: nat, x: T)
    requires IsRing(R) && n <= |ps| && forall j :: 0 <= j < |ps| ==> |ps[j]| <= size
    ensures Eval(R, Linear(R, ps, s, size, n), x) == ValueSum(R, ps, s, x, n)
  {
    if n == 0 {
      EvalZeros(R, Linear(R, ps, s, size, 0), x);
    } else {
      var m := n - 1;
      EvalLinear(R, ps, s, size, m, x);
      var y, p := Pow(R, s, m), Shifted(R, ps[m], 0, size);
      var before, after := Linear(R, ps, s, size, m), Linear(R, ps, s, size, n);
      forall i | 0 <= i < size ensures after[i] == R.Plus(before[i], R.Mul(y, p[i])) {
        MulComm(R, y, p[i]);
      }
      EvalCombination(R, before, y, p, after, x);
      EvalPadded(R, ps[m], size, x);
    }
  }

  // ---- the same as sums ----

  /** The value is the sum of the coefficients times powers of the point. */
  lemma {:induction false} EvalIsSum<T(!new)>(R: Ring<T>, p: seq<T>, x: T, g: int -> T)
    requires IsRing(R) && forall i | 0 <= i < |p| :: g(i) == R.Mul(p[i], Pow(R, x, i))
    ensures Eval(R, p, x) == Sum(R.additive, |p|, g)
  {
    EvalIsPowerSum(R, p, x);
    PowerSumIsSum(R, p, x, |p|, g);
  }

  lemma {:induction false} PowerSumIsSum<T>(R: Ring<T>, p: seq<T>, x: T, n: nat, g: int -> T)
    requires n <= |p| && forall i | 0 <= i < |p| :: g(i) == R.Mul(p[i], Pow(R, x, i))
    ensures PowerSum(R, p, x, n) == Sum(R.additive, n, g)
  {
    hide Pow;
    if n > 0 { PowerSumIsSum(R, p, x, n - 1, g); }
  }

  /** The combination has at every point the sum of the values, each times a power of s. */
  lemma {:induction false} LinearIsSum<T(!new)>(R: Ring<T>, ps: seq<seq<T>>, s: T, size: nat, n: nat, x: T, g: int -> T)
    requires IsRing(R) && n <= |ps| && forall j :: 0 <= j < |ps| ==> |ps[j]| <= size
    requires forall j | 0 <= j < n :: g(j) == R.Mul(Pow(R, s, j), Eval(R, ps[j], x))
    ensures Eval(R, Linear(R, ps, s, size, n), x) == Sum(R.additive, n, g)
  {
    hide Eval;
    EvalLinear(R, ps, s, size, n, x);
    ValuesAreSum(R, ps, s, x, n, g);
  }

  lemma {:induction false} ValuesAreSum<T>(R: Ring<T>, ps: seq<seq<T>>, s: T, x: T, n: nat, g: int -> T)
    requires n <= |ps| && forall j | 0 <= j < n :: g(j) == R.Mul(Pow(R, s, j), Eval(R, ps[j], x))
    ensures ValueSum(R, ps, s, x, n) == Sum(R.additive, n, g)
  {
    hide Eval, Pow;
    if n > 0 { ValuesAreSum(R, ps, s, x, n - 1, g); }
  }
}
