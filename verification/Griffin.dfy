/** Griffin: a root, a fifth power and quadratic factors; then a circulant matrix and round constants. */
module Griffin {
  import opened Algebra
  import opened Poseidon
  import opened AdditionChain
  import opened IntLinear
  import opened Anemoi
  import opened Squares

  // ---- the non-linear layer ----

  function Quadratic<T>(R: Ring<T>, l: T, alpha: T, beta: T): T {
    R.Plus(R.Plus(R.Mul(l, l), R.Mul(l, alpha)), beta)
  }

  /** The linear input of the next factor: the accumulator, the first element and the previous input element. */
  function NextInput<T>(R: Ring<T>, y0: T, acc: T, prev: T): T {
    R.Plus(R.Plus(acc, y0), prev)
  }

  /** The elements from the third on: each is multiplied by a quadratic in what came before it. */
  function Factors<T>(R: Ring<T>, y0: T, acc: T, prev: T, xs: seq<T>, ab: seq<(T, T)>): (ys: seq<T>)
    requires |xs| == |ab|
    ensures |ys| == |xs|
    decreases |xs|
  {
    if xs == [] then []
    else
      var l := NextInput(R, y0, acc, prev);
      [R.Mul(Quadratic(R, l, ab[0].0, ab[0].1), xs[0])] + Factors(R, y0, l, xs[0], xs[1..], ab[1..])
  }

  function Unfactors<T>(R: Ring<T>, y0: T, acc: T, prev: T, ys: seq<T>, ab: seq<(T, T)>): (xs: seq<T>)
    requires |ys| == |ab|
    ensures |xs| == |ys|
    decreases |ys|
  {
    if ys == [] then []
    else
      var l := NextInput(R, y0, acc, prev);
      var x := R.Mul(R.Inv(Quadratic(R, l, ab[0].0, ab[0].1)), ys[0]);
      [x] + Unfactors(R, y0, l, x, ys[1..], ab[1..])
  }

  /** Every value of every quadratic factor is a unit. */
  ghost predicate UnitFactors<T(!new)>(R: Ring<T>, ab: seq<(T, T)>) {
    forall i, l: T {:trigger ab[i], Use1(l)} :: 0 <= i < |ab| && Use1(l) ==>
      var q := Quadratic(R, l, ab[i].0, ab[i].1); R.Mul(R.Inv(q), q) == R.one
  }

  function Discriminant<T>(R: Ring<T>, alpha: T, beta: T): T {
    R.Minus(R.Mul(alpha, alpha), R.Mul(R.Mul(Two(R), Two(R)), beta))
  }

  /** Completing the square: (2 l + alpha)^2 is the discriminant plus four times the factor. */
  lemma {:induction false} Completed<T(!new)>(R: Ring<T>, l: T, a: T, b: T)
    requires IsRing(R)
    ensures var y := R.Plus(R.Mul(Two(R), l), a);
            R.Mul(y, y) == R.Plus(Discriminant(R, a, b), R.Mul(R.Mul(Two(R), Two(R)), Quadratic(R, l, a, b)))
  {
    var A, two := R.additive, Two(R);
    var four, u := R.Mul(two, two), R.Mul(two, l);
    var uu, ua, aa, fb := R.Mul(u, u), R.Mul(u, a), R.Mul(a, a), R.Mul(four, b);
    FourTimes(R, l, a, b, u);
    SquareOfSum(R, u, a);
    var z := R.Plus(uu, R.Plus(ua, ua));
    PlusSwap4(A, aa, R.Neg(fb), z, fb);
    PlusComm(A, R.Neg(fb), fb);
    PlusNeg(A, fb);
    PlusZero(A, R.Plus(aa, z));
    PlusComm(A, aa, z);
    PlusAssoc(A, uu, R.Plus(ua, ua), aa);
    PlusAssoc(A, ua, ua, aa);
    PlusAssoc(A, uu, ua, R.Plus(ua, aa));
  }

  lemma {:induction false} SquareOfSum<T(!new)>(R: Ring<T>, u: T, a: T)
    requires IsRing(R)
    ensures var y, ua := R.Plus(u, a), R.Mul(u, a);
            R.Mul(y, y) == R.Plus(R.Plus(R.Mul(u, u), ua), R.Plus(ua, R.Mul(a, a)))
  {
    var y := R.Plus(u, a);
    Distrib(R, y, u, a);
    MulComm(R, y, u);
    MulComm(R, y, a);
    Distrib(R, u, u, a);
    Distrib(R, a, u, a);
    MulComm(R, a, u);
  }

  lemma {:induction false} FourTimes<T(!new)>(R: Ring<T>, l: T, a: T, b: T, u: T)
    requires IsRing(R) && u == R.Mul(Two(R), l)
    ensures var four, ua := R.Mul(Two(R), Two(R)), R.Mul(u, a);
            R.Mul(four, Quadratic(R, l, a, b)) == R.Plus(R.Plus(R.Mul(u, u), R.Plus(ua, ua)), R.Mul(four, b))
  {
    var two := Two(R);
    var four, ll, la := R.Mul(two, two), R.Mul(l, l), R.Mul(l, a);
    Distrib(R, four, R.Plus(ll, la), b);
    Distrib(R, four, ll, la);
    MulSwap4(R, two, two, l, l);
    MulSwap4(R, two, two, l, a);
    // 2 a == a + a
    MulComm(R, two, a);
    Distrib(R, a, R.one, R.one);
    OneMul(R, a);
    Distrib(R, u, a, a);
  }

  /** In a field where 2 is not 0, a factor is 0 for some input if and only if its discriminant is a square. */
  lemma {:induction false} RootExactly<T(!new)>(R: Ring<T>, a: T, b: T)
    requires IsField(R) && Two(R) != R.Zero()
    ensures (exists l: T {:trigger Use1(l)} :: Use1(l) && Quadratic(R, l, a, b) == R.Zero())
            <==> IsSquare(R, Discriminant(R, a, b))
  {
    var A, two, D := R.additive, Two(R), Discriminant(R, a, b);
    var four := R.Mul(two, two);
    if exists l: T {:trigger Use1(l)} :: Use1(l) && Quadratic(R, l, a, b) == R.Zero() {
      var l: T :| Use1(l) && Quadratic(R, l, a, b) == R.Zero();
      Completed(R, l, a, b);
      MulZero(R, four);
      PlusZero(A, D);
      assert Use1(R.Plus(R.Mul(two, l), a));
    }
    if IsSquare(R, D) {
      var x: T :| Use1(x) && R.Mul(x, x) == D;
      var l := RootOf(R, a, x);
      Completed(R, l, a, b);
      var Q := R.Mul(four, Quadratic(R, l, a, b));
      PlusZero(A, D);
      PlusComm(A, D, Q);
      PlusComm(A, D, R.Zero());
      PlusCancel(A, Q, R.Zero(), D);
      NoZeroDivisors(R, four, Quadratic(R, l, a, b));
      if four == R.Zero() { NoZeroDivisors(R, two, two); }
      assert Use1(l);
    }
  }

  /** The l with 2 l + a == x. */
  lemma {:induction false} RootOf<T(!new)>(R: Ring<T>, a: T, x: T) returns (l: T)
    requires IsField(R) && Two(R) != R.Zero()
    ensures R.Plus(R.Mul(Two(R), l), a) == x
  {
    var A, two := R.additive, Two(R);
    var d := R.Plus(x, R.Neg(a));
    l := R.Mul(R.Inv(two), d);
    MulInv(R, two);
    MulAssoc(R, two, R.Inv(two), d);
    OneMul(R, d);
    PlusAssoc(A, x, R.Neg(a), a);
    PlusComm(A, R.Neg(a), a);
    PlusNeg(A, a);
    PlusZero(A, x);
  }

  /** The factors are units exactly if no discriminant is a square. */
  lemma {:induction false} UnitFactorsExactly<T(!new)>(R: Ring<T>, ab: seq<(T, T)>)
    requires IsField(R) && Two(R) != R.Zero()
    ensures UnitFactors(R, ab)
            <==> forall i :: 0 <= i < |ab| ==> !IsSquare(R, Discriminant(R, ab[i].0, ab[i].1))
  {
    hide Quadratic, Discriminant, IsSquare;
    forall i | 0 <= i < |ab|
      ensures UnitFactor(R, ab[i]) <==> !IsSquare(R, Discriminant(R, ab[i].0, ab[i].1))
    {
      RootExactly(R, ab[i].0, ab[i].1);
      UnitExactly(R, ab[i]);
    }
    UnitsOneByOne(R, ab);
  }

  ghost predicate UnitFactor<T(!new)>(R: Ring<T>, p: (T, T)) {
    forall l: T {:trigger Use1(l)} :: Use1(l) ==>
      var q := Quadratic(R, l, p.0, p.1); R.Mul(R.Inv(q), q) == R.one
  }

  lemma {:induction false} UnitsOneByOne<T(!new)>(R: Ring<T>, ab: seq<(T, T)>)
    ensures UnitFactors(R, ab) <==> forall i :: 0 <= i < |ab| ==> UnitFactor(R, ab[i])
  {
    hide Quadratic;
    if UnitFactors(R, ab) {
      forall i | 0 <= i < |ab| ensures UnitFactor(R, ab[i]) {
        forall l: T ensures var q := Quadratic(R, l, ab[i].0, ab[i].1); R.Mul(R.Inv(q), q) == R.one {
          assert Use1(l);
        }
      }
    }
  }

  lemma {:induction false} UnitExactly<T(!new)>(R: Ring<T>, p: (T, T))
    requires IsField(R)
    ensures UnitFactor(R, p) <==> !exists l: T {:trigger Use1(l)} :: Use1(l) && Quadratic(R, l, p.0, p.1) == R.Zero()
  {
    hide Quadratic;
    MulZero(R, R.Inv(R.Zero()));
    forall l: T
      ensures var q := Quadratic(R, l, p.0, p.1); R.Mul(R.Inv(q), q) == R.one <==> q != R.Zero()
    {
      if Quadratic(R, l, p.0, p.1) != R.Zero() { MulInv(R, Quadratic(R, l, p.0, p.1)); }
    }
  }

  /** One power per pair decides it, in a field of odd order in which some z has the power -1. */
  lemma {:induction false} UnitFactorsByPower<T(!new)>(R: Ring<T>, q: nat, h: nat, z: T, ab: seq<(T, T)>)
    requires OddField(R, q, h) && Pow(R, z, h) == R.MinusOne()
    ensures UnitFactors(R, ab)
            <==> forall i :: 0 <= i < |ab| ==> Pow(R, Discriminant(R, ab[i].0, ab[i].1), h) == R.MinusOne()
  {
    hide Pow, Discriminant, IsSquare, UnitFactors, Fermat;
    UnitFactorsExactly(R, ab);
    forall i | 0 <= i < |ab|
      ensures !IsSquare(R, Discriminant(R, ab[i].0, ab[i].1))
              <==> Pow(R, Discriminant(R, ab[i].0, ab[i].1), h) == R.MinusOne()
    {
      Euler(R, q, h, z, Discriminant(R, ab[i].0, ab[i].1));
    }
  }

  lemma {:induction false} FactorsUndone<T(!new)>(R: Ring<T>, y0: T, acc: T, prev: T, xs: seq<T>, ab: seq<(T, T)>)
    requires IsRing(R) && |xs| == |ab| && UnitFactors(R, ab)
    ensures Unfactors(R, y0, acc, prev, Factors(R, y0, acc, prev, xs, ab), ab) == xs
    decreases |xs|
  {
    if xs != [] {
      var l := NextInput(R, y0, acc, prev);
      var q := Quadratic(R, l, ab[0].0, ab[0].1);
      assert Use1(l);
      UnitCancels(R, R.Inv(q), q, xs[0]);
      FactorsUndone(R, y0, l, xs[0], xs[1..], ab[1..]);
      assert Factors(R, y0, acc, prev, xs, ab)[1..] == Factors(R, y0, l, xs[0], xs[1..], ab[1..]);
      assert [xs[0]] + xs[1..] == xs;
    }
  }

  lemma {:induction false} UnfactorsUndone<T(!new)>(R: Ring<T>, y0: T, acc: T, prev: T, ys: seq<T>, ab: seq<(T, T)>)
    requires IsRing(R) && |ys| == |ab| && UnitFactors(R, ab)
    ensures Factors(R, y0, acc, prev, Unfactors(R, y0, acc, prev, ys, ab), ab) == ys
    decreases |ys|
  {
    if ys != [] {
      var l := NextInput(R, y0, acc, prev);
      var q := Quadratic(R, l, ab[0].0, ab[0].1);
      var x := R.Mul(R.Inv(q), ys[0]);
      assert Use1(l);
      MulComm(R, R.Inv(q), q);
      UnitCancels(R, q, R.Inv(q), ys[0]);
      UnfactorsUndone(R, y0, l, x, ys[1..], ab[1..]);
      assert Unfactors(R, y0, acc, prev, ys, ab)[1..] == Unfactors(R, y0, l, x, ys[1..], ab[1..]);
      assert [ys[0]] + ys[1..] == ys;
    }
  }

  function NonLinear<T>(R: Ring<T>, s: seq<T>, ab: seq<(T, T)>): (t: seq<T>)
    requires |s| == |ab| + 2
    ensures |t| == |s|
  {
    var y0, y1 := Root(R, s[0]), Quint(R, s[1]);
    [y0, y1] + Factors(R, y0, y1, R.Zero(), s[2..], ab)
  }

  function UnNonLinear<T>(R: Ring<T>, t: seq<T>, ab: seq<(T, T)>): (s: seq<T>)
    requires |t| == |ab| + 2
    ensures |s| == |t|
  {
    [Quint(R, t[0]), Root(R, t[1])] + Unfactors(R, t[0], t[1], R.Zero(), t[2..], ab)
  }

  lemma {:induction false} NonLinearInvertible<T(!new)>(R: Ring<T>, q: nat, s: seq<T>, ab: seq<(T, T)>)
    requires IsRing(R) && Fermat(R, q) && 5 * ROOT == 2 * (q - 1) + 1
    requires |s| == |ab| + 2 && UnitFactors(R, ab)
    ensures UnNonLinear(R, NonLinear(R, s, ab), ab) == s && NonLinear(R, UnNonLinear(R, s, ab), ab) == s
  {
    RootInvertsQuint(R, q, s[0]);
    RootInvertsQuint(R, q, s[1]);
    var y0, y1 := Root(R, s[0]), Quint(R, s[1]);
    FactorsUndone(R, y0, y1, R.Zero(), s[2..], ab);
    assert NonLinear(R, s, ab)[2..] == Factors(R, y0, y1, R.Zero(), s[2..], ab);
    UnfactorsUndone(R, s[0], s[1], R.Zero(), s[2..], ab);
    assert UnNonLinear(R, s, ab)[2..] == Unfactors(R, s[0], s[1], R.Zero(), s[2..], ab);
    assert [s[0], s[1]] + s[2..] == s;
  }

  // ---- the linear layer ----

  function Lin3<T>(R: Ring<T>, s: seq<T>): (t: seq<T>)
    requires |s| == 3
    ensures |t| == 3
  {
    var sum := R.Plus(R.Plus(s[0], s[1]), s[2]);
    [R.Plus(s[0], sum), R.Plus(s[1], sum), R.Plus(s[2], sum)]
  }

  function Lin4<T>(R: Ring<T>, s: seq<T>): (t: seq<T>)
    requires |s| == 4
    ensures |t| == 4
  {
    var sum := R.Plus(R.Plus(R.Plus(s[0], s[1]), s[2]), s[3]);
    [R.Plus(R.Plus(R.Plus(s[0], sum), s[0]), s[1]),
     R.Plus(R.Plus(R.Plus(s[1], sum), s[1]), s[2]),
     R.Plus(R.Plus(R.Plus(s[2], sum), s[2]), s[3]),
     R.Plus(R.Plus(R.Plus(s[3], sum), s[3]), s[0])]
  }

  function Lin<T>(R: Ring<T>, s: seq<T>): (t: seq<T>)
    requires 3 <= |s| <= 4
    ensures |t| == |s|
  {
    if |s| == 3 then Lin3(R, s) else Lin4(R, s)
  }

  /** Circ(2, 1, 1) and Circ(3, 2, 1, 1). */
  function Circulant(w: nat): (M: seq<seq<int>>)
    requires 3 <= w <= 4
    ensures IntSquare(M, w)
  {
    if w == 3 then [[2, 1, 1], [1, 2, 1], [1, 1, 2]]
    else [[3, 2, 1, 1], [1, 3, 2, 1], [1, 1, 3, 2], [2, 1, 1, 3]]
  }

  function CirculantAdjoint(w: nat): (N: seq<seq<int>>)
    requires 3 <= w <= 4
    ensures IntSquare(N, w)
  {
    if w == 3 then [[3, -1, -1], [-1, 3, -1], [-1, -1, 3]]
    else [[17, -11, 3, -4], [-4, 17, -11, 3], [3, -4, 17, -11], [-11, 3, -4, 17]]
  }

  function CirculantDeterminant(w: nat): int
    requires 3 <= w <= 4
  {
    if w == 3 then 4 else 35
  }

  lemma {:induction false} Lin3IsCirculant<T(!new)>(R: Ring<T>, s: seq<T>)
    requires IsRing(R) && |s| == 3
    ensures Lin3(R, s)[0] == Of(R, [2, 1, 1], s)
    ensures Lin3(R, s)[1] == Of(R, [1, 2, 1], s)
    ensures Lin3(R, s)[2] == Of(R, [1, 1, 2], s)
  {
    OfUnit(R, [1, 0, 0], s, 0);
    OfUnit(R, [0, 1, 0], s, 1);
    OfUnit(R, [0, 0, 1], s, 2);
    OfSum(R, [1, 0, 0], [0, 1, 0], [1, 1, 0], s);
    OfSum(R, [1, 1, 0], [0, 0, 1], [1, 1, 1], s);
    OfSum(R, [1, 0, 0], [1, 1, 1], [2, 1, 1], s);
    OfSum(R, [0, 1, 0], [1, 1, 1], [1, 2, 1], s);
    OfSum(R, [0, 0, 1], [1, 1, 1], [1, 1, 2], s);
  }

  lemma {:induction false} Sum4<T(!new)>(R: Ring<T>, s: seq<T>)
    requires IsRing(R) && |s| == 4
    ensures s[0] == Of(R, [1, 0, 0, 0], s) && s[1] == Of(R, [0, 1, 0, 0], s)
    ensures s[2] == Of(R, [0, 0, 1, 0], s) && s[3] == Of(R, [0, 0, 0, 1], s)
    ensures R.Plus(R.Plus(R.Plus(s[0], s[1]), s[2]), s[3]) == Of(R, [1, 1, 1, 1], s)
  {
    OfUnit(R, [1, 0, 0, 0], s, 0);
    OfUnit(R, [0, 1, 0, 0], s, 1);
    OfUnit(R, [0, 0, 1, 0], s, 2);
    OfUnit(R, [0, 0, 0, 1], s, 3);
    OfSum(R, [1, 0, 0, 0], [0, 1, 0, 0], [1, 1, 0, 0], s);
    OfSum(R, [1, 1, 0, 0], [0, 0, 1, 0], [1, 1, 1, 0], s);
    OfSum(R, [1, 1, 1, 0], [0, 0, 0, 1], [1, 1, 1, 1], s);
  }

  lemma {:induction false} Lin4IsCirculant<T(!new)>(R: Ring<T>, s: seq<T>)
    requires IsRing(R) && |s| == 4
    ensures Lin4(R, s)[0] == Of(R, [3, 2, 1, 1], s) && Lin4(R, s)[1] == Of(R, [1, 3, 2, 1], s)
    ensures Lin4(R, s)[2] == Of(R, [1, 1, 3, 2], s) && Lin4(R, s)[3] == Of(R, [2, 1, 1, 3], s)
  {
    Sum4(R, s);
    OfSum(R, [1, 0, 0, 0], [1, 1, 1, 1], [2, 1, 1, 1], s);
    OfSum(R, [2, 1, 1, 1], [1, 0, 0, 0], [3, 1, 1, 1], s);
    OfSum(R, [3, 1, 1, 1], [0, 1, 0, 0], [3, 2, 1, 1], s);
    OfSum(R, [0, 1, 0, 0], [1, 1, 1, 1], [1, 2, 1, 1], s);
    OfSum(R, [1, 2, 1, 1], [0, 1, 0, 0], [1, 3, 1, 1], s);
    OfSum(R, [1, 3, 1, 1], [0, 0, 1, 0], [1, 3, 2, 1], s);
    OfSum(R, [0, 0, 1, 0], [1, 1, 1, 1], [1, 1, 2, 1], s);
    OfSum(R, [1, 1, 2, 1], [0, 0, 1, 0], [1, 1, 3, 1], s);
    OfSum(R, [1, 1, 3, 1], [0, 0, 0, 1], [1, 1, 3, 2], s);
    OfSum(R, [0, 0, 0, 1], [1, 1, 1, 1], [1, 1, 1, 2], s);
    OfSum(R, [1, 1, 1, 2], [0, 0, 0, 1], [1, 1, 1, 3], s);
    OfSum(R, [1, 1, 1, 3], [1, 0, 0, 0], [2, 1, 1, 3], s);
  }

  /** The additions of the linear layers are the circulant matrices. */
  lemma {:induction false} LinIsCirculant<T(!new)>(R: Ring<T>, s: seq<T>)
    requires IsRing(R) && 3 <= |s| <= 4
    ensures Lin(R, s) == IntMat(R, Circulant(|s|), s)
  {
    if |s| == 3 { Lin3IsCirculant(R, s); } else { Lin4IsCirculant(R, s); }
  }

  lemma {:induction false} CirculantEntries(w: nat, i: nat, j: nat)
    requires 3 <= w <= 4 && i < w && j < w
    ensures Entry(CirculantAdjoint(w)[i], Circulant(w), j, w) == if j == i then CirculantDeterminant(w) else 0
    ensures Entry(Circulant(w)[i], CirculantAdjoint(w), j, w) == if j == i then CirculantDeterminant(w) else 0
  {
    EntryAt(CirculantAdjoint(w)[i], Circulant(w), j, w);
    EntryAt(Circulant(w)[i], CirculantAdjoint(w), j, w);
  }

  function Unlin<T>(R: Ring<T>, u: T, t: seq<T>): (s: seq<T>)
    requires 3 <= |t| <= 4
    ensures |s| == |t|
  {
    Divided(R, CirculantAdjoint(|t|), u, t)
  }

  lemma {:induction false} LinInvertible<T(!new)>(R: Ring<T>, s: seq<T>, u: T)
    requires IsRing(R) && 3 <= |s| <= 4 && R.Mul(u, OfInt(R, CirculantDeterminant(|s|))) == R.one
    ensures Unlin(R, u, Lin(R, s)) == s && Lin(R, Unlin(R, u, s)) == s
  {
    var w := |s|;
    forall i: nat, j: nat | i < w && j < w
      ensures Entry(CirculantAdjoint(w)[i], Circulant(w), j, w) == if j == i then CirculantDeterminant(w) else 0
      ensures Entry(Circulant(w)[i], CirculantAdjoint(w), j, w) == if j == i then CirculantDeterminant(w) else 0
    {
      CirculantEntries(w, i, j);
    }
    LayerInvertible(R, CirculantAdjoint(w), Circulant(w), s, w, CirculantDeterminant(w), u);
    LinIsCirculant(R, s);
    LinIsCirculant(R, Unlin(R, u, s));
  }

  // ---- the permutation ----

  function Round<T>(R: Ring<T>, s: seq<T>, ab: seq<(T, T)>, k: seq<T>): (t: seq<T>)
    requires 3 <= |s| <= 4 && |s| == |ab| + 2 == |k|
    ensures |t| == |s|
  {
    AddAll(R, Lin(R, NonLinear(R, s, ab)), k)
  }

  function Unround<T>(R: Ring<T>, u: T, t: seq<T>, ab: seq<(T, T)>, k: seq<T>): (s: seq<T>)
    requires 3 <= |t| <= 4 && |t| == |ab| + 2 == |k|
    ensures |s| == |t|
  {
    UnNonLinear(R, Unlin(R, u, SubAll(R, t, k)), ab)
  }

  lemma {:induction false} RoundInvertible<T(!new)>(R: Ring<T>, q: nat, u: T, s: seq<T>, ab: seq<(T, T)>, k: seq<T>)
    requires IsRing(R) && Fermat(R, q) && 5 * ROOT == 2 * (q - 1) + 1 && UnitFactors(R, ab)
    requires 3 <= |s| <= 4 && |s| == |ab| + 2 == |k| && R.Mul(u, OfInt(R, CirculantDeterminant(|s|))) == R.one
    ensures Unround(R, u, Round(R, s, ab, k), ab, k) == s && Round(R, Unround(R, u, s, ab, k), ab, k) == s
  {
    hide Lin, Unlin, NonLinear, UnNonLinear, CirculantDeterminant;
    var n := NonLinear(R, s, ab);
    NonLinearInvertible(R, q, s, ab);
    LinInvertible(R, n, u);
    AddInvertible(R, Lin(R, n), k);
    var d := SubAll(R, s, k);
    AddInvertible(R, s, k);
    LinInvertible(R, d, u);
    NonLinearInvertible(R, q, Unlin(R, u, d), ab);
  }

  function Rounds<T>(R: Ring<T>, s: seq<T>, ab: seq<(T, T)>, keys: seq<seq<T>>): (t: seq<T>)
    requires 3 <= |s| <= 4 && |s| == |ab| + 2 && Keys(keys, |s|)
    ensures |t| == |s|
    decreases |keys|
  {
    if keys == [] then s else Rounds(R, Round(R, s, ab, keys[0]), ab, keys[1..])
  }

  /** The permutation starts with the linear layer. */
  function Permutation<T>(R: Ring<T>, s: seq<T>, ab: seq<(T, T)>, keys: seq<seq<T>>): (t: seq<T>)
    requires 3 <= |s| <= 4 && |s| == |ab| + 2 && Keys(keys, |s|)
    ensures |t| == |s|
  {
    Rounds(R, Lin(R, s), ab, keys)
  }

  function Unrounds<T>(R: Ring<T>, u: T, t: seq<T>, ab: seq<(T, T)>, keys: seq<seq<T>>): (s: seq<T>)
    requires 3 <= |t| <= 4 && |t| == |ab| + 2 && Keys(keys, |t|)
    ensures |s| == |t|
    decreases |keys|
  {
    if keys == [] then t else Unround(R, u, Unrounds(R, u, t, ab, keys[1..]), ab, keys[0])
  }

  lemma {:induction false} RoundsInvertible<T(!new)>(
      R: Ring<T>, q: nat, u: T, s: seq<T>, ab: seq<(T, T)>, keys: seq<seq<T>>)
    requires IsRing(R) && Fermat(R, q) && 5 * ROOT == 2 * (q - 1) + 1 && UnitFactors(R, ab)
    requires 3 <= |s| <= 4 && |s| == |ab| + 2 && Keys(keys, |s|)
    requires R.Mul(u, OfInt(R, CirculantDeterminant(|s|))) == R.one
    ensures Unrounds(R, u, Rounds(R, s, ab, keys), ab, keys) == s
    ensures Rounds(R, Unrounds(R, u, s, ab, keys), ab, keys) == s
    decreases |keys|
  {
    hide Round, Unround, CirculantDeterminant;
    if keys != [] {
      RoundInvertible(R, q, u, s, ab, keys[0]);
      RoundsInvertible(R, q, u, Round(R, s, ab, keys[0]), ab, keys[1..]);
      RoundsInvertible(R, q, u, s, ab, keys[1..]);
      RoundInvertible(R, q, u, Unrounds(R, u, s, ab, keys[1..]), ab, keys[0]);
    }
  }

  /** For sizes 3 and 4 and any number of rounds the permutation is a bijection. */
  lemma {:induction false} PermutationInvertible<T(!new)>(
      R: Ring<T>, q: nat, u: T, s: seq<T>, ab: seq<(T, T)>, keys: seq<seq<T>>)
    requires IsRing(R) && Fermat(R, q) && 5 * ROOT == 2 * (q - 1) + 1 && UnitFactors(R, ab)
    requires 3 <= |s| <= 4 && |s| == |ab| + 2 && Keys(keys, |s|)
    requires R.Mul(u, OfInt(R, CirculantDeterminant(|s|))) == R.one
    ensures Unlin(R, u, Unrounds(R, u, Permutation(R, s, ab, keys), ab, keys)) == s
    ensures Permutation(R, Unlin(R, u, Unrounds(R, u, s, ab, keys)), ab, keys) == s
  {
    hide Lin, Unlin, Round, Unround, CirculantDeterminant;
    LinInvertible(R, s, u);
    RoundsInvertible(R, q, u, Lin(R, s), ab, keys);
    RoundsInvertible(R, q, u, s, ab, keys);
    LinInvertible(R, Unrounds(R, u, s, ab, keys), u);
  }
}
