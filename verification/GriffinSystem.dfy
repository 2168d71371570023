/** Griffin as a system of equations between the states before and after every round. */
module GriffinSystem {
  import opened Algebra
  import opened Sums
  import opened Poseidon
  import opened AdditionChain
  import opened IntLinear
  import opened Griffin
  import opened Systems
  import opened AnemoiSystem

  // ---- the non-linear layer ----

  /** The elements of a sequence from an index on. */
  function From<T>(R: Ring<T>, xs: seq<T>, at: nat): int -> T {
    j => if 0 <= j && at + j < |xs| then xs[at + j] else R.Zero()
  }

  /** The linear input of factor k, from the one before. */
  function Input<T>(R: Ring<T>, y0: T, acc: T, prev: T, xs: seq<T>, k: nat): T
    requires k <= |xs|
  {
    if k == 0 then NextInput(R, y0, acc, prev) else NextInput(R, y0, Input(R, y0, acc, prev, xs, k - 1), xs[k - 1])
  }

  lemma {:induction false} InputShift<T>(R: Ring<T>, y0: T, acc: T, prev: T, xs: seq<T>, k: nat)
    requires xs != [] && k < |xs|
    ensures Input(R, y0, acc, prev, xs, k + 1)
            == Input(R, y0, NextInput(R, y0, acc, prev), xs[0], xs[1..], k)
  {
    hide NextInput;
    if k > 0 { InputShift(R, y0, acc, prev, xs, k - 1); }
  }

  lemma {:induction false} FactorAt<T>(R: Ring<T>, y0: T, acc: T, prev: T, xs: seq<T>, ab: seq<(T, T)>, k: nat)
    requires |xs| == |ab| && k < |xs|
    ensures Factors(R, y0, acc, prev, xs, ab)[k]
            == R.Mul(Quadratic(R, Input(R, y0, acc, prev, xs, k), ab[k].0, ab[k].1), xs[k])
    decreases k
  {
    hide Quadratic, NextInput;
    if k > 0 {
      var l := NextInput(R, y0, acc, prev);
      FactorAt(R, y0, l, xs[0], xs[1..], ab[1..], k - 1);
      InputShift(R, y0, acc, prev, xs, k - 1);
    }
  }

  /** Input k: y0 as often as there are factors so far, the accumulator and the elements so far. */
  lemma {:induction false} InputIsSum<T(!new)>(R: Ring<T>, y0: T, acc: T, s: seq<T>, k: nat)
    requires IsRing(R) && 2 <= |s| && k <= |s| - 2
    ensures Input(R, y0, acc, R.Zero(), s[2..], k)
            == R.Plus(R.Plus(R.Mul(OfNat(R, k + 1), y0), acc), Sum(R.additive, k, From(R, s, 2)))
  {
    var A, xs, f := R.additive, s[2..], From(R, s, 2);
    OfNatNext(R, k, y0);
    var a, b := R.Mul(OfNat(R, k), y0), Sum(A, k, f);
    if k == 0 {
      OfNatZero(R, y0);
      PlusComm(A, acc, y0);
      PlusZero(A, y0);
      PlusComm(A, y0, R.Zero());
    } else {
      var m: nat := k - 1;
      InputIsSum(R, y0, acc, s, m);
      assert xs[m] == f(m);
      Regroup(R, a, acc, Sum(A, m, f), y0, f(m));
    }
  }

  lemma {:induction false} OfNatZero<T(!new)>(R: Ring<T>, y: T)
    requires IsRing(R)
    ensures R.Mul(OfNat(R, 0), y) == R.Zero()
  {
    MulZero(R, y);
    MulComm(R, y, R.Zero());
  }

  lemma {:induction false} OfNatNext<T(!new)>(R: Ring<T>, k: nat, y: T)
    requires IsRing(R)
    ensures R.Mul(OfNat(R, k + 1), y) == R.Plus(R.Mul(OfNat(R, k), y), y)
  {
    var n := OfNat(R, k);
    Distrib(R, y, n, R.one);
    MulComm(R, y, R.Plus(n, R.one));
    MulComm(R, y, n);
    OneMul(R, y);
    MulComm(R, y, R.one);
  }

  /** ((a + c) + b) + y + x = ((a + y) + c) + (b + x). */
  lemma {:induction false} Regroup<T(!new)>(R: Ring<T>, a: T, c: T, b: T, y: T, x: T)
    requires IsRing(R)
    ensures R.Plus(R.Plus(R.Plus(R.Plus(a, c), b), y), x) == R.Plus(R.Plus(R.Plus(a, y), c), R.Plus(b, x))
  {
    var A := R.additive;
    var ac := R.Plus(a, c);
    PlusAssoc(A, ac, b, y);
    PlusComm(A, b, y);
    PlusAssoc(A, ac, y, b);
    PlusAssoc(A, a, c, y);
    PlusComm(A, c, y);
    PlusAssoc(A, a, y, c);
    PlusAssoc(A, R.Plus(R.Plus(a, y), c), b, x);
  }

  /** The input of element i: (i - 1) y0 + y1 and the elements from the third to the one before. */
  function LinearInput<T>(R: Ring<T>, y0: T, y1: T, s: seq<T>, i: nat): T
    requires 2 <= i
  {
    R.Plus(R.Plus(R.Mul(OfNat(R, i - 1), y0), y1), Sum(R.additive, i - 2, From(R, s, 2)))
  }

  /** The first element is the fifth power of its image, the second is raised to it, the others get their factor. */
  ghost predicate NonLinearHolds<T>(R: Ring<T>, s: seq<T>, ab: seq<(T, T)>, t: seq<T>) {
    && |s| == |t| == |ab| + 2
    && Pow(R, t[0], 5) == s[0] && t[1] == Pow(R, s[1], 5)
    && forall i | 2 <= i < |s| ::
         var l := LinearInput(R, t[0], t[1], s, i);
         t[i] == R.Mul(R.Plus(R.Plus(R.Mul(l, l), R.Mul(ab[i - 2].0, l)), ab[i - 2].1), s[i])
  }

  lemma {:induction false} FactorIs<T(!new)>(R: Ring<T>, y0: T, y1: T, s: seq<T>, ab: seq<(T, T)>, i: nat)
    requires IsRing(R) && |s| == |ab| + 2 && 2 <= i < |s|
    ensures var l := LinearInput(R, y0, y1, s, i);
            Factors(R, y0, y1, R.Zero(), s[2..], ab)[i - 2]
            == R.Mul(R.Plus(R.Plus(R.Mul(l, l), R.Mul(ab[i - 2].0, l)), ab[i - 2].1), s[i])
  {
    hide Factors, Input;
    var k: nat := i - 2;
    FactorAt(R, y0, y1, R.Zero(), s[2..], ab, k);
    InputIsSum(R, y0, y1, s, k);
    MulComm(R, LinearInput(R, y0, y1, s, i), ab[k].0);
  }

  /** The layer is the one solution of these equations. */
  lemma {:induction false} NonLinearExactly<T(!new)>(R: Ring<T>, q: nat, s: seq<T>, ab: seq<(T, T)>, t: seq<T>)
    requires IsRing(R) && Fermat(R, q) && 5 * ROOT == 2 * (q - 1) + 1 && |s| == |ab| + 2
    ensures t == NonLinear(R, s, ab) <==> NonLinearHolds(R, s, ab, t)
  {
    hide Fermat, Quint, Pow, LinearInput, Factors;
    var n := NonLinear(R, s, ab);
    RootInvertsQuint(R, q, s[0]);
    QuintIsPower(R, n[0]);
    QuintIsPower(R, s[1]);
    if |t| == |s| {
      RootInvertsQuint(R, q, t[0]);
      QuintIsPower(R, t[0]);
      if t[0] == n[0] && t[1] == n[1] {
        forall i | 2 <= i < |s|
          ensures var l := LinearInput(R, t[0], t[1], s, i);
                  n[i] == R.Mul(R.Plus(R.Plus(R.Mul(l, l), R.Mul(ab[i - 2].0, l)), ab[i - 2].1), s[i])
        {
          FactorIs(R, t[0], t[1], s, ab, i);
        }
      }
    }
  }

  // ---- the linear layer ----

  /** Entry j of row i of the circulant matrix is entry j - i of its first row. */
  lemma {:induction false} CirculantRows(w: nat, i: nat, j: nat)
    requires 3 <= w <= 4 && i < w && j < w
    ensures Circulant(w)[i][j] == (if w == 3 then [2, 1, 1] else [3, 2, 1, 1])[(j + w - i) % w]
  {
  }

  lemma {:induction false} LinExactly<T(!new)>(R: Ring<T>, s: seq<T>, t: seq<T>)
    requires IsRing(R) && 3 <= |s| <= 4
    ensures t == Lin(R, s) <==> Combined(R, Circulant(|s|), s, t)
  {
    hide Combined, Lin, Circulant, IntMat;
    LinIsCirculant(R, s);
    CombinedExactly(R, Circulant(|s|), s, t);
  }

  // ---- the permutation ----

  /** One round: the non-linear layer to n, the circulant matrix to m, and the constants. */
  ghost predicate RoundHolds<T>(
      R: Ring<T>, ab: seq<(T, T)>, s: seq<T>, k: seq<T>, n: seq<T>, m: seq<T>, t: seq<T>) {
    && 3 <= |s| <= 4 && |m| == |k| == |t| == |s|
    && NonLinearHolds(R, s, ab, n) && Combined(R, Circulant(|s|), n, m)
    && forall i | 0 <= i < |s| :: t[i] == R.Plus(m[i], k[i])
  }

  lemma {:induction false} RoundExactly<T(!new)>(
      R: Ring<T>, q: nat, ab: seq<(T, T)>, s: seq<T>, k: seq<T>, n: seq<T>, m: seq<T>, t: seq<T>)
    requires IsRing(R) && Fermat(R, q) && 5 * ROOT == 2 * (q - 1) + 1
    requires 3 <= |s| <= 4 && |s| == |ab| + 2 == |k|
    ensures n == NonLinear(R, s, ab) && m == Lin(R, n) && t == Round(R, s, ab, k)
            <==> RoundHolds(R, ab, s, k, n, m, t)
  {
    hide NonLinear, NonLinearHolds, Lin, Combined, Circulant, Fermat;
    NonLinearExactly(R, q, s, ab, n);
    var n1 := NonLinear(R, s, ab);
    LinExactly(R, n1, m);
  }

  /** The linear layer comes first; then the states before every round, and those inside it. */
  ghost predicate GriffinSystem<T>(
      R: Ring<T>, ab: seq<(T, T)>, s: seq<T>, keys: seq<seq<T>>, trace: seq<seq<T>>, ns: seq<seq<T>>, ms: seq<seq<T>>) {
    && 3 <= |s| <= 4 && |trace| == |keys| + 1 && |ns| == |ms| == |keys|
    && Combined(R, Circulant(|s|), s, trace[0])
    && forall r | 0 <= r < |keys| :: RoundHolds(R, ab, trace[r], keys[r], ns[r], ms[r], trace[r + 1])
  }

  lemma {:induction false} RoundsSolve<T(!new)>(R: Ring<T>, q: nat, ab: seq<(T, T)>, s: seq<T>, keys: seq<seq<T>>)
    returns (trace: seq<seq<T>>, ns: seq<seq<T>>, ms: seq<seq<T>>)
    requires IsRing(R) && Fermat(R, q) && 5 * ROOT == 2 * (q - 1) + 1
    requires 3 <= |s| <= 4 && |s| == |ab| + 2 && Keys(keys, |s|)
    ensures |trace| == |keys| + 1 && |ns| == |ms| == |keys|
    ensures forall r | 0 <= r < |keys| :: RoundHolds(R, ab, trace[r], keys[r], ns[r], ms[r], trace[r + 1])
    ensures trace[0] == s && trace[|keys|] == Griffin.Rounds(R, s, ab, keys)
    decreases |keys|
  {
    hide RoundHolds, Round, NonLinear, Lin, Fermat;
    if keys == [] {
      trace, ns, ms := [s], [], [];
    } else {
      var k, rest := keys[0], keys[1..];
      var n := NonLinear(R, s, ab);
      var m, t := Lin(R, n), Round(R, s, ab, k);
      RoundExactly(R, q, ab, s, k, n, m, t);
      var tr, nn, mm := RoundsSolve(R, q, ab, t, rest);
      trace, ns, ms := [s] + tr, [n] + nn, [m] + mm;
      forall r | 1 <= r < |keys|
        ensures RoundHolds(R, ab, trace[r], keys[r], ns[r], ms[r], trace[r + 1])
      {
        var i := r - 1;
        assert rest[i] == keys[r] && nn[i] == ns[r] && mm[i] == ms[r] && tr[i] == trace[r];
        assert tr[i + 1] == trace[r + 1];
      }
    }
  }

  lemma {:induction false} SolutionEnds<T(!new)>(
      R: Ring<T>, q: nat, ab: seq<(T, T)>, s: seq<T>, keys: seq<seq<T>>, trace: seq<seq<T>>, ns: seq<seq<T>>,
      ms: seq<seq<T>>)
    requires IsRing(R) && Fermat(R, q) && 5 * ROOT == 2 * (q - 1) + 1
    requires 3 <= |s| <= 4 && |s| == |ab| + 2 && Keys(keys, |s|)
    requires |trace| == |keys| + 1 && |ns| == |ms| == |keys| && trace[0] == s
    requires forall r | 0 <= r < |keys| :: RoundHolds(R, ab, trace[r], keys[r], ns[r], ms[r], trace[r + 1])
    ensures trace[|keys|] == Griffin.Rounds(R, s, ab, keys)
    decreases |keys|
  {
    hide RoundHolds, Round, NonLinear, Lin, Fermat;
    if keys != [] {
      RoundExactly(R, q, ab, s, keys[0], ns[0], ms[0], trace[1]);
      var ks, tr, nn, mm := keys[1..], trace[1..], ns[1..], ms[1..];
      forall r | 0 <= r < |ks| ensures RoundHolds(R, ab, tr[r], ks[r], nn[r], mm[r], tr[r + 1]) {
        var i := r + 1;
        assert ks[r] == keys[i] && tr[r] == trace[i] && nn[r] == ns[i] && mm[r] == ms[i] && tr[r + 1] == trace[i + 1];
      }
      SolutionEnds(R, q, ab, trace[1], ks, tr, nn, mm);
    }
  }

  /** For sizes 3 and 4 and any number of rounds, the permutation is exactly where the equations lead. */
  lemma {:induction false} GriffinExactly<T(!new)>(
      R: Ring<T>, q: nat, ab: seq<(T, T)>, s: seq<T>, keys: seq<seq<T>>, t: seq<T>)
    requires IsRing(R) && Fermat(R, q) && 5 * ROOT == 2 * (q - 1) + 1
    requires 3 <= |s| <= 4 && |s| == |ab| + 2 && Keys(keys, |s|)
    ensures t == Permutation(R, s, ab, keys)
            <==> exists trace, ns, ms :: GriffinSystem(R, ab, s, keys, trace, ns, ms) && trace[|keys|] == t
  {
    hide RoundHolds, Combined, Circulant, Lin, Griffin.Rounds, Fermat;
    var s0 := Lin(R, s);
    LinExactly(R, s, s0);
    var trace, ns, ms := RoundsSolve(R, q, ab, s0, keys);
    assert GriffinSystem(R, ab, s, keys, trace, ns, ms);
    forall tr, nn, mm | GriffinSystem(R, ab, s, keys, tr, nn, mm) && tr[|keys|] == t
      ensures t == Permutation(R, s, ab, keys)
    {
      LinExactly(R, s, tr[0]);
      SolutionEnds(R, q, ab, s0, keys, tr, nn, mm);
    }
  }
}
