/** Anemoi as a system of equations between the states before and after every round. */
module AnemoiSystem {
  import opened Algebra
  import opened Sums
  import opened AdditionChain
  import opened IntLinear
  import opened Anemoi
  import opened Systems
  import Poseidon
  import AnemoiCode

  // ---- the S-box ----

  /** The two equations of the Flystel: (y - v)^5 + beta y^2 = x and (y - v)^5 + beta v^2 + delta = u. */
  ghost predicate FlystelHolds<T>(R: Ring<T>, beta: T, delta: T, x: T, y: T, u: T, v: T) {
    var p := Pow(R, R.Minus(y, v), 5);
    && R.Plus(p, R.Mul(beta, R.Mul(y, y))) == x
    && R.Plus(R.Plus(p, R.Mul(beta, R.Mul(v, v))), delta) == u
  }

  /** y - (y - v) = v. */
  lemma {:induction false} MinusTwice<T(!new)>(R: Ring<T>, y: T, v: T)
    requires IsRing(R)
    ensures R.Minus(y, R.Minus(y, v)) == v
  {
    var A, d := R.additive, R.Minus(y, v);
    PlusMinus(R, y, v);
    PlusComm(A, d, v);
    PlusMinus(R, v, d);
  }

  /** The S-box gives the one pair that meets the equations. */
  lemma {:induction false} FlystelExactly<T(!new)>(R: Ring<T>, q: nat, beta: T, delta: T, x: T, y: T, u: T, v: T)
    requires IsRing(R) && Fermat(R, q) && 5 * ROOT == 2 * (q - 1) + 1
    ensures (u, v) == Flystel(R, beta, delta, x, y) <==> FlystelHolds(R, beta, delta, x, y, u, v)
  {
    hide Pow, Fermat, Poseidon.Quint;
    var d, sy, sv := R.Minus(y, v), Square2(R, beta, y), Square2(R, beta, v);
    var p := Pow(R, d, 5);
    MulComm(R, R.Mul(y, y), beta);
    MulComm(R, R.Mul(v, v), beta);
    QuintIsPower(R, d);
    var x1 := R.Minus(x, sy);
    RootInvertsQuint(R, q, x1);
    RootInvertsQuint(R, q, d);
    MinusTwice(R, y, v);
    MinusTwice(R, y, Root(R, x1));
    PlusMinus(R, p, sy);
    PlusMinus(R, x, sy);
    PlusAssoc(R.additive, p, sv, delta);
  }

  // ---- the linear layer ----

  /** t is the integer matrix applied to s. */
  ghost predicate Combined<T>(R: Ring<T>, M: seq<seq<int>>, s: seq<T>, t: seq<T>) {
    && IntSquare(M, |s|) && |t| == |s|
    && forall i | 0 <= i < |s| :: t[i] == Sum(R.additive, |s|, IntTerm(R, M[i], s))
  }

  lemma {:induction false} CombinedExactly<T>(R: Ring<T>, M: seq<seq<int>>, s: seq<T>, t: seq<T>)
    requires IntSquare(M, |s|)
    ensures t == IntMat(R, M, s) <==> Combined(R, M, s, t)
  {
    hide IntDot, Sum;
    forall i | 0 <= i < |s| ensures IntDot(R, M[i], s, |s|) == Sum(R.additive, |s|, IntTerm(R, M[i], s)) {
      IntDotIsSum(R, M[i], s, |s|);
    }
  }

  /** The elements from l on, each moved up by one and the first to the end. */
  function MovedUp<T>(l: nat, s: seq<T>): seq<T>
    requires |s| == 2 * l
  {
    seq(l, j requires 0 <= j < l => if j + 1 < l then s[l + j + 1] else s[l])
  }

  /** For l = 1 one matrix; otherwise the matrix for l on the x, and on the y moved up by one. */
  ghost predicate LinearHolds<T>(R: Ring<T>, l: nat, s: seq<T>, t: seq<T>) {
    && 1 <= l <= 4 && |s| == 2 * l == |t|
    && if l == 1 then Combined(R, [[1, 7], [7, 50]], s, t)
       else Combined(R, Matrix(l), s[..l], t[..l]) && Combined(R, Matrix(l), MovedUp(l, s), t[l..])
  }

  lemma {:induction false} LinearExactly<T(!new)>(R: Ring<T>, l: nat, s: seq<T>, t: seq<T>)
    requires IsRing(R) && 1 <= l <= 4 && |s| == 2 * l == |t|
    ensures t == Linear(R, l, s) <==> LinearHolds(R, l, s, t)
  {
    hide IntMat, Combined, Mat2, Mat, Matrix, MovedUp;
    if l == 1 {
      FirstMatrix(R, s, t);
    } else {
      var x, y := s[..l], Rotated(s[l..]);
      LayerIsMatrix(R, l, x);
      LayerIsMatrix(R, l, y);
      CombinedExactly(R, Matrix(l), x, t[..l]);
      CombinedExactly(R, Matrix(l), y, t[l..]);
      MovedIsRotated(l, s);
      Halves(Mat(R, l, x), Mat(R, l, y), Linear(R, l, s), l);
      assert t == t[..l] + t[l..];
    }
  }

  lemma {:induction false} FirstMatrix<T(!new)>(R: Ring<T>, s: seq<T>, t: seq<T>)
    requires IsRing(R) && |s| == 2 == |t|
    ensures t == Mat2(R, s) <==> Combined(R, [[1, 7], [7, 50]], s, t)
  {
    hide Combined;
    LayerIsMatrix(R, 2, s);
    CombinedExactly(R, Matrix(2), s, t);
  }

  lemma {:induction false} MovedIsRotated<T>(l: nat, s: seq<T>)
    requires 1 <= l && |s| == 2 * l
    ensures MovedUp(l, s) == Rotated(s[l..])
  {
    var z := Rotated(s[l..]);
    forall j | 0 <= j < l ensures z[j] == if j + 1 < l then s[l + j + 1] else s[l] {
      assert j + 1 < l ==> s[l..][1..][j] == s[l + j + 1];
    }
  }

  // ---- the permutation ----

  /** One round: constants, the linear layer to m, the S-boxes to t. */
  ghost predicate RoundHolds<T>(R: Ring<T>, l: nat, beta: T, delta: T, s: seq<T>, k: seq<T>, m: seq<T>, t: seq<T>) {
    && |s| == |k| == |m| == |t| == 2 * l
    && LinearHolds(R, l, seq(|s|, i requires 0 <= i < |s| => R.Plus(s[i], k[i])), m)
    && forall i | 0 <= i < l :: FlystelHolds(R, beta, delta, m[i], m[l + i], t[i], t[l + i])
  }

  lemma {:induction false} FlystelsExactly<T(!new)>(
      R: Ring<T>, q: nat, l: nat, beta: T, delta: T, m: seq<T>, t: seq<T>)
    requires IsRing(R) && Fermat(R, q) && 5 * ROOT == 2 * (q - 1) + 1 && |m| == 2 * l == |t|
    ensures t == FlystelAll(R, l, beta, delta, m)
            <==> forall i | 0 <= i < l :: FlystelHolds(R, beta, delta, m[i], m[l + i], t[i], t[l + i])
  {
    hide Flystel, FlystelHolds, Fermat;
    var f := FlystelAll(R, l, beta, delta, m);
    forall i | 0 <= i < l
      ensures FlystelHolds(R, beta, delta, m[i], m[l + i], t[i], t[l + i]) <==> t[i] == f[i] && t[l + i] == f[l + i]
    {
      assert m[l..][i] == m[l + i] && f[l..][i] == f[l + i];
      assert (f[i], f[l..][i]) == Flystel(R, beta, delta, m[i], m[l..][i]);
      FlystelExactly(R, q, beta, delta, m[i], m[l + i], t[i], t[l + i]);
    }
    if forall i | 0 <= i < l :: FlystelHolds(R, beta, delta, m[i], m[l + i], t[i], t[l + i]) {
      forall i | 0 <= i < l ensures t[l..][i] == f[l..][i] { assert t[l + i] == f[l + i]; }
      SameHalves(t, f, l);
    }
  }

  lemma {:induction false} RoundExactly<T(!new)>(
      R: Ring<T>, q: nat, l: nat, beta: T, delta: T, s: seq<T>, k: seq<T>, m: seq<T>, t: seq<T>)
    requires IsRing(R) && Fermat(R, q) && 5 * ROOT == 2 * (q - 1) + 1 && 1 <= l <= 4
    requires |s| == |k| == |m| == |t| == 2 * l
    ensures m == Linear(R, l, AddAll(R, s, k)) && t == Round(R, l, beta, delta, s, k)
            <==> RoundHolds(R, l, beta, delta, s, k, m, t)
  {
    hide Linear, LinearHolds, FlystelHolds, FlystelAll, Fermat;
    var a := seq(|s|, i requires 0 <= i < |s| => R.Plus(s[i], k[i]));
    assert a == AddAll(R, s, k);
    LinearExactly(R, l, a, m);
    FlystelsExactly(R, q, l, beta, delta, m, t);
  }

  /** The states before every round and those after its linear layer; a last linear layer gives the output. */
  ghost predicate AnemoiSystem<T>(
      R: Ring<T>, l: nat, beta: T, delta: T, keys: seq<seq<T>>, trace: seq<seq<T>>, mids: seq<seq<T>>, out: seq<T>) {
    && |trace| == |keys| + 1 && |mids| == |keys|
    && (forall r | 0 <= r < |keys| :: RoundHolds(R, l, beta, delta, trace[r], keys[r], mids[r], trace[r + 1]))
    && LinearHolds(R, l, trace[|keys|], out)
  }

  lemma {:induction false} RoundsSolve<T(!new)>(
      R: Ring<T>, q: nat, l: nat, beta: T, delta: T, s: seq<T>, keys: seq<seq<T>>)
    returns (trace: seq<seq<T>>, mids: seq<seq<T>>)
    requires IsRing(R) && Fermat(R, q) && 5 * ROOT == 2 * (q - 1) + 1
    requires 1 <= l <= 4 && |s| == 2 * l && RoundKeys(keys, |s|)
    ensures AnemoiSystem(R, l, beta, delta, keys, trace, mids, Permutation(R, l, beta, delta, s, keys))
    ensures trace[0] == s
    decreases |keys|
  {
    hide RoundHolds, LinearHolds, Round, Linear, Fermat;
    if keys == [] {
      trace, mids := [s], [];
      LinearExactly(R, l, s, Linear(R, l, s));
    } else {
      var k, rest := keys[0], keys[1..];
      var m, t := Linear(R, l, AddAll(R, s, k)), Round(R, l, beta, delta, s, k);
      RoundExactly(R, q, l, beta, delta, s, k, m, t);
      var tr, ms := RoundsSolve(R, q, l, beta, delta, t, rest);
      trace, mids := [s] + tr, [m] + ms;
      forall r | 1 <= r < |keys|
        ensures RoundHolds(R, l, beta, delta, trace[r], keys[r], mids[r], trace[r + 1])
      {
        var i := r - 1;
        assert rest[i] == keys[r] && ms[i] == mids[r] && tr[i] == trace[r] && tr[i + 1] == trace[r + 1];
      }
    }
  }

  lemma {:induction false} SolutionEnds<T(!new)>(
      R: Ring<T>, q: nat, l: nat, beta: T, delta: T, s: seq<T>, keys: seq<seq<T>>, trace: seq<seq<T>>,
      mids: seq<seq<T>>, out: seq<T>)
    requires IsRing(R) && Fermat(R, q) && 5 * ROOT == 2 * (q - 1) + 1
    requires 1 <= l <= 4 && |s| == 2 * l && RoundKeys(keys, |s|)
    requires AnemoiSystem(R, l, beta, delta, keys, trace, mids, out) && trace[0] == s
    ensures out == Permutation(R, l, beta, delta, s, keys)
    decreases |keys|
  {
    hide RoundHolds, LinearHolds, Round, Linear, Fermat;
    if keys == [] {
      OutputSize(R, l, s, out);
      LinearExactly(R, l, s, out);
    } else {
      StepSize(R, l, beta, delta, s, keys[0], mids[0], trace[1]);
      RoundExactly(R, q, l, beta, delta, s, keys[0], mids[0], trace[1]);
      var ks, tr, ms := keys[1..], trace[1..], mids[1..];
      forall r | 0 <= r < |ks| ensures RoundHolds(R, l, beta, delta, tr[r], ks[r], ms[r], tr[r + 1]) {
        var i := r + 1;
        assert ks[r] == keys[i] && tr[r] == trace[i] && ms[r] == mids[i] && tr[r + 1] == trace[i + 1];
      }
      SolutionEnds(R, q, l, beta, delta, trace[1], ks, tr, ms, out);
    }
  }

  lemma {:induction false} OutputSize<T>(R: Ring<T>, l: nat, s: seq<T>, out: seq<T>)
    requires LinearHolds(R, l, s, out)
    ensures |out| == 2 * l
  {
  }

  lemma {:induction false} StepSize<T>(
      R: Ring<T>, l: nat, beta: T, delta: T, s: seq<T>, k: seq<T>, m: seq<T>, t: seq<T>)
    requires RoundHolds(R, l, beta, delta, s, k, m, t)
    ensures |m| == |t| == 2 * l
  {
  }

  /** For l from 1 to 4 and any number of rounds, the permutation is exactly where the equations lead. */
  lemma {:induction false} AnemoiExactly<T(!new)>(
      R: Ring<T>, q: nat, l: nat, beta: T, delta: T, s: seq<T>, keys: seq<seq<T>>, out: seq<T>)
    requires IsRing(R) && Fermat(R, q) && 5 * ROOT == 2 * (q - 1) + 1
    requires 1 <= l <= 4 && |s| == 2 * l && RoundKeys(keys, |s|)
    ensures out == Permutation(R, l, beta, delta, s, keys)
            <==> exists trace, mids :: AnemoiSystem(R, l, beta, delta, keys, trace, mids, out) && trace[0] == s
  {
    hide RoundHolds, LinearHolds, Permutation, Fermat;
    var trace, mids := RoundsSolve(R, q, l, beta, delta, s, keys);
    forall tr, ms | AnemoiSystem(R, l, beta, delta, keys, tr, ms, out) && tr[0] == s
      ensures out == Permutation(R, l, beta, delta, s, keys)
    {
      SolutionEnds(R, q, l, beta, delta, s, keys, tr, ms, out);
    }
  }

  lemma {:induction false} FirstConstants<T>(c: seq<T>, l: nat, base: nat, offset: nat, i: nat)
    requires base + l <= offset && offset + base + l <= |c| && i < l
    ensures AnemoiCode.KeyAt(c, l, base, offset)[i] == c[base + i]
    ensures AnemoiCode.KeyAt(c, l, base, offset)[l + i] == c[offset + base + i]
  {
  }

  /** Round r adds the constants from r l on to x, and those from r l on in the second half to y. */
  lemma {:induction false} KeyConstants<T>(
      c: seq<T>, l: nat, base: nat, offset: nat, n: nat, r: nat, i: nat, at: nat)
    requires base + Poseidon.Times(n, l) == offset && offset + offset <= |c|
    requires r < n && i < l && at == base + r * l + i
    ensures at < offset
    ensures AnemoiCode.KeysFrom(c, l, base, offset, n)[r][i] == c[at]
    ensures AnemoiCode.KeysFrom(c, l, base, offset, n)[r][l + i] == c[offset + at]
    decreases r
  {
    hide AnemoiCode.KeyAt;
    var rest: nat := n - 1;
    assert Poseidon.Times(n, l) == l + Poseidon.Times(rest, l);
    FirstConstants(c, l, base, offset, i);
    if r > 0 {
      var before: nat := r - 1;
      assert r * l == l + before * l;
      KeyConstants(c, l, base + l, offset, rest, before, i, at);
    }
  }
}
