/**
 * Poseidon's partial rounds, one by one and batched.  A batch keeps the fifth powers of the last state element as
 * extra variables, so that every intermediate value is an affine form in them; the batched constants are the
 * coefficients of those forms.
 */
module Poseidon {
  import opened Algebra

  /** x * (x^2)^2. */
  function Quint<T>(R: Ring<T>, x: T): T {
    R.Mul(R.Mul(R.Mul(x, x), R.Mul(x, x)), x)
  }

  /** The inner product of the first n entries. */
  function Dot<T>(R: Ring<T>, a: seq<T>, b: seq<T>, n: nat): T
    requires n <= |a| && n <= |b|
  {
    if n == 0 then R.Zero() else R.Plus(Dot(R, a, b, n - 1), R.Mul(a[n - 1], b[n - 1]))
  }

  ghost predicate Square<T>(M: seq<seq<T>>, w: nat) {
    |M| == w && forall i :: 0 <= i < w ==> |M[i]| == w
  }

  /** The matrix applied to the state, plus the round constants. */
  function Affine<T>(R: Ring<T>, M: seq<seq<T>>, s: seq<T>, k: seq<T>): (t: seq<T>)
    requires Square(M, |s|) && |k| == |s|
    ensures |t| == |s|
    ensures forall i :: 0 <= i < |s| ==> t[i] == R.Plus(Dot(R, M[i], s, |s|), k[i])
  {
    seq(|s|, i requires 0 <= i < |s| => R.Plus(Dot(R, M[i], s, |s|), k[i]))
  }

  function QuintLast<T>(R: Ring<T>, s: seq<T>): (t: seq<T>)
    requires s != []
    ensures |t| == |s|
  {
    s[|s| - 1 := Quint(R, s[|s| - 1])]
  }

  ghost predicate Keys<T>(ks: seq<seq<T>>, w: nat) {
    forall r :: 0 <= r < |ks| ==> |ks[r]| == w
  }

  /** Plain partial rounds: S-box on the last element, matrix, constants. */
  function PartialRounds<T>(R: Ring<T>, M: seq<seq<T>>, s: seq<T>, ks: seq<seq<T>>): (t: seq<T>)
    requires s != [] && Square(M, |s|) && Keys(ks, |s|)
    ensures |t| == |s|
    decreases |ks|
  {
    if ks == [] then s else PartialRounds(R, M, Affine(R, M, QuintLast(R, s), ks[0]), ks[1..])
  }

  // ---- affine forms ----

  datatype Form<!T> = Form(coeffs: seq<T>, cst: T)

  function Eval<T>(R: Ring<T>, f: Form<T>, vars: seq<T>): T
    requires |f.coeffs| == |vars|
  {
    R.Plus(Dot(R, f.coeffs, vars, |vars|), f.cst)
  }

  /** The form as it is laid out among the constants: coefficients first. */
  function Layout<T>(f: Form<T>): seq<T> { f.coeffs + [f.cst] }

  ghost predicate Forms<T>(fs: seq<Form<T>>, n: nat) {
    forall i :: 0 <= i < |fs| ==> |fs[i].coeffs| == n
  }

  function AddScaled<T>(R: Ring<T>, f: Form<T>, c: T, g: Form<T>): (h: Form<T>)
    requires |f.coeffs| == |g.coeffs|
    ensures |h.coeffs| == |f.coeffs|
    ensures forall j :: 0 <= j < |f.coeffs| ==> h.coeffs[j] == R.Plus(f.coeffs[j], R.Mul(c, g.coeffs[j]))
    ensures h.cst == R.Plus(f.cst, R.Mul(c, g.cst))
  {
    Form(seq(|f.coeffs|, j requires 0 <= j < |f.coeffs| => R.Plus(f.coeffs[j], R.Mul(c, g.coeffs[j]))),
         R.Plus(f.cst, R.Mul(c, g.cst)))
  }

  function ZeroForm<T>(R: Ring<T>, n: nat, c: T): (f: Form<T>)
    ensures |f.coeffs| == n && f.cst == c && forall j :: 0 <= j < n ==> f.coeffs[j] == R.Zero()
  {
    Form(seq(n, j => R.Zero()), c)
  }

  /** The combination of the first m forms with the given coefficients, plus a constant. */
  function Combine<T>(R: Ring<T>, row: seq<T>, fs: seq<Form<T>>, m: nat, n: nat, c: T): (f: Form<T>)
    requires m <= |row| && m <= |fs| && Forms(fs, n)
    ensures |f.coeffs| == n
  {
    if m == 0 then ZeroForm(R, n, c) else AddScaled(R, Combine(R, row, fs, m - 1, n, c), row[m - 1], fs[m - 1])
  }

  /** The matrix and the constants applied to a state of forms. */
  function AffineForms<T>(R: Ring<T>, M: seq<seq<T>>, fs: seq<Form<T>>, k: seq<T>, n: nat): (gs: seq<Form<T>>)
    requires Square(M, |fs|) && |k| == |fs| && Forms(fs, n)
    ensures |gs| == |fs| && Forms(gs, n)
    ensures forall i :: 0 <= i < |fs| ==> gs[i] == Combine(R, M[i], fs, |fs|, n, k[i])
  {
    seq(|fs|, i requires 0 <= i < |fs| => Combine(R, M[i], fs, |fs|, n, k[i]))
  }

  /** The form that is the last of n + 1 variables. */
  function NewVariable<T>(R: Ring<T>, n: nat): (f: Form<T>)
    ensures |f.coeffs| == n + 1
  {
    Form(ZeroForm(R, n, R.Zero()).coeffs + [R.one], R.Zero())
  }

  /** One more variable, which takes the place of the last element. */
  function Extended<T>(R: Ring<T>, fs: seq<Form<T>>, n: nat): (gs: seq<Form<T>>)
    requires fs != [] && Forms(fs, n)
    ensures |gs| == |fs| && Forms(gs, n + 1)
    ensures gs[|fs| - 1] == NewVariable(R, n)
    ensures forall i :: 0 <= i < |fs| - 1 ==> gs[i] == Form(fs[i].coeffs + [R.Zero()], fs[i].cst)
  {
    seq(|fs|, i requires 0 <= i < |fs| =>
      if i == |fs| - 1 then NewVariable(R, n) else Form(fs[i].coeffs + [R.Zero()], fs[i].cst))
  }

  function Layouts<T>(fs: seq<Form<T>>): seq<T> {
    if fs == [] then [] else Layout(fs[0]) + Layouts(fs[1..])
  }

  /** The constants of one batch: a form for each extra variable, then the forms of the final state. */
  function BatchConstants<T>(R: Ring<T>, M: seq<seq<T>>, fs: seq<Form<T>>, ks: seq<seq<T>>, n: nat): seq<T>
    requires fs != [] && Square(M, |fs|) && Forms(fs, n) && Keys(ks, |fs|) && ks != []
    decreases |ks|
  {
    var gs := AffineForms(R, M, fs, ks[0], n);
    if |ks| == 1 then Layouts(gs)
    else Layout(gs[|gs| - 1]) + BatchConstants(R, M, Extended(R, gs, n), ks[1..], n + 1)
  }

  /** The forms of the initial state: each element is a variable of its own. */
  function StateForms<T>(R: Ring<T>, w: nat): (fs: seq<Form<T>>)
    ensures |fs| == w && Forms(fs, w)
    ensures forall i, j :: 0 <= i < w && 0 <= j < w ==> fs[i].coeffs[j] == if i == j then R.one else R.Zero()
    ensures forall i :: 0 <= i < w ==> fs[i].cst == R.Zero()
  {
    seq(w, i => Form(seq(w, j => if i == j then R.one else R.Zero()), R.Zero()))
  }

  // ---- evaluating forms ----

  function Evals<T>(R: Ring<T>, fs: seq<Form<T>>, vars: seq<T>): (s: seq<T>)
    requires Forms(fs, |vars|)
    ensures |s| == |fs| && forall i :: 0 <= i < |fs| ==> s[i] == Eval(R, fs[i], vars)
  {
    seq(|fs|, i requires 0 <= i < |fs| => Eval(R, fs[i], vars))
  }

  lemma {:induction false} DotZero<T(!new)>(R: Ring<T>, a: seq<T>, b: seq<T>, n: nat)
    requires IsRing(R) && n <= |a| && n <= |b|
    requires forall j :: 0 <= j < n ==> a[j] == R.Zero()
    ensures Dot(R, a, b, n) == R.Zero()
  {
    if n > 0 {
      DotZero(R, a, b, n - 1);
      MulZero(R, b[n - 1]);
      MulComm(R, R.Zero(), b[n - 1]);
      PlusZero(R.additive, R.Zero());
    }
  }

  lemma {:induction false} DotPrefix<T>(R: Ring<T>, a: seq<T>, b: seq<T>, c: seq<T>, d: seq<T>, n: nat)
    requires n <= |a| && n <= |b| && a <= c && b <= d
    ensures Dot(R, c, d, n) == Dot(R, a, b, n)
  {
    if n > 0 { DotPrefix(R, a, b, c, d, n - 1); }
  }

  lemma {:induction false} DotAddScaled<T(!new)>(R: Ring<T>, f: Form<T>, c: T, g: Form<T>, v: seq<T>, n: nat)
    requires IsRing(R) && n <= |v| == |f.coeffs| == |g.coeffs|
    ensures Dot(R, AddScaled(R, f, c, g).coeffs, v, n)
            == R.Plus(Dot(R, f.coeffs, v, n), R.Mul(c, Dot(R, g.coeffs, v, n)))
  {
    if n == 0 {
      MulZero(R, c);
      PlusZero(R.additive, R.Zero());
    } else {
      DotAddScaled(R, f, c, g, v, n - 1);
      var p, q, x := f.coeffs[n - 1], g.coeffs[n - 1], v[n - 1];
      // (p + c q) x = p x + c (q x)
      Distrib(R, x, p, R.Mul(c, q));
      MulComm(R, x, p);
      MulComm(R, x, R.Mul(c, q));
      MulComm(R, x, R.Plus(p, R.Mul(c, q)));
      MulAssoc(R, c, q, x);
      var a, b := Dot(R, f.coeffs, v, n - 1), Dot(R, g.coeffs, v, n - 1);
      Distrib(R, c, b, R.Mul(q, x));
      PlusSwap4(R.additive, a, R.Mul(c, b), R.Mul(p, x), R.Mul(c, R.Mul(q, x)));
    }
  }

  lemma {:induction false} EvalAddScaled<T(!new)>(R: Ring<T>, f: Form<T>, c: T, g: Form<T>, v: seq<T>)
    requires IsRing(R) && |v| == |f.coeffs| == |g.coeffs|
    ensures Eval(R, AddScaled(R, f, c, g), v) == R.Plus(Eval(R, f, v), R.Mul(c, Eval(R, g, v)))
  {
    var n := |v|;
    DotAddScaled(R, f, c, g, v, n);
    var a, b := Dot(R, f.coeffs, v, n), Dot(R, g.coeffs, v, n);
    PlusSwap4(R.additive, a, R.Mul(c, b), f.cst, R.Mul(c, g.cst));
    Distrib(R, c, b, g.cst);
  }

  lemma {:induction false} PlusRotate<T(!new)>(A: Group<T>, a: T, c: T, x: T)
    requires IsGroup(A)
    ensures A.Plus(A.Plus(a, c), x) == A.Plus(A.Plus(a, x), c)
  {
    PlusAssoc(A, a, c, x);
    PlusAssoc(A, a, x, c);
    PlusComm(A, c, x);
  }

  lemma {:induction false} EvalCombine<T(!new)>(
      R: Ring<T>, row: seq<T>, fs: seq<Form<T>>, m: nat, v: seq<T>, n: nat, c: T, es: seq<T>)
    requires IsRing(R) && m <= |row| && m <= |fs| && n == |v| && Forms(fs, n) && es == Evals(R, fs, v)
    ensures Eval(R, Combine(R, row, fs, m, n, c), v) == R.Plus(Dot(R, row, es, m), c)
  {
    if m == 0 {
      DotZero(R, ZeroForm(R, n, c).coeffs, v, n);
    } else {
      var k := m - 1;
      EvalCombine(R, row, fs, k, v, n, c, es);
      EvalAddScaled(R, Combine(R, row, fs, k, n, c), row[k], fs[k], v);
      PlusRotate(R.additive, Dot(R, row, es, k), c, R.Mul(row[k], es[k]));
    }
  }

  /** Forms go through the matrix and the constants as their values do. */
  lemma {:induction false} EvalAffine<T(!new)>(
      R: Ring<T>, M: seq<seq<T>>, fs: seq<Form<T>>, k: seq<T>, v: seq<T>)
    requires IsRing(R) && Square(M, |fs|) && |k| == |fs| && Forms(fs, |v|)
    ensures Evals(R, AffineForms(R, M, fs, k, |v|), v) == Affine(R, M, Evals(R, fs, v), k)
  {
    forall i | 0 <= i < |fs|
      ensures Evals(R, AffineForms(R, M, fs, k, |v|), v)[i] == Affine(R, M, Evals(R, fs, v), k)[i]
    {
      EvalCombine(R, M[i], fs, |fs|, v, |v|, k[i], Evals(R, fs, v));
    }
  }

  lemma {:induction false} EvalNewVariable<T(!new)>(R: Ring<T>, v: seq<T>, t: T)
    requires IsRing(R)
    ensures Eval(R, NewVariable(R, |v|), v + [t]) == t
  {
    var zeros, n := ZeroForm(R, |v|, R.Zero()).coeffs, |v|;
    DotPrefix(R, zeros, v, zeros + [R.one], v + [t], n);
    DotZero(R, zeros, v, n);
    OneMul(R, t);
    MulComm(R, R.one, t);
    PlusComm(R.additive, R.Zero(), t);
    PlusZero(R.additive, t);
  }

  lemma {:induction false} EvalPadded<T(!new)>(R: Ring<T>, f: Form<T>, v: seq<T>, t: T)
    requires IsRing(R) && |f.coeffs| == |v|
    ensures Eval(R, Form(f.coeffs + [R.Zero()], f.cst), v + [t]) == Eval(R, f, v)
  {
    DotPrefix(R, f.coeffs, v, f.coeffs + [R.Zero()], v + [t], |v|);
    MulZero(R, t);
    MulComm(R, R.Zero(), t);
    PlusZero(R.additive, Dot(R, f.coeffs, v, |v|));
  }

  lemma {:induction false} EvalExtended<T(!new)>(R: Ring<T>, fs: seq<Form<T>>, v: seq<T>, t: T)
    requires IsRing(R) && fs != [] && Forms(fs, |v|)
    ensures Evals(R, Extended(R, fs, |v|), v + [t]) == Evals(R, fs, v)[|fs| - 1 := t]
  {
    var gs := Extended(R, fs, |v|);
    forall i | 0 <= i < |fs|
      ensures Evals(R, gs, v + [t])[i] == Evals(R, fs, v)[|fs| - 1 := t][i]
    {
      if i == |fs| - 1 { EvalNewVariable(R, v, t); } else { EvalPadded(R, fs[i], v, t); }
    }
  }

  lemma {:induction false} DotUnit<T(!new)>(R: Ring<T>, row: seq<T>, s: seq<T>, i: nat, n: nat)
    requires IsRing(R) && n <= |row| && n <= |s| && i < |s|
    requires forall j :: 0 <= j < |row| ==> row[j] == if i == j then R.one else R.Zero()
    ensures Dot(R, row, s, n) == if i < n then s[i] else R.Zero()
  {
    if n > 0 {
      DotUnit(R, row, s, i, n - 1);
      var x := s[n - 1];
      OneMul(R, x);
      MulComm(R, R.one, x);
      MulZero(R, x);
      MulComm(R, R.Zero(), x);
      PlusZero(R.additive, s[i]);
      PlusZero(R.additive, R.Zero());
      PlusComm(R.additive, R.Zero(), x);
      PlusZero(R.additive, x);
    }
  }

  lemma {:induction false} EvalState<T(!new)>(R: Ring<T>, s: seq<T>)
    requires IsRing(R)
    ensures Evals(R, StateForms(R, |s|), s) == s
  {
    var fs := StateForms(R, |s|);
    forall i | 0 <= i < |s|
      ensures Evals(R, fs, s)[i] == s[i]
    {
      DotUnit(R, fs[i].coeffs, s, i, |s|);
      PlusZero(R.additive, s[i]);
    }
  }

  // ---- the batched round ----

  /** A row of constants from an offset: its coefficients applied to the variables, plus its constant. */
  function RowValue<T>(R: Ring<T>, ark: seq<T>, off: nat, vars: seq<T>): T
    requires off + |vars| < |ark|
  {
    R.Plus(Dot(R, ark[off..], vars, |vars|), ark[off + |vars|])
  }

  /** The number of constants a batch reads, with n variables so far and `extra` still to come. */
  function BlockSize(n: nat, extra: nat, w: nat): nat
    decreases extra
  {
    if extra == 0 then w * (n + 1) else n + 1 + BlockSize(n + 1, extra - 1, w)
  }

  function FinalRows<T>(R: Ring<T>, ark: seq<T>, off: nat, vars: seq<T>, w: nat): (s: seq<T>)
    requires off + w * (|vars| + 1) <= |ark|
    ensures |s| == w
    decreases w
  {
    if w == 0 then [] else
    assert w * (|vars| + 1) == (|vars| + 1) + (w - 1) * (|vars| + 1);
    [RowValue(R, ark, off, vars)] + FinalRows(R, ark, off + |vars| + 1, vars, w - 1)
  }

  /** What the batched round computes from its constants. */
  function BatchRun<T>(R: Ring<T>, w: nat, ark: seq<T>, off: nat, vars: seq<T>, extra: nat): (s: seq<T>)
    requires off + BlockSize(|vars|, extra, w) <= |ark|
    ensures |s| == w
    decreases extra
  {
    if extra == 0 then FinalRows(R, ark, off, vars, w)
    else
      var t := RowValue(R, ark, off, vars);
      BatchRun(R, w, ark, off + |vars| + 1, vars + [Quint(R, t)], extra - 1)
  }

  /** Partial rounds that start after the S-box: matrix and constants, then the S-box of the next round. */
  function AfterQuint<T>(R: Ring<T>, M: seq<seq<T>>, s: seq<T>, ks: seq<seq<T>>): (t: seq<T>)
    requires s != [] && Square(M, |s|) && Keys(ks, |s|) && ks != []
    ensures |t| == |s|
    decreases |ks|
  {
    var next := Affine(R, M, s, ks[0]);
    if |ks| == 1 then next else AfterQuint(R, M, QuintLast(R, next), ks[1..])
  }

  lemma {:induction false} RoundsAfterQuint<T>(R: Ring<T>, M: seq<seq<T>>, s: seq<T>, ks: seq<seq<T>>)
    requires s != [] && Square(M, |s|) && Keys(ks, |s|) && ks != []
    ensures PartialRounds(R, M, s, ks) == AfterQuint(R, M, QuintLast(R, s), ks)
    decreases |ks|
  {
    var next := Affine(R, M, QuintLast(R, s), ks[0]);
    if |ks| > 1 {
      RoundsAfterQuint(R, M, next, ks[1..]);
    } else {
      assert PartialRounds(R, M, next, ks[1..]) == next;
    }
  }

  /** The constants from an offset begin with the given block. */
  ghost predicate Holds<T>(ark: seq<T>, off: nat, block: seq<T>) {
    off + |block| <= |ark| && forall j :: 0 <= j < |block| ==> ark[off..][j] == block[j]
  }

  lemma {:induction false} HoldsSplit<T>(ark: seq<T>, off: nat, a: seq<T>, b: seq<T>, next: nat)
    requires Holds(ark, off, a + b) && next == off + |a|
    ensures Holds(ark, off, a) && Holds(ark, next, b)
  {
    forall j | 0 <= j < |a| ensures ark[off..][j] == a[j] { assert (a + b)[j] == a[j]; }
    forall j | 0 <= j < |b| ensures ark[next..][j] == b[j] {
      var i := |a| + j;
      assert (a + b)[i] == b[j];
      assert ark[next..][j] == ark[off..][i];
    }
  }

  lemma {:induction false} RowIsEval<T(!new)>(R: Ring<T>, ark: seq<T>, off: nat, f: Form<T>, v: seq<T>)
    requires |f.coeffs| == |v| && Holds(ark, off, Layout(f))
    ensures off + |v| < |ark| && RowValue(R, ark, off, v) == Eval(R, f, v)
  {
    var tail := ark[off..];
    assert f.coeffs <= tail by {
      forall j | 0 <= j < |f.coeffs| ensures f.coeffs[j] == tail[j] { assert Layout(f)[j] == f.coeffs[j]; }
    }
    DotPrefix(R, f.coeffs, v, tail, v, |v|);
    assert Layout(f)[|v|] == f.cst && tail[|v|] == ark[off + |v|];
  }

  lemma {:induction false} LayoutsSize<T>(fs: seq<Form<T>>, n: nat)
    requires Forms(fs, n)
    ensures |Layouts(fs)| == |fs| * (n + 1)
  {
    if fs != [] {
      LayoutsSize(fs[1..], n);
      assert |fs| * (n + 1) == (n + 1) + (|fs| - 1) * (n + 1);
    }
  }

  lemma {:induction false} FinalRowsFirst<T>(
      R: Ring<T>, ark: seq<T>, off: nat, next: nat, v: seq<T>, w: nat, rest: nat)
    requires w == rest + 1 && next == off + |v| + 1 && next + rest * (|v| + 1) <= |ark|
    ensures off + w * (|v| + 1) <= |ark|
    ensures FinalRows(R, ark, off, v, w) == [RowValue(R, ark, off, v)] + FinalRows(R, ark, next, v, rest)
  {
    hide RowValue;
    assert w * (|v| + 1) == (|v| + 1) + rest * (|v| + 1);
  }

  lemma {:induction false} RowsAreEvals<T(!new)>(
      R: Ring<T>, ark: seq<T>, off: nat, fs: seq<Form<T>>, v: seq<T>, w: nat)
    requires w == |fs| && Forms(fs, |v|) && Holds(ark, off, Layouts(fs))
    ensures off + w * (|v| + 1) <= |ark| && FinalRows(R, ark, off, v, w) == Evals(R, fs, v)
    decreases |fs|
  {
    LayoutsSize(fs, |v|);
    if fs != [] {
      hide Eval, FinalRows, RowValue;
      var next := off + |v| + 1;
      HoldsSplit(ark, off, Layout(fs[0]), Layouts(fs[1..]), next);
      RowIsEval(R, ark, off, fs[0], v);
      RowsAreEvals(R, ark, next, fs[1..], v, w - 1);
      FinalRowsFirst(R, ark, off, next, v, w, w - 1);
      assert Evals(R, fs, v) == [Eval(R, fs[0], v)] + Evals(R, fs[1..], v);
    }
  }

  lemma {:induction false} BatchSize<T>(R: Ring<T>, M: seq<seq<T>>, fs: seq<Form<T>>, ks: seq<seq<T>>, n: nat)
    requires fs != [] && Square(M, |fs|) && Forms(fs, n) && Keys(ks, |fs|) && ks != []
    ensures |BatchConstants(R, M, fs, ks, n)| == BlockSize(n, |ks| - 1, |fs|)
    decreases |ks|
  {
    var gs := AffineForms(R, M, fs, ks[0], n);
    if |ks| == 1 {
      LayoutsSize(gs, n);
    } else {
      BatchSize(R, M, Extended(R, gs, n), ks[1..], n + 1);
    }
  }

  lemma {:induction false} BatchStep<T>(
      R: Ring<T>, w: nat, ark: seq<T>, off: nat, next: nat, v: seq<T>, u: seq<T>, m: nat, extra: nat, rest: nat)
    requires m == |v| + 1 && next == off + m && extra == rest + 1 && next <= |ark|
    requires u == v + [Quint(R, RowValue(R, ark, off, v))] && |u| == m
    requires next + BlockSize(m, rest, w) <= |ark|
    ensures off + BlockSize(|v|, extra, w) <= |ark|
    ensures BatchRun(R, w, ark, off, v, extra) == BatchRun(R, w, ark, next, u, rest)
  {
  }

  lemma {:induction false} AfterQuintStep<T>(
      R: Ring<T>, M: seq<seq<T>>, s: seq<T>, ks: seq<seq<T>>, next: seq<T>)
    requires s != [] && Square(M, |s|) && Keys(ks, |s|) && |ks| > 1
    requires next == QuintLast(R, Affine(R, M, s, ks[0]))
    ensures Keys(ks[1..], |next|) && AfterQuint(R, M, s, ks) == AfterQuint(R, M, next, ks[1..])
  {
  }

  /** The types of arguments for the induction over the rounds of a batch. */
  ghost predicate Batchable<T>(M: seq<seq<T>>, fs: seq<Form<T>>, ks: seq<seq<T>>, n: nat, extra: nat) {
    fs != [] && Square(M, |fs|) && Forms(fs, n) && Keys(ks, |fs|) && |ks| == extra + 1
  }

  lemma {:induction false} BatchSplit<T>(
      R: Ring<T>, M: seq<seq<T>>, fs: seq<Form<T>>, ks: seq<seq<T>>, n: nat, m: nat, extra: nat, rest: nat,
      gs: seq<Form<T>>, hs: seq<Form<T>>, ark: seq<T>, off: nat, next: nat)
    requires Batchable(M, fs, ks, n, extra) && extra == rest + 1 && m == n + 1 && next == off + m
    requires gs == AffineForms(R, M, fs, ks[0], n) && hs == Extended(R, gs, n)
    requires Holds(ark, off, BatchConstants(R, M, fs, ks, n))
    ensures Batchable(M, hs, ks[1..], m, rest)
    ensures Holds(ark, off, Layout(gs[|gs| - 1])) && Holds(ark, next, BatchConstants(R, M, hs, ks[1..], m))
  {
    HoldsSplit(ark, off, Layout(gs[|gs| - 1]), BatchConstants(R, M, hs, ks[1..], m), next);
  }

  /** The step of the induction, from the remaining rounds of a batch to all of them. */
  lemma {:induction false} BatchNext<T(!new)>(
      R: Ring<T>, M: seq<seq<T>>, fs: seq<Form<T>>, ks: seq<seq<T>>, v: seq<T>, n: nat, m: nat, extra: nat, rest: nat,
      gs: seq<Form<T>>, hs: seq<Form<T>>, u: seq<T>, ark: seq<T>, off: nat, next: nat, w: nat)
    requires IsRing(R) && n == |v| && Batchable(M, fs, ks, n, extra) && extra == rest + 1
    requires m == n + 1 && next == off + m && w == |fs|
    requires gs == AffineForms(R, M, fs, ks[0], n) && hs == Extended(R, gs, n)
    requires Holds(ark, off, Layout(gs[w - 1]))
    requires u == v + [Quint(R, Eval(R, gs[w - 1], v))] && |u| == m
    requires next + BlockSize(m, rest, w) <= |ark| && Keys(ks[1..], w)
    requires BatchRun(R, w, ark, next, u, rest) == AfterQuint(R, M, Evals(R, hs, u), ks[1..])
    ensures off + BlockSize(n, extra, w) <= |ark|
    ensures BatchRun(R, w, ark, off, v, extra) == AfterQuint(R, M, Evals(R, fs, v), ks)
  {
    RowIsEval(R, ark, off, gs[w - 1], v);
    BatchStep(R, w, ark, off, next, v, u, m, extra, rest);
    EvalAffine(R, M, fs, ks[0], v);
    EvalExtended(R, gs, v, Quint(R, Eval(R, gs[w - 1], v)));
    AfterQuintStep(R, M, Evals(R, fs, v), ks, Evals(R, hs, u));
  }

  /** With its own constants the batched round gives the values that the plain rounds give. */
  lemma {:induction false} BatchIsRounds<T(!new)>(
      R: Ring<T>, M: seq<seq<T>>, fs: seq<Form<T>>, ks: seq<seq<T>>, v: seq<T>, n: nat, extra: nat,
      ark: seq<T>, off: nat, w: nat)
    requires IsRing(R) && n == |v| && Batchable(M, fs, ks, n, extra) && w == |fs|
    requires Holds(ark, off, BatchConstants(R, M, fs, ks, n))
    ensures off + BlockSize(n, extra, w) <= |ark|
    ensures BatchRun(R, w, ark, off, v, extra) == AfterQuint(R, M, Evals(R, fs, v), ks)
    decreases extra
  {
    hide Quint, Eval, Layout, Affine;
    var gs := AffineForms(R, M, fs, ks[0], n);
    if extra == 0 {
      EvalAffine(R, M, fs, ks[0], v);
      RowsAreEvals(R, ark, off, gs, v, w);
    } else {
      var m, rest, hs := n + 1, extra - 1, Extended(R, gs, n);
      var next := off + m;
      BatchSplit(R, M, fs, ks, n, m, extra, rest, gs, hs, ark, off, next);
      var u := v + [Quint(R, Eval(R, gs[w - 1], v))];
      BatchIsRounds(R, M, hs, ks[1..], u, m, rest, ark, next, w);
      BatchNext(R, M, fs, ks, v, n, m, extra, rest, gs, hs, u, ark, off, next, w);
    }
  }

  /** One batch equals its plain partial rounds, for every state, matrix and round constants. */
  lemma {:induction false} BatchedPartialRound<T(!new)>(
      R: Ring<T>, M: seq<seq<T>>, s: seq<T>, ks: seq<seq<T>>, ark: seq<T>, off: nat)
    requires IsRing(R) && s != [] && Square(M, |s|) && Keys(ks, |s|) && ks != []
    requires Holds(ark, off, BatchConstants(R, M, StateForms(R, |s|), ks, |s|))
    ensures off + BlockSize(|s|, |ks| - 1, |s|) <= |ark|
    ensures BatchRun(R, |s|, ark, off, QuintLast(R, s), |ks| - 1) == PartialRounds(R, M, s, ks)
  {
    var q := QuintLast(R, s);
    EvalState(R, q);
    BatchIsRounds(R, M, StateForms(R, |s|), ks, q, |s|, |ks| - 1, ark, off, |s|);
    RoundsAfterQuint(R, M, s, ks);
  }

  // ---- the whole permutation ----

  function QuintAll<T>(R: Ring<T>, s: seq<T>): (t: seq<T>)
    ensures |t| == |s| && forall i :: 0 <= i < |s| ==> t[i] == Quint(R, s[i])
  {
    seq(|s|, i requires 0 <= i < |s| => Quint(R, s[i]))
  }

  function SBox<T>(R: Ring<T>, full: bool, s: seq<T>): (t: seq<T>)
    requires s != []
    ensures |t| == |s|
  {
    if full then QuintAll(R, s) else QuintLast(R, s)
  }

  /** Rounds with the given constants. */
  function Rounds<T>(R: Ring<T>, M: seq<seq<T>>, full: bool, s: seq<T>, ks: seq<seq<T>>): (t: seq<T>)
    requires s != [] && Square(M, |s|) && Keys(ks, |s|)
    ensures |t| == |s|
    decreases |ks|
  {
    if ks == [] then s else Rounds(R, M, full, Affine(R, M, SBox(R, full, s), ks[0]), ks[1..])
  }

  lemma {:induction false} RoundsArePartial<T>(R: Ring<T>, M: seq<seq<T>>, s: seq<T>, ks: seq<seq<T>>)
    requires s != [] && Square(M, |s|) && Keys(ks, |s|)
    ensures Rounds(R, M, false, s, ks) == PartialRounds(R, M, s, ks)
    decreases |ks|
  {
    if ks != [] { RoundsArePartial(R, M, Affine(R, M, QuintLast(R, s), ks[0]), ks[1..]); }
  }

  lemma {:induction false} RoundsAppend<T>(
      R: Ring<T>, M: seq<seq<T>>, full: bool, s: seq<T>, a: seq<seq<T>>, b: seq<seq<T>>)
    requires s != [] && Square(M, |s|) && Keys(a, |s|) && Keys(b, |s|)
    ensures Keys(a + b, |s|)
    ensures Rounds(R, M, full, s, a + b) == Rounds(R, M, full, Rounds(R, M, full, s, a), b)
    decreases |a|
  {
    if a == [] {
      assert a + b == b;
    } else {
      assert (a + b)[1..] == a[1..] + b && (a + b)[0] == a[0];
      RoundsAppend(R, M, full, Affine(R, M, SBox(R, full, s), a[0]), a[1..], b);
    }
  }

  function AddKey<T>(R: Ring<T>, s: seq<T>, ark: seq<T>, off: nat): (t: seq<T>)
    requires off + |s| <= |ark|
    ensures |t| == |s| && forall i :: 0 <= i < |s| ==> t[i] == R.Plus(s[i], ark[off..][i])
  {
    seq(|s|, i requires 0 <= i < |s| => R.Plus(s[i], ark[off..][i]))
  }

  /** n times k, step by step. */
  function Times(n: nat, k: nat): nat {
    if n == 0 then 0 else k + Times(n - 1, k)
  }

  /** Rounds that read their constants from an offset on. */
  function RoundsAt<T>(R: Ring<T>, M: seq<seq<T>>, full: bool, s: seq<T>, ark: seq<T>, off: nat, r: nat): (t: seq<T>)
    requires s != [] && Square(M, |s|) && off + Times(r, |s|) <= |ark|
    ensures |t| == |s|
    decreases r
  {
    if r == 0 then s
    else RoundsAt(R, M, full, Affine(R, M, SBox(R, full, s), ark[off..off + |s|]), ark, off + |s|, r - 1)
  }

  /** Batches that read their constants from an offset on. */
  function BatchesAt<T>(R: Ring<T>, s: seq<T>, ark: seq<T>, off: nat, extra: nat, size: nat, nb: nat): (t: seq<T>)
    requires s != [] && size == BlockSize(|s|, extra, |s|) && off + Times(nb, size) <= |ark|
    ensures |t| == |s|
    decreases nb
  {
    if nb == 0 then s
    else BatchesAt(R, BatchRun(R, |s|, ark, off, QuintLast(R, s), extra), ark, off + size, extra, size, nb - 1)
  }

  function Flat<T>(ks: seq<seq<T>>): seq<T> {
    if ks == [] then [] else ks[0] + Flat(ks[1..])
  }

  lemma {:induction false} RoundsFromFlat<T>(
      R: Ring<T>, M: seq<seq<T>>, full: bool, s: seq<T>, ks: seq<seq<T>>, ark: seq<T>, off: nat, r: nat)
    requires s != [] && Square(M, |s|) && Keys(ks, |s|) && r == |ks| && Holds(ark, off, Flat(ks))
    ensures off + Times(r, |s|) <= |ark|
    ensures RoundsAt(R, M, full, s, ark, off, r) == Rounds(R, M, full, s, ks)
    decreases r
  {
    hide Affine, SBox;
    if r > 0 {
      var next := off + |s|;
      HoldsSplit(ark, off, ks[0], Flat(ks[1..]), next);
      assert ark[off..next] == ks[0] by {
        forall j | 0 <= j < |s| ensures ark[off..next][j] == ks[0][j] { assert ark[off..][j] == ark[off..next][j]; }
      }
      RoundsFromFlat(R, M, full, Affine(R, M, SBox(R, full, s), ks[0]), ks[1..], ark, next, r - 1);
    }
  }

  /** The constants of consecutive batches of b rounds. */
  function BatchesFlat<T>(R: Ring<T>, M: seq<seq<T>>, w: nat, b: nat, ks: seq<seq<T>>, nb: nat): seq<T>
    requires w > 0 && Square(M, w) && Keys(ks, w) && b > 0 && |ks| == Times(nb, b)
    decreases nb
  {
    if nb == 0 then []
    else BatchConstants(R, M, StateForms(R, w), ks[..b], w) + BatchesFlat(R, M, w, b, ks[b..], nb - 1)
  }

  /** One batch at the front of the constants; the others follow. */
  lemma {:induction false} FirstBatch<T(!new)>(
      R: Ring<T>, M: seq<seq<T>>, s: seq<T>, w: nat, b: nat, extra: nat, size: nat, now: seq<seq<T>>,
      others: seq<T>, ark: seq<T>, off: nat, next: nat)
    requires IsRing(R) && s != [] && w == |s| && Square(M, w) && Keys(now, w) && |now| == b == extra + 1
    requires size == BlockSize(w, extra, w) && next == off + size
    requires Holds(ark, off, BatchConstants(R, M, StateForms(R, w), now, w) + others)
    ensures next <= |ark| && Holds(ark, next, others)
    ensures BatchRun(R, w, ark, off, QuintLast(R, s), extra) == Rounds(R, M, false, s, now)
  {
    BatchSize(R, M, StateForms(R, w), now, w);
    HoldsSplit(ark, off, BatchConstants(R, M, StateForms(R, w), now, w), others, next);
    BatchedPartialRound(R, M, s, now, ark, off);
    RoundsArePartial(R, M, s, now);
  }

  lemma {:induction false} BatchesFromFlat<T(!new)>(
      R: Ring<T>, M: seq<seq<T>>, s: seq<T>, w: nat, b: nat, extra: nat, size: nat, ks: seq<seq<T>>, nb: nat,
      ark: seq<T>, off: nat)
    requires IsRing(R) && s != [] && w == |s| && Square(M, w) && Keys(ks, w) && b == extra + 1 && |ks| == Times(nb, b)
    requires size == BlockSize(w, extra, w) && Holds(ark, off, BatchesFlat(R, M, w, b, ks, nb))
    ensures off + Times(nb, size) <= |ark|
    ensures BatchesAt(R, s, ark, off, extra, size, nb) == Rounds(R, M, false, s, ks)
    decreases nb
  {
    hide BlockSize, BatchRun, QuintLast, BatchConstants, StateForms;
    if nb > 0 {
      var next, now, later, rest := off + size, ks[..b], ks[b..], nb - 1;
      FirstBatch(R, M, s, w, b, extra, size, now, BatchesFlat(R, M, w, b, later, rest), ark, off, next);
      BatchesFromFlat(R, M, Rounds(R, M, false, s, now), w, b, extra, size, later, rest, ark, next);
      RoundsAppend(R, M, false, s, now, later);
      assert now + later == ks;
    }
  }
}
