/** The Poseidon permutation as the C code runs it, on a state array and a list of constants read in order. */
module PoseidonCode {
  import opened Algebra
  import opened Poseidon

  method Sbox5<T>(R: Ring<T>, x: T) returns (y: T)
    ensures y == Quint(R, x)
  {
    var buffer := R.Mul(x, x);
    buffer := R.Mul(buffer, buffer);
    y := R.Mul(buffer, x);
  }

  method ApplySbox<T>(R: Ring<T>, state: array<T>, full: bool)
    requires state.Length > 0
    modifies state
    ensures state[..] == SBox(R, full, old(state[..]))
  {
    var begin := if full then 0 else state.Length - 1;
    for i := begin to state.Length
      invariant forall j | 0 <= j < state.Length ::
                  state[j] == if begin <= j < i then Quint(R, old(state[j])) else old(state[j])
    {
      var y := Sbox5(R, state[i]);
      state[i] := y;
    }
  }

  function MatVec<T>(R: Ring<T>, M: seq<seq<T>>, s: seq<T>): (t: seq<T>)
    requires Square(M, |s|)
    ensures |t| == |s| && forall i :: 0 <= i < |s| ==> t[i] == Dot(R, M[i], s, |s|)
  {
    seq(|s|, i requires 0 <= i < |s| => Dot(R, M[i], s, |s|))
  }

  /** The first product starts the sum; the others are added to it. */
  method DotRow<T(!new)>(R: Ring<T>, row: seq<T>, s: seq<T>, n: nat) returns (acc: T)
    requires IsRing(R) && 0 < n <= |row| && n <= |s|
    ensures acc == Dot(R, row, s, n)
  {
    acc := R.Mul(row[0], s[0]);
    PlusZero(R.additive, acc);
    PlusComm(R.additive, acc, R.Zero());
    assert Dot(R, row, s, 0) == R.Zero();
    for j := 1 to n
      invariant acc == Dot(R, row, s, j)
    {
      var buffer := R.Mul(row[j], s[j]);
      acc := R.Plus(acc, buffer);
    }
  }

  method ApplyMatrix<T(!new)>(R: Ring<T>, M: seq<seq<T>>, state: array<T>)
    requires IsRing(R) && state.Length > 0 && Square(M, state.Length)
    modifies state
    ensures state[..] == MatVec(R, M, old(state[..]))
  {
    var s, w := state[..], state.Length;
    var res: seq<T> := [];
    for i := 0 to w
      invariant |res| == i && forall j :: 0 <= j < i ==> res[j] == Dot(R, M[j], s, w)
    {
      var x := DotRow(R, M[i], s, w);
      res := res + [x];
    }
    for i := 0 to w
      invariant forall j | 0 <= j < i :: state[j] == res[j]
    {
      state[i] := res[i];
    }
  }

  method ApplyCst<T>(R: Ring<T>, state: array<T>, ark: seq<T>, off: nat) returns (next: nat)
    requires off + state.Length <= |ark|
    modifies state
    ensures state[..] == AddKey(R, old(state[..]), ark, off) && next == off + state.Length
  {
    next := off;
    for i := 0 to state.Length
      invariant next == off + i
      invariant forall j | 0 <= j < state.Length ::
                  state[j] == if j < i then R.Plus(old(state[j]), ark[off..][j]) else old(state[j])
    {
      assert ark[next] == ark[off..][i];
      state[i] := R.Plus(state[i], ark[next]);
      next := next + 1;
    }
  }

  lemma {:induction false} KeyOfMatrix<T>(R: Ring<T>, M: seq<seq<T>>, s: seq<T>, ark: seq<T>, off: nat, next: nat)
    requires Square(M, |s|) && next == off + |s| <= |ark|
    ensures AddKey(R, MatVec(R, M, s), ark, off) == Affine(R, M, s, ark[off..next])
  {
    forall i | 0 <= i < |s| ensures ark[off..][i] == ark[off..next][i] {}
  }

  /** One plain round: S-box, matrix, constants. */
  method ApplyRound<T(!new)>(R: Ring<T>, M: seq<seq<T>>, state: array<T>, full: bool, ark: seq<T>, off: nat)
    returns (next: nat)
    requires IsRing(R) && state.Length > 0 && Square(M, state.Length) && off + state.Length <= |ark|
    modifies state
    ensures next == off + state.Length
    ensures state[..] == Affine(R, M, SBox(R, full, old(state[..])), ark[off..next])
  {
    ApplySbox(R, state, full);
    ghost var s := state[..];
    ApplyMatrix(R, M, state);
    next := ApplyCst(R, state, ark, off);
    KeyOfMatrix(R, M, s, ark, off, next);
  }

  lemma {:induction false} RoundsAtStep<T>(
      R: Ring<T>, M: seq<seq<T>>, full: bool, s: seq<T>, t: seq<T>, ark: seq<T>, off: nat, next: nat, r: nat, rest: nat)
    requires s != [] && Square(M, |s|) && off + Times(r, |s|) <= |ark|
    requires r == rest + 1 && next == off + |s| && next <= |ark|
    requires t == Affine(R, M, SBox(R, full, s), ark[off..next])
    ensures next + Times(rest, |s|) == off + Times(r, |s|)
    ensures RoundsAt(R, M, full, s, ark, off, r) == RoundsAt(R, M, full, t, ark, next, rest)
  {
  }

  /** The rounds still to run give the result, and end where the constants of all rounds end. */
  ghost predicate Pending<T>(
      R: Ring<T>, M: seq<seq<T>>, full: bool, s: seq<T>, ark: seq<T>, off: nat, r: nat, w: nat, end: nat, out: seq<T>)
  {
    && s != [] && |s| == w && Square(M, w) && off + Times(r, w) == end <= |ark|
    && RoundsAt(R, M, full, s, ark, off, r) == out
  }

  lemma {:induction false} RoundFits(r: nat, rest: nat, k: nat)
    requires r == rest + 1
    ensures Times(r, k) == k + Times(rest, k)
  {
  }

  method ApplyRounds<T(!new)>(R: Ring<T>, M: seq<seq<T>>, state: array<T>, full: bool, ark: seq<T>, off: nat, r: nat)
    returns (next: nat)
    requires IsRing(R) && state.Length > 0 && Square(M, state.Length) && off + Times(r, state.Length) <= |ark|
    modifies state
    ensures next == off + Times(r, state.Length)
    ensures state[..] == RoundsAt(R, M, full, old(state[..]), ark, off, r)
  {
    ghost var w, s, end := state.Length, state[..], off + Times(r, state.Length);
    next := off;
    var left: nat := r;
    while left > 0
      invariant Pending(R, M, full, state[..], ark, next, left, w, end, RoundsAt(R, M, full, s, ark, off, r))
    {
      var rest: nat := left - 1;
      ghost var t, from := state[..], next;
      RoundFits(left, rest, w);
      next := ApplyRound(R, M, state, full, ark, next);
      RoundsAtStep(R, M, full, t, state[..], ark, from, next, left, rest);
      left := rest;
    }
  }

  /** A row of the batched round: coefficients in order, then the constant. */
  method RowOf<T(!new)>(R: Ring<T>, ark: seq<T>, off: nat, vars: seq<T>) returns (acc: T, next: nat)
    requires IsRing(R) && vars != [] && off + |vars| < |ark|
    ensures acc == RowValue(R, ark, off, vars) && next == off + |vars| + 1
  {
    next := off;
    ghost var tail := ark[off..];
    acc := R.Mul(ark[next], vars[0]);
    next := next + 1;
    PlusZero(R.additive, acc);
    PlusComm(R.additive, acc, R.Zero());
    assert Dot(R, tail, vars, 0) == R.Zero() && tail[0] == ark[off];
    for j := 1 to |vars|
      invariant next == off + j && acc == Dot(R, tail, vars, j)
    {
      assert ark[next] == tail[j];
      var buffer := R.Mul(ark[next], vars[j]);
      next := next + 1;
      acc := R.Plus(acc, buffer);
    }
    acc := R.Plus(acc, ark[next]);
    next := next + 1;
  }

  /** The same row with the factors and summands the other way round. */
  method FinalRowOf<T(!new)>(R: Ring<T>, ark: seq<T>, off: nat, vars: seq<T>) returns (acc: T, next: nat)
    requires IsRing(R) && vars != [] && off + |vars| < |ark|
    ensures acc == RowValue(R, ark, off, vars) && next == off + |vars| + 1
  {
    next := off;
    ghost var tail := ark[off..];
    acc := R.Mul(ark[next], vars[0]);
    next := next + 1;
    PlusZero(R.additive, acc);
    PlusComm(R.additive, acc, R.Zero());
    assert Dot(R, tail, vars, 0) == R.Zero() && tail[0] == ark[off];
    for j := 1 to |vars|
      invariant next == off + j && acc == Dot(R, tail, vars, j)
    {
      assert ark[next] == tail[j];
      MulComm(R, vars[j], ark[next]);
      var buffer := R.Mul(vars[j], ark[next]);
      next := next + 1;
      PlusComm(R.additive, buffer, acc);
      acc := R.Plus(buffer, acc);
    }
    acc := R.Plus(acc, ark[next]);
    next := next + 1;
  }

  ghost predicate PendingBatch<T>(
      R: Ring<T>, w: nat, ark: seq<T>, off: nat, vars: seq<T>, extra: nat, end: nat, out: seq<T>)
  {
    off + BlockSize(|vars|, extra, w) == end <= |ark| && BatchRun(R, w, ark, off, vars, extra) == out
  }

  lemma {:induction false} BatchFits(n: nat, m: nat, extra: nat, rest: nat, w: nat)
    requires extra == rest + 1 && m == n + 1
    ensures BlockSize(n, extra, w) == m + BlockSize(m, rest, w)
  {
  }

  /** The temporary variables: each is the fifth power of a row over all variables before it. */
  method TemporaryVariables<T(!new)>(R: Ring<T>, ark: seq<T>, off: nat, state: seq<T>, extra: nat, ghost w: nat)
    returns (vars: seq<T>, next: nat)
    requires IsRing(R) && state != [] && off + BlockSize(|state|, extra, w) <= |ark|
    ensures |vars| == |state| + extra && off <= next
    ensures next + BlockSize(|vars|, 0, w) == off + BlockSize(|state|, extra, w)
    ensures FinalRows(R, ark, next, vars, w) == BatchRun(R, w, ark, off, state, extra)
  {
    vars, next := state, off;
    ghost var out, end := BatchRun(R, w, ark, off, state, extra), off + BlockSize(|state|, extra, w);
    var left: nat := extra;
    while left > 0
      invariant off <= next && |vars| + left == |state| + extra
      invariant PendingBatch(R, w, ark, next, vars, left, end, out)
    {
      var rest: nat := left - 1;
      ghost var v, m, from := vars, |vars| + 1, next;
      BatchFits(|v|, m, left, rest, w);
      var t;
      t, next := RowOf(R, ark, next, vars);
      t := Sbox5(R, t);
      vars := vars + [t];
      BatchStep(R, w, ark, from, next, v, vars, m, left, rest);
      left := rest;
    }
  }

  lemma {:induction false} RowsFit(n: nat, w: nat)
    requires w > 0
    ensures w * (n + 1) == (n + 1) + (w - 1) * (n + 1) && (w - 1) * (n + 1) >= 0
  {
  }

  lemma {:induction false} FinalRowsStep<T>(
      R: Ring<T>, ark: seq<T>, off: nat, next: nat, vars: seq<T>, left: nat, rest: nat, done: seq<T>)
    requires left == rest + 1 && next == off + |vars| + 1 && off + left * (|vars| + 1) <= |ark|
    ensures off + |vars| < |ark| && next + rest * (|vars| + 1) == off + left * (|vars| + 1)
    ensures done + FinalRows(R, ark, off, vars, left)
            == (done + [RowValue(R, ark, off, vars)]) + FinalRows(R, ark, next, vars, rest)
  {
    RowsFit(|vars|, left);
  }

  method FinalState<T(!new)>(R: Ring<T>, ark: seq<T>, off: nat, vars: seq<T>, w: nat) returns (s: seq<T>, next: nat)
    requires IsRing(R) && vars != [] && off + w * (|vars| + 1) <= |ark|
    ensures s == FinalRows(R, ark, off, vars, w) && next == off + w * (|vars| + 1)
  {
    s, next := [], off;
    var left: nat := w;
    while left > 0
      invariant |s| + left == w && next + left * (|vars| + 1) == off + w * (|vars| + 1)
      invariant s + FinalRows(R, ark, next, vars, left) == FinalRows(R, ark, off, vars, w)
    {
      ghost var from, was := next, s;
      FinalRowsStep(R, ark, from, from + |vars| + 1, vars, left, left - 1, was);
      var x;
      x, next := FinalRowOf(R, ark, next, vars);
      s := s + [x];
      left := left - 1;
    }
  }

  method ApplyBatchedPartialRound<T(!new)>(R: Ring<T>, state: array<T>, ark: seq<T>, off: nat, batch: nat)
    returns (next: nat)
    requires IsRing(R) && state.Length > 0 && batch > 0
    requires off + BlockSize(state.Length, batch - 1, state.Length) <= |ark|
    modifies state
    ensures next == off + BlockSize(state.Length, batch - 1, state.Length)
    ensures state[..] == BatchRun(R, state.Length, ark, off, QuintLast(R, old(state[..])), batch - 1)
  {
    var w := state.Length;
    var last := Sbox5(R, state[w - 1]);
    var start := state[..][w - 1 := last];
    var vars;
    vars, next := TemporaryVariables(R, ark, off, start, batch - 1, w);
    var s;
    s, next := FinalState(R, ark, next, vars, w);
    for i := 0 to w
      invariant forall j | 0 <= j < i :: state[j] == s[j]
    {
      state[i] := s[i];
    }
  }

  lemma {:induction false} BatchesAtStep<T>(
      R: Ring<T>, s: seq<T>, t: seq<T>, ark: seq<T>, off: nat, next: nat, extra: nat, size: nat, nb: nat, rest: nat)
    requires s != [] && size == BlockSize(|s|, extra, |s|) && off + Times(nb, size) <= |ark|
    requires nb == rest + 1 && next == off + size && t == BatchRun(R, |s|, ark, off, QuintLast(R, s), extra)
    ensures next + Times(rest, size) == off + Times(nb, size)
    ensures BatchesAt(R, s, ark, off, extra, size, nb) == BatchesAt(R, t, ark, next, extra, size, rest)
  {
  }

  ghost predicate PendingBatches<T>(
      R: Ring<T>, s: seq<T>, ark: seq<T>, off: nat, extra: nat, size: nat, nb: nat, w: nat, end: nat, out: seq<T>)
  {
    && s != [] && |s| == w && size == BlockSize(w, extra, w) && off + Times(nb, size) == end <= |ark|
    && BatchesAt(R, s, ark, off, extra, size, nb) == out
  }

  method ApplyBatches<T(!new)>(R: Ring<T>, state: array<T>, ark: seq<T>, off: nat, batch: nat, nb: nat, ghost size: nat)
    returns (next: nat)
    requires IsRing(R) && state.Length > 0 && batch > 0 && size == BlockSize(state.Length, batch - 1, state.Length)
    requires off + Times(nb, size) <= |ark|
    modifies state
    ensures next == off + Times(nb, size)
    ensures state[..] == BatchesAt(R, old(state[..]), ark, off, batch - 1, size, nb)
  {
    ghost var w, extra := state.Length, batch - 1;
    ghost var out, end := BatchesAt(R, state[..], ark, off, extra, size, nb), off + Times(nb, size);
    next := off;
    var left: nat := nb;
    while left > 0
      invariant PendingBatches(R, state[..], ark, next, extra, size, left, w, end, out)
    {
      var rest: nat := left - 1;
      ghost var s, from := state[..], next;
      RoundFits(left, rest, size);
      next := ApplyBatchedPartialRound(R, state, ark, next, batch);
      BatchesAtStep(R, s, state[..], ark, from, next, extra, size, left, rest);
      left := rest;
    }
  }

  // ---- the number of constants ----

  function NumberOfConstants(batch: nat, nbPartial: nat, nbFull: nat, w: nat): int
    requires batch > 0
  {
    var tmp := batch - 1;
    var tmpConstants := tmp + w * tmp + tmp * (tmp - 1) / 2;
    var finalConstants := (tmp + w) * w + w;
    nbFull * w + nbPartial / batch * (tmpConstants + finalConstants) + nbPartial % batch * w + w
  }

  lemma {:induction false} TimesIsProduct(n: nat, k: nat)
    ensures Times(n, k) == n * k
  {
    if n > 0 {
      TimesIsProduct(n - 1, k);
      assert n * k == k + (n - 1) * k;
    }
  }

  /** Gauss's sum, one term at a time. */
  lemma {:induction false} Triangle(e: nat)
    requires e > 0
    ensures e * (e - 1) / 2 == (e - 1) * (e - 2) / 2 + (e - 1)
  {
    assert e * (e - 1) == (e - 1) * (e - 2) + 2 * (e - 1);
  }

  lemma {:induction false} BlockSizeClosed(n: nat, e: nat, w: nat)
    ensures BlockSize(n, e, w) == e * (n + 1) + e * (e - 1) / 2 + w * (n + e + 1)
    decreases e
  {
    if e > 0 {
      BlockSizeClosed(n + 1, e - 1, w);
      Triangle(e);
      assert (e - 1) * (n + 2) == e * (n + 1) - (n + 1) + (e - 1);
      assert w * (n + 1 + (e - 1) + 1) == w * (n + e + 1);
    } else {
      assert e * (e - 1) / 2 == 0 && e * (n + 1) == 0;
    }
  }

  lemma {:induction false} BatchConstantCount(w: nat, e: nat)
    ensures BlockSize(w, e, w) == e + w * e + e * (e - 1) / 2 + ((e + w) * w + w)
  {
    BlockSizeClosed(w, e, w);
    assert e * (w + 1) == e + w * e;
    assert w * (w + e + 1) == (e + w) * w + w;
  }

  /**
   * The sections of the constants: width w, half the full rounds, batches of extra + 1 rounds with `size` constants,
   * and u rounds left over; o1, o2 and o3 are the offsets at which the later sections start.
   */
  datatype Plan = Plan(w: nat, half: nat, extra: nat, size: nat, nb: nat, u: nat, o1: nat, o2: nat, o3: nat, end: nat) {
    ghost predicate Valid() {
      && w > 0 && size == BlockSize(w, extra, w)
      && o1 == w + Times(half, w) && o2 == o1 + Times(nb, size)
      && o3 == o2 + Times(u, w) && end == o3 + Times(half, w)
    }
  }

  function PlanFor(batch: nat, nbPartial: nat, nbFull: nat, w: nat): (p: Plan)
    requires batch > 0 && w > 0
    ensures p.Valid()
  {
    var half, nb, u, size := nbFull / 2, nbPartial / batch, nbPartial % batch, BlockSize(w, batch - 1, w);
    var o1 := w + Times(half, w);
    var o2 := o1 + Times(nb, size);
    var o3 := o2 + Times(u, w);
    Plan(w, half, batch - 1, size, nb, u, o1, o2, o3, o3 + Times(half, w))
  }

  /** The rounds read exactly as many constants as the allocation computes. */
  lemma {:induction false} ConstantsAllRead(batch: nat, nbPartial: nat, nbFull: nat, w: nat)
    requires batch > 0 && w > 0 && nbFull % 2 == 0
    ensures PlanFor(batch, nbPartial, nbFull, w).end == NumberOfConstants(batch, nbPartial, nbFull, w)
  {
    var half, nb, u, size := nbFull / 2, nbPartial / batch, nbPartial % batch, BlockSize(w, batch - 1, w);
    AllocatedCount(batch, nbPartial, nbFull, w, size, nb, u);
    hide BlockSize, Times, NumberOfConstants;
    TimesIsProduct(half, w);
    TimesIsProduct(nb, size);
    TimesIsProduct(u, w);
    Doubled(nbFull, half, w);
  }

  lemma {:induction false} AllocatedCount(
      batch: nat, nbPartial: nat, nbFull: nat, w: nat, size: nat, nb: nat, u: nat)
    requires batch > 0 && size == BlockSize(w, batch - 1, w) && nb == nbPartial / batch && u == nbPartial % batch
    ensures NumberOfConstants(batch, nbPartial, nbFull, w) == nbFull * w + nb * size + u * w + w
  {
    hide BlockSize;
    BatchConstantCount(w, batch - 1);
  }

  lemma {:induction false} Doubled(n: nat, half: nat, w: nat)
    requires n == half + half
    ensures n * w == half * w + half * w
  {
  }

  // ---- the permutation ----

  /** The permutation with its constants read from a list. */
  function PermutationAt<T>(R: Ring<T>, M: seq<seq<T>>, s: seq<T>, ark: seq<T>, p: Plan): (t: seq<T>)
    requires p.Valid() && |s| == p.w && Square(M, p.w) && p.end <= |ark|
    ensures |t| == |s|
  {
    var s1 := RoundsAt(R, M, true, AddKey(R, s, ark, 0), ark, p.w, p.half);
    var s2 := BatchesAt(R, s1, ark, p.o1, p.extra, p.size, p.nb);
    var s3 := RoundsAt(R, M, false, s2, ark, p.o2, p.u);
    RoundsAt(R, M, true, s3, ark, p.o3, p.half)
  }

  /** The whole permutation; it ends at the end of the allocated constants. */
  method ApplyPermutation<T(!new)>(
      R: Ring<T>, M: seq<seq<T>>, state: array<T>, ark: seq<T>, batch: nat, nbFull: nat, nbPartial: nat, ghost p: Plan)
    returns (off: nat)
    requires IsRing(R) && state.Length > 0 && Square(M, state.Length) && batch > 0 && nbFull % 2 == 0
    requires p == PlanFor(batch, nbPartial, nbFull, state.Length) && p.w == state.Length
    requires NumberOfConstants(batch, nbPartial, nbFull, state.Length) <= |ark|
    modifies state
    ensures off == NumberOfConstants(batch, nbPartial, nbFull, state.Length) && off == p.end
    ensures state[..] == PermutationAt(R, M, old(state[..]), ark, p)
  {
    ConstantsAllRead(batch, nbPartial, nbFull, p.w);
    off := RunSections(R, M, state, ark, batch, nbFull / 2, nbPartial / batch, nbPartial % batch, p);
  }

  method RunSections<T(!new)>(
      R: Ring<T>, M: seq<seq<T>>, state: array<T>, ark: seq<T>, batch: nat, half: nat, nb: nat, u: nat, ghost p: Plan)
    returns (off: nat)
    requires IsRing(R) && p.Valid() && p.w == state.Length && Square(M, p.w) && batch == p.extra + 1
    requires half == p.half && nb == p.nb && u == p.u && p.end <= |ark|
    modifies state
    ensures off == p.end
    ensures state[..] == PermutationAt(R, M, old(state[..]), ark, p)
  {
    off := ApplyCst(R, state, ark, 0);
    assert off == p.w;
    off := ApplyRounds(R, M, state, true, ark, off, half);
    assert off == p.o1;
    off := ApplyBatches(R, state, ark, off, batch, nb, p.size);
    assert off == p.o2;
    off := ApplyRounds(R, M, state, false, ark, off, u);
    assert off == p.o3;
    off := ApplyRounds(R, M, state, true, ark, off, half);
  }

  // ---- against the plain permutation ----

  /** Poseidon with every round on its own. */
  function PlainPermutation<T>(
      R: Ring<T>, M: seq<seq<T>>, s: seq<T>, first: seq<T>, start: seq<seq<T>>, partial: seq<seq<T>>, end: seq<seq<T>>)
    : (t: seq<T>)
    requires s != [] && Square(M, |s|) && |first| == |s| && Keys(start, |s|) && Keys(partial, |s|) && Keys(end, |s|)
    ensures |t| == |s|
  {
    var s1 := Rounds(R, M, true, AddKey(R, s, first, 0), start);
    var s2 := PartialRounds(R, M, s1, partial);
    Rounds(R, M, true, s2, end)
  }

  lemma {:induction false} FlatSize<T>(ks: seq<seq<T>>, w: nat, r: nat)
    requires Keys(ks, w) && r == |ks|
    ensures |Flat(ks)| == Times(r, w)
    decreases r
  {
    if r > 0 { FlatSize(ks[1..], w, r - 1); }
  }

  lemma {:induction false} BatchesSize<T>(
      R: Ring<T>, M: seq<seq<T>>, w: nat, b: nat, extra: nat, size: nat, ks: seq<seq<T>>, nb: nat)
    requires w > 0 && Square(M, w) && Keys(ks, w) && b == extra + 1 && |ks| == Times(nb, b)
    requires size == BlockSize(w, extra, w)
    ensures |BatchesFlat(R, M, w, b, ks, nb)| == Times(nb, size)
    decreases nb
  {
    hide BlockSize, BatchConstants, StateForms;
    if nb > 0 {
      BatchSize(R, M, StateForms(R, w), ks[..b], w);
      BatchesSize(R, M, w, b, extra, size, ks[b..], nb - 1);
    }
  }

  lemma {:induction false} FirstKey<T>(R: Ring<T>, s: seq<T>, ark: seq<T>, first: seq<T>)
    requires |first| == |s| && Holds(ark, 0, first)
    ensures AddKey(R, s, ark, 0) == AddKey(R, s, first, 0)
  {
    forall i | 0 <= i < |s| ensures ark[0..][i] == first[0..][i] {}
  }

  /** Round constants for a plan: the first key, and those of the full, batched, left-over and final rounds. */
  datatype RoundKeys<!T> = RoundKeys(
    first: seq<T>, start: seq<seq<T>>, batched: seq<seq<T>>, unbatched: seq<seq<T>>, end: seq<seq<T>>)
  {
    ghost predicate For(p: Plan) {
      && |first| == p.w && Keys(start, p.w) && Keys(batched, p.w) && Keys(unbatched, p.w) && Keys(end, p.w)
      && |start| == |end| == p.half && |batched| == Times(p.nb, p.extra + 1) && |unbatched| == p.u
    }
  }

  /** The constants as they are laid out for the C code: the batched ones replace those of whole batches. */
  function Arrangement<T>(R: Ring<T>, M: seq<seq<T>>, p: Plan, k: RoundKeys<T>): seq<T>
    requires p.Valid() && Square(M, p.w) && k.For(p)
  {
    k.first
    + (Flat(k.start)
       + (BatchesFlat(R, M, p.w, p.extra + 1, k.batched, p.nb)
          + (Flat(k.unbatched) + Flat(k.end))))
  }

  /** The sections of the arranged constants, with their offsets. */
  lemma {:induction false} Sections<T>(R: Ring<T>, M: seq<seq<T>>, p: Plan, k: RoundKeys<T>, ark: seq<T>, b: nat)
    requires p.Valid() && Square(M, p.w) && k.For(p) && Holds(ark, 0, Arrangement(R, M, p, k)) && b == p.extra + 1
    ensures Holds(ark, 0, k.first) && Holds(ark, p.w, Flat(k.start))
    ensures Holds(ark, p.o1, BatchesFlat(R, M, p.w, b, k.batched, p.nb))
    ensures Holds(ark, p.o2, Flat(k.unbatched)) && Holds(ark, p.o3, Flat(k.end))
  {
    var u, v := Flat(k.unbatched), Flat(k.end);
    var batches := BatchesFlat(R, M, p.w, b, k.batched, p.nb);
    FlatSize(k.start, p.w, p.half);
    BatchesSize(R, M, p.w, b, p.extra, p.size, k.batched, p.nb);
    FlatSize(k.unbatched, p.w, p.u);
    HoldsSplit(ark, 0, k.first, Flat(k.start) + (batches + (u + v)), p.w);
    HoldsSplit(ark, p.w, Flat(k.start), batches + (u + v), p.o1);
    HoldsSplit(ark, p.o1, batches, u + v, p.o2);
    HoldsSplit(ark, p.o2, u, v, p.o3);
  }

  /** With the arranged constants, the batched permutation is the plain one. */
  lemma {:induction false} PermutationIsPlain<T(!new)>(
      R: Ring<T>, M: seq<seq<T>>, s: seq<T>, p: Plan, k: RoundKeys<T>, ark: seq<T>)
    requires IsRing(R) && p.Valid() && |s| == p.w && Square(M, p.w) && k.For(p)
    requires Holds(ark, 0, Arrangement(R, M, p, k)) && p.end <= |ark|
    ensures Keys(k.batched + k.unbatched, p.w)
    ensures PermutationAt(R, M, s, ark, p)
            == PlainPermutation(R, M, s, k.first, k.start, k.batched + k.unbatched, k.end)
  {
    var b := p.extra + 1;
    Sections(R, M, p, k, ark, b);
    FirstKey(R, s, ark, k.first);
    var s0 := AddKey(R, s, ark, 0);
    RoundsFromFlat(R, M, true, s0, k.start, ark, p.w, p.half);
    var s1 := Rounds(R, M, true, s0, k.start);
    BatchesFromFlat(R, M, s1, p.w, b, p.extra, p.size, k.batched, p.nb, ark, p.o1);
    var s2 := Rounds(R, M, false, s1, k.batched);
    RoundsFromFlat(R, M, false, s2, k.unbatched, ark, p.o2, p.u);
    var s3 := Rounds(R, M, false, s2, k.unbatched);
    RoundsAppend(R, M, false, s1, k.batched, k.unbatched);
    RoundsArePartial(R, M, s1, k.batched + k.unbatched);
    RoundsFromFlat(R, M, true, s3, k.end, ark, p.o3, p.half);
  }
}
