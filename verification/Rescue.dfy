/** Rescue: fifth powers and fifth roots, each followed by the matrix and round constants. */
module Rescue {
  import opened Algebra
  import opened Poseidon
  import opened PoseidonCode
  import opened AdditionChain
  import opened Anemoi

  // ---- inverse matrices ----

  /** Entry j of the combination of the first n rows. */
  function RowEntry<T>(R: Ring<T>, c: seq<T>, M: seq<seq<T>>, j: nat, n: nat): T
    requires n <= |c| && n <= |M| && forall i :: 0 <= i < n ==> j < |M[i]|
  {
    if n == 0 then R.Zero() else R.Plus(RowEntry(R, c, M, j, n - 1), R.Mul(c[n - 1], M[n - 1][j]))
  }

  function RowProduct<T>(R: Ring<T>, c: seq<T>, M: seq<seq<T>>, n: nat, w: nat): (r: seq<T>)
    requires n <= |c| && n <= w && Square(M, w)
    ensures |r| == w && forall j :: 0 <= j < w ==> r[j] == RowEntry(R, c, M, j, n)
  {
    seq(w, j requires 0 <= j < w => RowEntry(R, c, M, j, n))
  }

  lemma {:induction false} DotSum<T(!new)>(R: Ring<T>, a: seq<T>, c: T, b: seq<T>, e: seq<T>, s: seq<T>, n: nat)
    requires IsRing(R) && n <= |a| && n <= |b| && n <= |e| && n <= |s|
    requires forall j :: 0 <= j < n ==> e[j] == R.Plus(a[j], R.Mul(c, b[j]))
    ensures Dot(R, e, s, n) == R.Plus(Dot(R, a, s, n), R.Mul(c, Dot(R, b, s, n)))
  {
    if n == 0 {
      MulZero(R, c);
      PlusZero(R.additive, R.Zero());
    } else {
      var m := n - 1;
      DotSum(R, a, c, b, e, s, m);
      var p, q, x := a[m], b[m], s[m];
      Distrib(R, x, p, R.Mul(c, q));
      MulComm(R, x, p);
      MulComm(R, x, R.Mul(c, q));
      MulComm(R, x, R.Plus(p, R.Mul(c, q)));
      MulAssoc(R, c, q, x);
      Distrib(R, c, Dot(R, b, s, m), R.Mul(q, x));
      PlusSwap4(R.additive, Dot(R, a, s, m), R.Mul(c, Dot(R, b, s, m)), R.Mul(p, x), R.Mul(c, R.Mul(q, x)));
    }
  }

  lemma {:induction false} RowEntryNext<T>(R: Ring<T>, c: seq<T>, M: seq<seq<T>>, j: nat, m: nat, n: nat)
    requires n == m + 1 && n <= |c| && n <= |M| && forall i :: 0 <= i < n ==> j < |M[i]|
    ensures RowEntry(R, c, M, j, n) == R.Plus(RowEntry(R, c, M, j, m), R.Mul(c[m], M[m][j]))
  {
  }

  lemma {:induction false} RowProductNext<T(!new)>(
      R: Ring<T>, c: seq<T>, M: seq<seq<T>>, s: seq<T>, m: nat, n: nat, w: nat)
    requires IsRing(R) && w == |s| && Square(M, w) && n == m + 1 && n <= |c| && n <= w
    ensures Dot(R, RowProduct(R, c, M, n, w), s, w)
            == R.Plus(Dot(R, RowProduct(R, c, M, m, w), s, w), R.Mul(c[m], Dot(R, M[m], s, w)))
  {
    var before, after := RowProduct(R, c, M, m, w), RowProduct(R, c, M, n, w);
    forall j | 0 <= j < w ensures after[j] == R.Plus(before[j], R.Mul(c[m], M[m][j])) {
      RowEntryNext(R, c, M, j, m, n);
    }
    DotSum(R, before, c[m], M[m], after, s, w);
  }

  /** A row applied to a product of a matrix and a vector is the row times the matrix, applied to the vector. */
  lemma {:induction false} DotOfProduct<T(!new)>(R: Ring<T>, c: seq<T>, M: seq<seq<T>>, s: seq<T>, n: nat, w: nat)
    requires IsRing(R) && w == |s| && Square(M, w) && n <= |c| && n <= w
    ensures Dot(R, c, MatVec(R, M, s), n) == Dot(R, RowProduct(R, c, M, n, w), s, w)
  {
    if n == 0 {
      DotZero(R, RowProduct(R, c, M, 0, w), s, w);
    } else {
      DotOfProduct(R, c, M, s, n - 1, w);
      RowProductNext(R, c, M, s, n - 1, n, w);
    }
  }

  /** N times M is the identity. */
  ghost predicate LeftInverse<T>(R: Ring<T>, N: seq<seq<T>>, M: seq<seq<T>>, w: nat) {
    && Square(N, w) && Square(M, w)
    && forall i: nat, j: nat :: i < w && j < w ==> RowEntry(R, N[i], M, j, w) == if i == j then R.one else R.Zero()
  }

  lemma {:induction false} MatrixUndone<T(!new)>(R: Ring<T>, N: seq<seq<T>>, M: seq<seq<T>>, s: seq<T>, w: nat)
    requires IsRing(R) && w == |s| && LeftInverse(R, N, M, w)
    ensures MatVec(R, N, MatVec(R, M, s)) == s
  {
    forall i: nat | i < w ensures MatVec(R, N, MatVec(R, M, s))[i] == s[i] {
      DotOfProduct(R, N[i], M, s, w, w);
      DotUnit(R, RowProduct(R, N[i], M, w, w), s, i, w);
    }
  }

  // ---- the permutation ----

  function RootAll<T>(R: Ring<T>, s: seq<T>): (t: seq<T>)
    ensures |t| == |s| && forall i :: 0 <= i < |s| ==> t[i] == Root(R, s[i])
  {
    seq(|s|, i requires 0 <= i < |s| => Root(R, s[i]))
  }

  lemma {:induction false} PowersUndone<T(!new)>(R: Ring<T>, q: nat, s: seq<T>)
    requires IsRing(R) && Fermat(R, q) && 5 * ROOT == 2 * (q - 1) + 1
    ensures RootAll(R, QuintAll(R, s)) == s && QuintAll(R, RootAll(R, s)) == s
  {
    forall i | 0 <= i < |s|
      ensures RootAll(R, QuintAll(R, s))[i] == s[i] && QuintAll(R, RootAll(R, s))[i] == s[i]
    {
      RootInvertsQuint(R, q, s[i]);
    }
  }

  /** Powers or roots, then the matrix, then a key. */
  function Layer<T>(R: Ring<T>, M: seq<seq<T>>, root: bool, s: seq<T>, k: seq<T>): (t: seq<T>)
    requires Square(M, |s|) && |k| == |s|
    ensures |t| == |s|
  {
    AddAll(R, MatVec(R, M, if root then RootAll(R, s) else QuintAll(R, s)), k)
  }

  function Unlayer<T>(R: Ring<T>, N: seq<seq<T>>, root: bool, t: seq<T>, k: seq<T>): (s: seq<T>)
    requires Square(N, |t|) && |k| == |t|
    ensures |s| == |t|
  {
    var m := MatVec(R, N, SubAll(R, t, k));
    if root then QuintAll(R, m) else RootAll(R, m)
  }

  lemma {:induction false} LayerUndone<T(!new)>(
      R: Ring<T>, N: seq<seq<T>>, M: seq<seq<T>>, q: nat, root: bool, s: seq<T>, k: seq<T>)
    requires IsRing(R) && Fermat(R, q) && 5 * ROOT == 2 * (q - 1) + 1
    requires |k| == |s| && LeftInverse(R, N, M, |s|)
    ensures Unlayer(R, N, root, Layer(R, M, root, s, k), k) == s
  {
    var p := if root then RootAll(R, s) else QuintAll(R, s);
    AddInvertible(R, MatVec(R, M, p), k);
    MatrixUndone(R, N, M, p, |s|);
    PowersUndone(R, q, s);
  }

  lemma {:induction false} UnlayerUndone<T(!new)>(
      R: Ring<T>, N: seq<seq<T>>, M: seq<seq<T>>, q: nat, root: bool, t: seq<T>, k: seq<T>)
    requires IsRing(R) && Fermat(R, q) && 5 * ROOT == 2 * (q - 1) + 1
    requires |k| == |t| && LeftInverse(R, M, N, |t|)
    ensures Layer(R, M, root, Unlayer(R, N, root, t, k), k) == t
  {
    var m := MatVec(R, N, SubAll(R, t, k));
    PowersUndone(R, q, m);
    MatrixUndone(R, M, N, SubAll(R, t, k), |t|);
    AddInvertible(R, t, k);
  }

  /** Layers with powers and roots in turn, one key each. */
  function Layers<T>(R: Ring<T>, M: seq<seq<T>>, root: bool, s: seq<T>, keys: seq<seq<T>>): (t: seq<T>)
    requires Square(M, |s|) && Keys(keys, |s|)
    ensures |t| == |s|
    decreases |keys|
  {
    if keys == [] then s else Layers(R, M, !root, Layer(R, M, root, s, keys[0]), keys[1..])
  }

  function Unlayers<T>(R: Ring<T>, N: seq<seq<T>>, root: bool, t: seq<T>, keys: seq<seq<T>>): (s: seq<T>)
    requires Square(N, |t|) && Keys(keys, |t|)
    ensures |s| == |t|
    decreases |keys|
  {
    if keys == [] then t else Unlayer(R, N, root, Unlayers(R, N, !root, t, keys[1..]), keys[0])
  }

  /** The permutation can be undone, so no two states have the same image. */
  lemma {:induction false} LayersUndone<T(!new)>(
      R: Ring<T>, N: seq<seq<T>>, M: seq<seq<T>>, q: nat, root: bool, s: seq<T>, keys: seq<seq<T>>)
    requires IsRing(R) && Fermat(R, q) && 5 * ROOT == 2 * (q - 1) + 1
    requires Keys(keys, |s|) && LeftInverse(R, N, M, |s|)
    ensures Unlayers(R, N, root, Layers(R, M, root, s, keys), keys) == s
    decreases |keys|
  {
    hide Layer, Unlayer;
    if keys != [] {
      LayersUndone(R, N, M, q, !root, Layer(R, M, root, s, keys[0]), keys[1..]);
      LayerUndone(R, N, M, q, root, s, keys[0]);
    }
  }

  /** And every state is an image. */
  lemma {:induction false} UnlayersUndone<T(!new)>(
      R: Ring<T>, N: seq<seq<T>>, M: seq<seq<T>>, q: nat, root: bool, t: seq<T>, keys: seq<seq<T>>)
    requires IsRing(R) && Fermat(R, q) && 5 * ROOT == 2 * (q - 1) + 1
    requires Keys(keys, |t|) && LeftInverse(R, M, N, |t|)
    ensures Layers(R, M, root, Unlayers(R, N, root, t, keys), keys) == t
    decreases |keys|
  {
    hide Layer, Unlayer;
    if keys != [] {
      var u := Unlayers(R, N, !root, t, keys[1..]);
      UnlayersUndone(R, N, M, q, !root, t, keys[1..]);
      UnlayerUndone(R, N, M, q, root, u, keys[0]);
    }
  }

  // ---- the code ----

  method ApplyAlphaInv<T(!new)>(R: Ring<T>, state: array<T>)
    requires IsRing(R)
    modifies state
    ensures state[..] == RootAll(R, old(state[..]))
  {
    for i := 0 to state.Length
      invariant forall j | 0 <= j < state.Length ::
                  state[j] == if j < i then Root(R, old(state[j])) else old(state[j])
    {
      var y := FifthRoot(R, state[i]);
      state[i] := y;
    }
  }

  lemma {:induction false} KeyOfLayer<T>(
      R: Ring<T>, M: seq<seq<T>>, root: bool, s: seq<T>, p: seq<T>, ark: seq<T>, off: nat, next: nat)
    requires Square(M, |s|) && next == off + |s| <= |ark|
    requires p == if root then RootAll(R, s) else QuintAll(R, s)
    ensures AddKey(R, MatVec(R, M, p), ark, off) == Layer(R, M, root, s, ark[off..next])
  {
    var t := MatVec(R, M, p);
    forall i | 0 <= i < |s| ensures AddKey(R, t, ark, off)[i] == AddAll(R, t, ark[off..next])[i] {
      assert ark[off..][i] == ark[off..next][i];
    }
  }

  method ApplyLayer<T(!new)>(R: Ring<T>, M: seq<seq<T>>, state: array<T>, root: bool, ark: seq<T>, off: nat)
    returns (next: nat)
    requires IsRing(R) && state.Length > 0 && Square(M, state.Length) && off + state.Length <= |ark|
    modifies state
    ensures next == off + state.Length && state[..] == Layer(R, M, root, old(state[..]), ark[off..next])
  {
    if root {
      ApplyAlphaInv(R, state);
    } else {
      ApplySbox(R, state, true);
    }
    ghost var p := state[..];
    ApplyMatrix(R, M, state);
    next := ApplyCst(R, state, ark, off);
    KeyOfLayer(R, M, root, old(state[..]), p, ark, off, next);
  }

  /** The keys of w constants each, from an offset on. */
  function KeysOf<T>(ark: seq<T>, off: nat, w: nat, r: nat): (keys: seq<seq<T>>)
    requires off + Times(r, w) <= |ark|
    ensures |keys| == r && Keys(keys, w)
    decreases r
  {
    if r == 0 then [] else [ark[off..off + w]] + KeysOf(ark, off + w, w, r - 1)
  }

  lemma {:induction false} KeysOfNext<T>(ark: seq<T>, off: nat, next: nat, w: nat, r: nat, rest: nat)
    requires r == rest + 1 && next == off + w && off + Times(r, w) <= |ark|
    ensures next + Times(rest, w) == off + Times(r, w)
    ensures KeysOf(ark, off, w, r)[0] == ark[off..next] && KeysOf(ark, off, w, r)[1..] == KeysOf(ark, next, w, rest)
  {
  }

  /** A round has a layer of powers and a layer of roots, and reads two keys. */
  method ApplyPermutation<T(!new)>(R: Ring<T>, M: seq<seq<T>>, state: array<T>, ark: seq<T>, rounds: nat)
    returns (off: nat)
    requires IsRing(R) && state.Length > 0 && Square(M, state.Length)
    requires Times(rounds + rounds, state.Length) <= |ark|
    modifies state
    ensures off == Times(rounds + rounds, state.Length)
    ensures state[..] == Layers(R, M, false, old(state[..]), KeysOf(ark, 0, state.Length, rounds + rounds))
  {
    hide Layer;
    ghost var w, all: nat := state.Length, rounds + rounds;
    ghost var out := Layers(R, M, false, state[..], KeysOf(ark, 0, w, all));
    off := 0;
    for i := 0 to rounds
      invariant off + Times(all - i - i, w) == Times(all, w)
      invariant Layers(R, M, false, state[..], KeysOf(ark, off, w, all - i - i)) == out
    {
      ghost var left: nat := all - i - i;
      ghost var mid: nat, rest: nat := left - 1, left - 2;
      ghost var from := off;
      KeysOfNext(ark, from, from + w, w, left, mid);
      off := ApplyLayer(R, M, state, false, ark, off);
      KeysOfNext(ark, off, off + w, w, mid, rest);
      off := ApplyLayer(R, M, state, true, ark, off);
    }
  }
}
