/** Griffin as the C code runs it, in place on the state. */
module GriffinCode {
  import Poseidon
  import Anemoi
  import opened Algebra
  import opened PoseidonCode
  import opened AdditionChain
  import opened Griffin
  import Rescue

  /** The factors still to be applied, with the accumulator and the previous element at hand. */
  lemma {:induction false} FactorsNext<T>(
      R: Ring<T>, y0: T, acc: T, prev: T, xs: seq<T>, ab: seq<(T, T)>, l: T, done: seq<T>)
    requires |xs| == |ab| && xs != [] && l == NextInput(R, y0, acc, prev)
    ensures done + Factors(R, y0, acc, prev, xs, ab)
            == (done + [R.Mul(Quadratic(R, l, ab[0].0, ab[0].1), xs[0])]) + Factors(R, y0, l, xs[0], xs[1..], ab[1..])
  {
  }

  /** One factor: the accumulator becomes its linear input. */
  method OneFactor<T>(R: Ring<T>, y0: T, acc: T, prev: T, x: T, alpha: T, beta: T) returns (l: T, y: T)
    ensures l == NextInput(R, y0, acc, prev) && y == R.Mul(Quadratic(R, l, alpha, beta), x)
  {
    l := R.Plus(acc, y0);
    l := R.Plus(l, prev);
    var res := R.Mul(l, l);
    var tmp := R.Mul(l, alpha);
    res := R.Plus(res, tmp);
    res := R.Plus(res, beta);
    y := R.Mul(res, x);
  }

  method ApplyNonLinear<T(!new)>(R: Ring<T>, state: array<T>, ab: seq<(T, T)>)
    requires IsRing(R) && state.Length == |ab| + 2
    modifies state
    ensures state[..] == NonLinear(R, old(state[..]), ab)
  {
    ghost var s := state[..];
    var y := FifthRoot(R, state[0]);
    state[0] := y;
    var tmp := R.Mul(state[1], state[1]);
    tmp := R.Mul(tmp, tmp);
    MulComm(R, state[1], tmp);
    tmp := R.Mul(state[1], tmp);
    state[1] := tmp;
    var acc, prev := state[1], R.Zero();
    ghost var y0, y1 := state[0], state[1];
    ghost var out := [y0, y1] + Factors(R, y0, y1, R.Zero(), s[2..], ab);
    assert s[2..][0..] == s[2..] && ab[0..] == ab && state[..2] == [y0, y1];
    for i := 0 to |ab|
      invariant state[0] == y0 && state[i + 2..] == s[i + 2..]
      invariant state[..i + 2] + Factors(R, y0, acc, prev, s[i + 2..], ab[i..]) == out
    {
      ghost var done, xs, rest := state[..i + 2], s[i + 2..], ab[i..];
      assert xs[0] == state[i + 2] && xs[1..] == s[i + 3..] && rest[1..] == ab[i + 1..];
      var x := state[i + 2];
      ghost var a, p := acc, prev;
      var z;
      acc, z := OneFactor(R, state[0], acc, prev, x, ab[i].0, ab[i].1);
      FactorsNext(R, y0, a, p, xs, rest, acc, done);
      prev := x;
      state[i + 2] := z;
      assert state[..i + 3] == done + [z];
    }
    assert state[..] == state[..|ab| + 2];
  }

  method ApplyLinear3<T>(R: Ring<T>, state: array<T>)
    requires state.Length == 3
    modifies state
    ensures state[..] == Lin3(R, old(state[..]))
  {
    var tmp := R.Plus(state[0], state[1]);
    tmp := R.Plus(tmp, state[2]);
    state[0] := R.Plus(state[0], tmp);
    state[1] := R.Plus(state[1], tmp);
    state[2] := R.Plus(state[2], tmp);
  }

  method ApplyLinear4<T>(R: Ring<T>, state: array<T>)
    requires state.Length == 4
    modifies state
    ensures state[..] == Lin4(R, old(state[..]))
  {
    var sum := R.Plus(state[0], state[1]);
    sum := R.Plus(sum, state[2]);
    sum := R.Plus(sum, state[3]);
    var x0 := state[0];
    state[0] := R.Plus(state[0], sum);
    state[0] := R.Plus(state[0], x0);
    state[0] := R.Plus(state[0], state[1]);
    var xi := state[1];
    state[1] := R.Plus(state[1], sum);
    state[1] := R.Plus(state[1], xi);
    state[1] := R.Plus(state[1], state[2]);
    xi := state[2];
    state[2] := R.Plus(state[2], sum);
    state[2] := R.Plus(state[2], xi);
    state[2] := R.Plus(state[2], state[3]);
    xi := state[3];
    state[3] := R.Plus(state[3], sum);
    state[3] := R.Plus(state[3], xi);
    state[3] := R.Plus(state[3], x0);
  }

  method ApplyLinear<T>(R: Ring<T>, state: array<T>)
    requires 3 <= state.Length <= 4
    modifies state
    ensures state[..] == Lin(R, old(state[..]))
  {
    if state.Length == 3 { ApplyLinear3(R, state); } else { ApplyLinear4(R, state); }
  }

  lemma {:induction false} KeyIsSlice<T>(R: Ring<T>, s: seq<T>, ark: seq<T>, off: nat, next: nat)
    requires next == off + |s| <= |ark|
    ensures Poseidon.AddKey(R, s, ark, off) == Anemoi.AddAll(R, s, ark[off..next])
  {
    forall i | 0 <= i < |s| ensures ark[off..][i] == ark[off..next][i] {}
  }

  method ApplyOneRound<T(!new)>(R: Ring<T>, state: array<T>, ab: seq<(T, T)>, ark: seq<T>, off: nat)
    returns (next: nat)
    requires IsRing(R) && 3 <= state.Length <= 4 && state.Length == |ab| + 2 && off + state.Length <= |ark|
    modifies state
    ensures next == off + state.Length && state[..] == Round(R, old(state[..]), ab, ark[off..next])
  {
    hide NonLinear, Lin;
    ApplyNonLinear(R, state, ab);
    ApplyLinear(R, state);
    ghost var s := state[..];
    next := ApplyCst(R, state, ark, off);
    KeyIsSlice(R, s, ark, off, next);
  }

  /** The whole permutation; a round reads one key. */
  method ApplyPermutation<T(!new)>(R: Ring<T>, state: array<T>, ab: seq<(T, T)>, ark: seq<T>, rounds: nat)
    returns (off: nat)
    requires IsRing(R) && 3 <= state.Length <= 4 && state.Length == |ab| + 2
    requires Poseidon.Times(rounds, state.Length) <= |ark|
    modifies state
    ensures off == Poseidon.Times(rounds, state.Length)
    ensures state[..] == Permutation(R, old(state[..]), ab, Rescue.KeysOf(ark, 0, state.Length, rounds))
  {
    hide Round, Lin;
    ApplyLinear(R, state);
    ghost var w := state.Length;
    ghost var out := Rounds(R, state[..], ab, Rescue.KeysOf(ark, 0, w, rounds));
    off := 0;
    var left: nat := rounds;
    while left > 0
      invariant off + Poseidon.Times(left, w) == Poseidon.Times(rounds, w)
      invariant Rounds(R, state[..], ab, Rescue.KeysOf(ark, off, w, left)) == out
    {
      var rest: nat := left - 1;
      Rescue.KeysOfNext(ark, off, off + w, w, left, rest);
      off := ApplyOneRound(R, state, ab, ark, off);
      left := rest;
    }
  }
}
