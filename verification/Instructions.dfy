/**
 * What the instructions without nested code leave on the stack, value by value.  An instruction yields results from
 * arguments if it replaces the arguments on top of any stack by the results.
 */
module Instructions {
  import opened Syntax
  import opened Costs
  import opened Ops
  import opened Interpreter
  import opened Ordering

  /** The arguments on top of `rest` become the results, and no ticket is made. */
  ghost predicate Yields(op: Op, ctx: Context, args: seq<Value>, results: seq<Value>, rest: seq<Value>) {
    var e := OpEffect(op, ctx, args + rest);
    e.after.Next? && e.after.push + (args + rest)[e.after.take..] == results + rest && e.after.minted == []
  }

  /** What an instruction yields is what a run leaves, for its price. */
  lemma {:induction false} YieldsRuns(
      op: Op, ctx: Context, args: seq<Value>, results: seq<Value>, rest: seq<Value>, st: State)
    requires Yields(op, ctx, args, results, rest) && st.stack == args + rest
    ensures var cost := OpEffect(op, ctx, st.stack).cost;
            Interp(ctx, Simple(op), st) == if !Affordable(cost, st.gas) then Failed(OutOfGas)
                                           else Done(State(results + rest, st.gas - cost, st.minted))
  {
    hide OpEffect;
  }

  lemma {:induction false} Replaced(op: Op, ctx: Context, args: seq<Value>, results: seq<Value>, rest: seq<Value>)
    requires OpEffect(op, ctx, args + rest).after == Next(|args|, results, [])
    ensures Yields(op, ctx, args, results, rest)
  {
    hide OpEffect;
    assert (args + rest)[|args|..] == rest;
  }

  // ---- the stack ----

  lemma {:induction false} StackMoves(ctx: Context, x: Value, y: Value, t: Ty, top: seq<Value>, rest: seq<Value>)
    ensures Yields(OnStack(Drop(Some(|top|))), ctx, top, [], rest)
    ensures Yields(OnStack(Drop(None)), ctx, [x], [], rest)
    ensures Yields(OnStack(Swap), ctx, [x, y], [y, x], rest)
    ensures Yields(OnStack(Push(t, x)), ctx, [], [x], rest)
    ensures Yields(OnStack(MkUnit), ctx, [], [VUnit], rest)
  {
    hide Yields;
    Replaced(OnStack(Drop(Some(|top|))), ctx, top, [], rest);
    Replaced(OnStack(Drop(None)), ctx, [x], [], rest);
    Replaced(OnStack(Swap), ctx, [x, y], [y, x], rest);
    Replaced(OnStack(Push(t, x)), ctx, [], [x], rest);
    Replaced(OnStack(MkUnit), ctx, [], [VUnit], rest);
  }

  /** DUP n copies the element below n - 1 others to the top. */
  lemma {:induction false} DupCopies(ctx: Context, x: Value, top: seq<Value>, rest: seq<Value>)
    ensures Yields(OnStack(Dup(None)), ctx, [x], [x, x], rest)
    ensures Yields(OnStack(Dup(Some(|top| + 1))), ctx, top + [x], [x] + top + [x], rest)
  {
    assert [x] + ([x] + rest)[0..] == [x, x] + rest;
    var s := top + [x];
    assert (s + rest)[|top|] == x;
    assert [x] + (s + rest)[0..] == ([x] + top + [x]) + rest;
  }

  /** DIG n takes the element below n others to the top, and DUG n takes it back. */
  lemma {:induction false} DigMoves(ctx: Context, x: Value, top: seq<Value>, rest: seq<Value>)
    ensures Yields(OnStack(Dig(|top|)), ctx, top + [x], [x] + top, rest)
    ensures Yields(OnStack(Dug(|top|)), ctx, [x] + top, top + [x], rest)
  {
    var n, s, u := |top|, top + [x] + rest, [x] + top + rest;
    if n == 0 {
      assert top + [x] == [x] + top;
      assert [] + s[0..] == ([x] + top) + rest && [] + u[0..] == (top + [x]) + rest;
    } else {
      assert s[n] == x && s[..n] == top && u[1..n + 1] == top && u[0] == x;
      Replaced(OnStack(Dig(n)), ctx, top + [x], [x] + top, rest);
      Replaced(OnStack(Dug(n)), ctx, [x] + top, top + [x], rest);
    }
  }

  /** FAILWITH hands the value on top to the caller. */
  lemma {:induction false} FailwithRaises(ctx: Context, t: Ty, x: Value, rest: seq<Value>)
    ensures OpEffect(OnStack(Failwith(t)), ctx, [x] + rest).after == Raise(FailedWith(t, x))
  {
  }

  lemma {:induction false} PairMoves(ctx: Context, x: Value, y: Value, rest: seq<Value>)
    ensures Yields(OnPair(MkPair), ctx, [x, y], [VPair(x, y)], rest)
    ensures Yields(OnPair(Unpair), ctx, [VPair(x, y)], [x, y], rest)
    ensures Yields(OnPair(Car), ctx, [VPair(x, y)], [x], rest)
    ensures Yields(OnPair(Cdr), ctx, [VPair(x, y)], [y], rest)
  {
    hide Yields;
    Replaced(OnPair(MkPair), ctx, [x, y], [VPair(x, y)], rest);
    Replaced(OnPair(Unpair), ctx, [VPair(x, y)], [x, y], rest);
    Replaced(OnPair(Car), ctx, [VPair(x, y)], [x], rest);
    Replaced(OnPair(Cdr), ctx, [VPair(x, y)], [y], rest);
  }

  // ---- right combs ----

  lemma {:induction false} Replaces(op: Op, ctx: Context, args: seq<Value>, results: seq<Value>, rest: seq<Value>)
    requires Yields(op, ctx, args, results, rest) && OpEffect(op, ctx, args + rest).after.take == |args|
    ensures OpEffect(op, ctx, args + rest).after.push == results
  {
    hide OpEffect;
    assert (args + rest)[|args|..] == rest;
    var push := OpEffect(op, ctx, args + rest).after.push;
    assert push == (push + rest)[..|push + rest| - |rest|];
    assert results == (results + rest)[..|results + rest| - |rest|];
  }

  /** PAIR n nests to the right: one more value becomes the first component. */
  lemma {:induction false} PairNNests(ctx: Context, x: Value, y: Value, vs: seq<Value>, c: Value, rest: seq<Value>)
    ensures Yields(OnPair(PairN(2)), ctx, [x, y], [VPair(x, y)], rest)
    ensures vs != [] && Yields(OnPair(PairN(|vs|)), ctx, vs, [c], rest) ==>
              Yields(OnPair(PairN(|vs| + 1)), ctx, [x] + vs, [VPair(x, c)], rest)
  {
    hide Yields, PairNCost;
    assert ([x, y] + rest)[..2] == [x, y] && [x, y][1..] == [y];
    assert Comb([x, y]) == VPair(x, Comb([y]));
    Replaced(OnPair(PairN(2)), ctx, [x, y], [VPair(x, y)], rest);
    if vs != [] && Yields(OnPair(PairN(|vs|)), ctx, vs, [c], rest) {
      assert (vs + rest)[..|vs|] == vs;
      Replaces(OnPair(PairN(|vs|)), ctx, vs, [c], rest);
      var all := [x] + vs;
      assert (all + rest)[..|vs| + 1] == all && all[1..] == vs;
      Replaced(OnPair(PairN(|vs| + 1)), ctx, all, [VPair(x, c)], rest);
    }
  }

  /** UNPAIR n takes n - 1 pairs apart. */
  lemma {:induction false} UnpairNUnnests(ctx: Context, x: Value, c: Value, n: nat, vs: seq<Value>, rest: seq<Value>)
    ensures Yields(OnPair(UnpairN(1)), ctx, [c], [c], rest)
    ensures n > 0 && Yields(OnPair(UnpairN(n)), ctx, [c], vs, rest) ==>
              Yields(OnPair(UnpairN(n + 1)), ctx, [VPair(x, c)], [x] + vs, rest)
  {
    hide Yields, UnpairNCost;
    Replaced(OnPair(UnpairN(1)), ctx, [c], [c], rest);
    if n > 0 && Yields(OnPair(UnpairN(n)), ctx, [c], vs, rest) {
      YieldsGoes(OnPair(UnpairN(n)), ctx, [c], vs, rest);
      Replaces(OnPair(UnpairN(n)), ctx, [c], vs, rest);
      Replaced(OnPair(UnpairN(n + 1)), ctx, [VPair(x, c)], [x] + vs, rest);
    }
  }

  lemma {:induction false} YieldsGoes(op: Op, ctx: Context, args: seq<Value>, results: seq<Value>, rest: seq<Value>)
    requires Yields(op, ctx, args, results, rest)
    ensures OpEffect(op, ctx, args + rest).after.Next?
  {
  }

  /** GET 0 is the value, GET 1 the first component, and every 2 more one step to the right. */
  lemma {:induction false} GetNWalks(ctx: Context, x: Value, c: Value, n: nat, v: Value, rest: seq<Value>)
    ensures Yields(OnPair(GetN(0)), ctx, [c], [c], rest)
    ensures Yields(OnPair(GetN(1)), ctx, [VPair(x, c)], [x], rest)
    ensures Yields(OnPair(GetN(n)), ctx, [c], [v], rest) ==>
              Yields(OnPair(GetN(n + 2)), ctx, [VPair(x, c)], [v], rest)
  {
    hide Yields, GetNCost;
    Replaced(OnPair(GetN(0)), ctx, [c], [c], rest);
    Replaced(OnPair(GetN(1)), ctx, [VPair(x, c)], [x], rest);
    if Yields(OnPair(GetN(n)), ctx, [c], [v], rest) {
      YieldsGoes(OnPair(GetN(n)), ctx, [c], [v], rest);
      Replaces(OnPair(GetN(n)), ctx, [c], [v], rest);
      Replaced(OnPair(GetN(n + 2)), ctx, [VPair(x, c)], [v], rest);
    }
  }

  /** UPDATE n puts the value where GET n finds it, and changes nothing else. */
  lemma {:induction false} UpdateNWalks(ctx: Context, u: Value, x: Value, c: Value, n: nat, v: Value, rest: seq<Value>)
    ensures Yields(OnPair(UpdateN(0)), ctx, [u, c], [u], rest)
    ensures Yields(OnPair(UpdateN(1)), ctx, [u, VPair(x, c)], [VPair(u, c)], rest)
    ensures Yields(OnPair(UpdateN(n)), ctx, [u, c], [v], rest) ==>
              Yields(OnPair(UpdateN(n + 2)), ctx, [u, VPair(x, c)], [VPair(x, v)], rest)
  {
    hide Yields, UpdateNCost;
    Replaced(OnPair(UpdateN(0)), ctx, [u, c], [u], rest);
    Replaced(OnPair(UpdateN(1)), ctx, [u, VPair(x, c)], [VPair(u, c)], rest);
    if Yields(OnPair(UpdateN(n)), ctx, [u, c], [v], rest) {
      YieldsGoes(OnPair(UpdateN(n)), ctx, [u, c], [v], rest);
      Replaces(OnPair(UpdateN(n)), ctx, [u, c], [v], rest);
      Replaced(OnPair(UpdateN(n + 2)), ctx, [u, VPair(x, c)], [VPair(x, v)], rest);
    }
  }

  // ---- numbers ----

  lemma {:induction false} Additions(ctx: Context, x: int, y: int, m: nat, n: nat, rest: seq<Value>)
    ensures Yields(OnNum(Add(IntInt)), ctx, [VInt(x), VInt(y)], [VInt(x + y)], rest)
    ensures Yields(OnNum(Add(IntNat)), ctx, [VInt(x), VNat(n)], [VInt(x + n)], rest)
    ensures Yields(OnNum(Add(NatInt)), ctx, [VNat(m), VInt(y)], [VInt(m + y)], rest)
    ensures Yields(OnNum(Add(NatNat)), ctx, [VNat(m), VNat(n)], [VNat(m + n)], rest)
  {
    hide AddCost, Yields;
    Replaced(OnNum(Add(IntInt)), ctx, [VInt(x), VInt(y)], [VInt(x + y)], rest);
    Replaced(OnNum(Add(IntNat)), ctx, [VInt(x), VNat(n)], [VInt(x + n)], rest);
    Replaced(OnNum(Add(NatInt)), ctx, [VNat(m), VInt(y)], [VInt(m + y)], rest);
    Replaced(OnNum(Add(NatNat)), ctx, [VNat(m), VNat(n)], [VNat(m + n)], rest);
  }

  lemma {:induction false} Products(ctx: Context, x: int, y: int, m: nat, n: nat, rest: seq<Value>)
    ensures Yields(OnNum(Mul(IntInt)), ctx, [VInt(x), VInt(y)], [VInt(x * y)], rest)
    ensures Yields(OnNum(Mul(IntNat)), ctx, [VInt(x), VNat(n)], [VInt(x * n)], rest)
    ensures Yields(OnNum(Mul(NatInt)), ctx, [VNat(m), VInt(y)], [VInt(m * y)], rest)
    ensures m * n >= 0 && Yields(OnNum(Mul(NatNat)), ctx, [VNat(m), VNat(n)], [VNat(m * n)], rest)
  {
    hide MulCost, Yields;
    assert m * n >= 0;
    Replaced(OnNum(Mul(IntInt)), ctx, [VInt(x), VInt(y)], [VInt(x * y)], rest);
    Replaced(OnNum(Mul(IntNat)), ctx, [VInt(x), VNat(n)], [VInt(x * n)], rest);
    Replaced(OnNum(Mul(NatInt)), ctx, [VNat(m), VInt(y)], [VInt(m * y)], rest);
    Replaced(OnNum(Mul(NatNat)), ctx, [VNat(m), VNat(n)], [VNat(m * n)], rest);
  }

  /** The largest amount of mutez. */
  const LIMIT: int := 9_223_372_036_854_775_807

  /** Sums and products of amounts that do not fit are errors. */
  lemma {:induction false} MutezSums(ctx: Context, x: int, y: int, n: nat, rest: seq<Value>)
    requires 0 <= x <= LIMIT && 0 <= y <= LIMIT
    ensures OpEffect(OnNum(AddMutez), ctx, [VMutez(x), VMutez(y)] + rest).after ==
              if x + y <= LIMIT then Next(2, [VMutez(x + y)], []) else Raise(MutezOverflow)
    ensures OpEffect(OnNum(MulMutezNat), ctx, [VMutez(x), VNat(n)] + rest).after ==
              if n <= LIMIT && x * n <= LIMIT then Next(2, [VMutez(x * n)], []) else Raise(MutezOverflow)
    ensures OpEffect(OnNum(MulNatMutez), ctx, [VNat(n), VMutez(x)] + rest).after ==
              if n <= LIMIT && n * x <= LIMIT then Next(2, [VMutez(n * x)], []) else Raise(MutezOverflow)
  {
    assert x * n >= 0 && n * x >= 0;
  }

  /** SUB_MUTEZ gives the amount which, added to the subtrahend, is the minuend; None if there is none. */
  lemma {:induction false} MutezDifference(ctx: Context, x: int, y: int, z: int, rest: seq<Value>)
    ensures z + y == x && z >= 0 ==> Yields(OnNum(SubMutez), ctx, [VMutez(x), VMutez(y)], [VSome(VMutez(z))], rest)
    ensures x < y ==> Yields(OnNum(SubMutez), ctx, [VMutez(x), VMutez(y)], [VNone], rest)
  {
    hide Yields;
    if x >= y {
      Replaced(OnNum(SubMutez), ctx, [VMutez(x), VMutez(y)], [VSome(VMutez(x - y))], rest);
    } else {
      Replaced(OnNum(SubMutez), ctx, [VMutez(x), VMutez(y)], [VNone], rest);
    }
  }

  /** NEG gives the number that adds to 0, and ABS the one of the two that is not negative. */
  lemma {:induction false} Signs(ctx: Context, x: int, n: nat, z: int, rest: seq<Value>)
    ensures x + z == 0 ==> Yields(OnNum(Neg(false)), ctx, [VInt(x)], [VInt(z)], rest)
    ensures n + z == 0 ==> Yields(OnNum(Neg(true)), ctx, [VNat(n)], [VInt(z)], rest)
    ensures x == n || x + n == 0 ==> Yields(OnNum(Abs), ctx, [VInt(x)], [VNat(n)], rest)
    ensures x == n ==> Yields(OnNum(IsNat), ctx, [VInt(x)], [VSome(VNat(n))], rest)
    ensures x < 0 ==> Yields(OnNum(IsNat), ctx, [VInt(x)], [VNone], rest)
    ensures Yields(OnNum(IntOfNat), ctx, [VNat(n)], [VInt(n)], rest)
  {
    hide ByteSize, Yields;
    if x + z == 0 { Replaced(OnNum(Neg(false)), ctx, [VInt(x)], [VInt(z)], rest); }
    if n + z == 0 { Replaced(OnNum(Neg(true)), ctx, [VNat(n)], [VInt(z)], rest); }
    if x == n || x + n == 0 { Replaced(OnNum(Abs), ctx, [VInt(x)], [VNat(n)], rest); }
    if x == n { Replaced(OnNum(IsNat), ctx, [VInt(x)], [VSome(VNat(n))], rest); }
    if x < 0 { Replaced(OnNum(IsNat), ctx, [VInt(x)], [VNone], rest); }
    Replaced(OnNum(IntOfNat), ctx, [VNat(n)], [VInt(n)], rest);
  }

  lemma {:induction false} Tests(ctx: Context, x: int, rest: seq<Value>)
    ensures Yields(OnNum(Test(Gt)), ctx, [VInt(x)], [VBool(x > 0)], rest)
    ensures Yields(OnNum(Test(Ge)), ctx, [VInt(x)], [VBool(x >= 0)], rest)
    ensures Yields(OnNum(Test(Eq)), ctx, [VInt(x)], [VBool(x == 0)], rest)
    ensures Yields(OnNum(Test(Neq)), ctx, [VInt(x)], [VBool(x != 0)], rest)
    ensures Yields(OnNum(Test(Le)), ctx, [VInt(x)], [VBool(x <= 0)], rest)
    ensures Yields(OnNum(Test(Lt)), ctx, [VInt(x)], [VBool(x < 0)], rest)
  {
    hide Yields;
    Replaced(OnNum(Test(Gt)), ctx, [VInt(x)], [VBool(x > 0)], rest);
    Replaced(OnNum(Test(Ge)), ctx, [VInt(x)], [VBool(x >= 0)], rest);
    Replaced(OnNum(Test(Eq)), ctx, [VInt(x)], [VBool(x == 0)], rest);
    Replaced(OnNum(Test(Neq)), ctx, [VInt(x)], [VBool(x != 0)], rest);
    Replaced(OnNum(Test(Le)), ctx, [VInt(x)], [VBool(x <= 0)], rest);
    Replaced(OnNum(Test(Lt)), ctx, [VInt(x)], [VBool(x < 0)], rest);
  }

  lemma {:induction false} Booleans(ctx: Context, a: bool, b: bool, rest: seq<Value>)
    ensures Yields(OnNum(Logic(And)), ctx, [VBool(a), VBool(b)], [VBool(a && b)], rest)
    ensures Yields(OnNum(Logic(Or)), ctx, [VBool(a), VBool(b)], [VBool(a || b)], rest)
    ensures Yields(OnNum(Logic(Xor)), ctx, [VBool(a), VBool(b)], [VBool(a != b)], rest)
    ensures Yields(OnNum(NotBool), ctx, [VBool(a)], [VBool(!a)], rest)
  {
    hide Yields;
    Replaced(OnNum(Logic(And)), ctx, [VBool(a), VBool(b)], [VBool(a && b)], rest);
    Replaced(OnNum(Logic(Or)), ctx, [VBool(a), VBool(b)], [VBool(a || b)], rest);
    Replaced(OnNum(Logic(Xor)), ctx, [VBool(a), VBool(b)], [VBool(a != b)], rest);
    Replaced(OnNum(NotBool), ctx, [VBool(a)], [VBool(!a)], rest);
  }

  lemma {:induction false} Queries(ctx: Context, rest: seq<Value>)
    ensures Yields(OnNum(Amount), ctx, [], [VMutez(ctx.amount)], rest)
    ensures Yields(OnNum(Balance), ctx, [], [VMutez(ctx.balance)], rest)
  {
    hide Yields;
    Replaced(OnNum(Amount), ctx, [], [VMutez(ctx.amount)], rest);
    Replaced(OnNum(Balance), ctx, [], [VMutez(ctx.balance)], rest);
  }

  // ---- COMPARE ----

  function Three(less: bool, equal: bool): Value {
    VInt(if less then -1 else if equal then 0 else 1)
  }

  /** COMPARE leaves -1, 0 or 1 for two values of one comparable type. */
  lemma {:induction false} CompareYields(ctx: Context, a: Value, b: Value, t: Ty, rest: seq<Value>)
    requires KeyOf(a, t) && KeyOf(b, t)
    ensures Yields(OnNum(Compare), ctx, [a, b], [Three(Less(a, b), a == b)], rest)
  {
    hide CompareCost, Cmp, Less, KeyOf, Yields;
    CostDefined(a, b, t);
    CmpIsLess(a, b, t);
    Replaced(OnNum(Compare), ctx, [a, b], [Three(Less(a, b), a == b)], rest);
  }

  /** In particular, numbers are compared by size, the first operand with the second. */
  lemma {:induction false} CompareNumbers(ctx: Context, x: int, y: int, m: nat, n: nat, rest: seq<Value>)
    ensures Yields(OnNum(Compare), ctx, [VInt(x), VInt(y)], [Three(x < y, x == y)], rest)
    ensures Yields(OnNum(Compare), ctx, [VNat(m), VNat(n)], [Three(m < n, m == n)], rest)
    ensures Yields(OnNum(Compare), ctx, [VMutez(x), VMutez(y)], [Three(x < y, x == y)], rest)
    ensures Yields(OnNum(Compare), ctx, [VAddress(m), VAddress(n)], [Three(m < n, m == n)], rest)
  {
    hide CompareCost, Cmp, OpEffect, Yields;
    CompareYields(ctx, VInt(x), VInt(y), TInt, rest);
    CompareYields(ctx, VNat(m), VNat(n), TNat, rest);
    CompareYields(ctx, VMutez(x), VMutez(y), TMutez, rest);
    CompareYields(ctx, VAddress(m), VAddress(n), TAddress, rest);
  }

  /** None is below Some, and two of the latter are compared by what they hold. */
  lemma {:induction false} CompareOptions(ctx: Context, x: Value, u: Value, t: Ty, rest: seq<Value>)
    requires KeyOf(x, t) && KeyOf(u, t)
    ensures Yields(OnNum(Compare), ctx, [VNone, VSome(x)], [VInt(-1)], rest)
    ensures Yields(OnNum(Compare), ctx, [VSome(x), VSome(u)], [Three(Less(x, u), x == u)], rest)
  {
    hide CompareCost, Cmp, OpEffect, Yields;
    CompareYields(ctx, VNone, VSome(x), TOption(t), rest);
    CompareYields(ctx, VSome(x), VSome(u), TOption(t), rest);
  }

  /** False is below true, and Left below Right. */
  lemma {:induction false} CompareChoices(ctx: Context, x: Value, y: Value, s: Ty, t: Ty, rest: seq<Value>)
    requires KeyOf(x, s) && KeyOf(y, t)
    ensures Yields(OnNum(Compare), ctx, [VBool(false), VBool(true)], [VInt(-1)], rest)
    ensures Yields(OnNum(Compare), ctx, [VLeft(x), VRight(y)], [VInt(-1)], rest)
  {
    hide CompareCost, Cmp, OpEffect, Yields;
    CompareYields(ctx, VBool(false), VBool(true), TBool, rest);
    CompareYields(ctx, VLeft(x), VRight(y), TOr(s, t), rest);
  }

  /** Pairs are compared by their first components, and by their second only if the first are equal. */
  lemma {:induction false} ComparePairs(
      ctx: Context, x: Value, y: Value, u: Value, v: Value, s: Ty, t: Ty, rest: seq<Value>)
    requires KeyOf(x, s) && KeyOf(u, s) && KeyOf(y, t) && KeyOf(v, t)
    ensures Yields(OnNum(Compare), ctx, [VPair(x, y), VPair(u, v)],
                   [if x == u then Three(Less(y, v), y == v) else Three(Less(x, u), false)], rest)
  {
    hide CompareCost, Cmp, OpEffect, Yields;
    CompareYields(ctx, VPair(x, y), VPair(u, v), TPair(s, t), rest);
    LessIrreflexive(x);
  }

  lemma {:induction false} LessIrreflexive(a: Value)
    ensures !Less(a, a)
    decreases a
  {
    match a
    case VPair(x, y) => LessIrreflexive(x); LessIrreflexive(y);
    case VSome(x) => LessIrreflexive(x);
    case VLeft(x) => LessIrreflexive(x);
    case VRight(x) => LessIrreflexive(x);
    case _ =>
  }

  // ---- containers ----

  lemma {:induction false} Wrapping(ctx: Context, x: Value, t: Ty, xs: seq<Value>, m: seq<Entry>, rest: seq<Value>)
    ensures Yields(OnData(MkSome), ctx, [x], [VSome(x)], rest)
    ensures Yields(OnData(MkNone(t)), ctx, [], [VNone], rest)
    ensures Yields(OnData(MkLeft(t)), ctx, [x], [VLeft(x)], rest)
    ensures Yields(OnData(MkRight(t)), ctx, [x], [VRight(x)], rest)
    ensures Yields(OnData(Nil(t)), ctx, [], [VList([])], rest)
    ensures Yields(OnData(Cons), ctx, [x, VList(xs)], [VList([x] + xs)], rest)
    ensures Yields(OnData(SizeList), ctx, [VList(xs)], [VNat(|xs|)], rest)
    ensures Yields(OnData(SizeMap), ctx, [VMap(m)], [VNat(|m|)], rest)
  {
    hide Yields;
    Replaced(OnData(MkSome), ctx, [x], [VSome(x)], rest);
    Replaced(OnData(MkNone(t)), ctx, [], [VNone], rest);
    Replaced(OnData(MkLeft(t)), ctx, [x], [VLeft(x)], rest);
    Replaced(OnData(MkRight(t)), ctx, [x], [VRight(x)], rest);
    Replaced(OnData(Nil(t)), ctx, [], [VList([])], rest);
    Replaced(OnData(Cons), ctx, [x, VList(xs)], [VList([x] + xs)], rest);
    Replaced(OnData(SizeList), ctx, [VList(xs)], [VNat(|xs|)], rest);
    Replaced(OnData(SizeMap), ctx, [VMap(m)], [VNat(|m|)], rest);
  }

  lemma {:induction false} LookupPriced(factor: nat, key: Value, m: seq<Entry>, k: Ty)
    requires Ordered(m, k) && KeyOf(key, k)
    ensures MapCost(factor, key, m).Some?
  {
    hide CompareCost;
    CostDefined(key, key, k);
    forall i | 0 <= i < |m| ensures CompareCost(key, m[i].key).Some? { CostDefined(key, m[i].key, k); }
  }

  /** Lookup finds something exactly for a bound key. */
  lemma {:induction false} FindsBound(m: seq<Entry>, key: Value, k: Ty)
    requires Ordered(m, k) && KeyOf(key, k)
    ensures Find(m, key).Some? <==> Bound(m, key)
    ensures forall v :: Binds(m, key, v) ==> Find(m, key) == Some(v)
  {
    hide Ordered, KeyOf, Find, Binds;
    var f := Find(m, key);
    if f.Some? { FindExactly(m, key, k, f.value); }
    forall v | Binds(m, key, v) ensures f == Some(v) { FindExactly(m, key, k, v); }
  }

  lemma {:induction false} LookupSteps(ctx: Context, key: Value, m: seq<Entry>, k: Ty, rest: seq<Value>)
    requires Ordered(m, k) && KeyOf(key, k)
    ensures var f := Find(m, key);
            && Yields(OnData(Mem), ctx, [key, VMap(m)], [VBool(f.Some?)], rest)
            && Yields(OnData(Get), ctx, [key, VMap(m)], [if f.Some? then VSome(f.value) else VNone], rest)
  {
    LookupPriced(1, key, m, k);
    hide Find, MapCost, Ordered, KeyOf, Yields;
    var f := Find(m, key);
    Replaced(OnData(Mem), ctx, [key, VMap(m)], [VBool(f.Some?)], rest);
    Replaced(OnData(Get), ctx, [key, VMap(m)], [if f.Some? then VSome(f.value) else VNone], rest);
  }

  /** MEM is true exactly for a bound key, and GET leaves the value it is bound to. */
  lemma {:induction false} LookupYields(ctx: Context, key: Value, m: seq<Entry>, k: Ty, v: Value, rest: seq<Value>)
    requires Ordered(m, k) && KeyOf(key, k)
    ensures Yields(OnData(Mem), ctx, [key, VMap(m)], [VBool(Bound(m, key))], rest)
    ensures Binds(m, key, v) ==> Yields(OnData(Get), ctx, [key, VMap(m)], [VSome(v)], rest)
    ensures !Bound(m, key) ==> Yields(OnData(Get), ctx, [key, VMap(m)], [VNone], rest)
  {
    hide *;
    FindsBound(m, key, k);
    LookupSteps(ctx, key, m, k, rest);
  }

  /** The map after an update: the key is bound to the new value, or unbound, and every other binding is kept. */
  ghost predicate AfterUpdate(m: seq<Entry>, key: Value, val: Value, k: Ty, after: seq<Entry>) {
    && Ordered(after, k)
    && forall at, x | KeyOf(at, k) ::
         Binds(after, at, x) <==> if at == key then val == VSome(x) else Binds(m, at, x)
  }

  lemma {:induction false} UpdatedMap(m: seq<Entry>, key: Value, val: Value, k: Ty)
    requires Ordered(m, k) && KeyOf(key, k) && (val.VSome? || val.VNone?)
    ensures AfterUpdate(m, key, val, k, Updated(m, key, val))
  {
    hide Ordered, KeyOf, Insert, Remove, Binds;
    var after := Updated(m, key, val);
    if val.VSome? { InsertBinds(m, key, val.inner, k, key, val); } else { RemoveBinds(m, key, k, key, val); }
    forall at, x | KeyOf(at, k)
      ensures Binds(after, at, x) <==> if at == key then val == VSome(x) else Binds(m, at, x)
    {
      if val.VSome? { InsertBinds(m, key, val.inner, k, at, x); } else { RemoveBinds(m, key, k, at, x); }
    }
  }

  lemma {:induction false} UpdateSteps(
      ctx: Context, key: Value, val: Value, m: seq<Entry>, k: Ty, after: seq<Entry>, rest: seq<Value>)
    requires Ordered(m, k) && KeyOf(key, k) && (val.VSome? || val.VNone?) && after == Updated(m, key, val)
    ensures Yields(OnData(Update), ctx, [key, val, VMap(m)], [VMap(after)], rest)
    ensures var f := Find(m, key);
            Yields(OnData(GetAndUpdate), ctx, [key, val, VMap(m)],
                   [if f.Some? then VSome(f.value) else VNone, VMap(after)], rest)
  {
    LookupPriced(2, key, m, k);
    LookupPriced(3, key, m, k);
    hide Find, MapCost, Ordered, KeyOf, Updated, Yields;
    var f, args := Find(m, key), [key, val, VMap(m)];
    Replaced(OnData(Update), ctx, args, [VMap(after)], rest);
    Replaced(OnData(GetAndUpdate), ctx, args, [if f.Some? then VSome(f.value) else VNone, VMap(after)], rest);
  }

  /** UPDATE binds or unbinds the key; GET_AND_UPDATE also leaves what it was bound to. */
  lemma {:induction false} UpdateYields(
      ctx: Context, key: Value, val: Value, m: seq<Entry>, k: Ty, v: Value, rest: seq<Value>)
    returns (after: seq<Entry>)
    requires Ordered(m, k) && KeyOf(key, k) && (val.VSome? || val.VNone?)
    ensures AfterUpdate(m, key, val, k, after)
    ensures Yields(OnData(Update), ctx, [key, val, VMap(m)], [VMap(after)], rest)
    ensures Binds(m, key, v) ==>
              Yields(OnData(GetAndUpdate), ctx, [key, val, VMap(m)], [VSome(v), VMap(after)], rest)
    ensures !Bound(m, key) ==>
              Yields(OnData(GetAndUpdate), ctx, [key, val, VMap(m)], [VNone, VMap(after)], rest)
  {
    hide *;
    after := Updated(m, key, val);
    UpdatedMap(m, key, val, k);
    FindsBound(m, key, k);
    UpdateSteps(ctx, key, val, m, k, after, rest);
  }

  /** GET after UPDATE leaves the new value, and None after the key was unbound. */
  lemma {:induction false} GetAfterMapUpdate(
      ctx: Context, key: Value, v: Value, m: seq<Entry>, k: Ty, rest: seq<Value>)
    returns (bound: seq<Entry>, unbound: seq<Entry>)
    requires Ordered(m, k) && KeyOf(key, k)
    ensures Yields(OnData(Update), ctx, [key, VSome(v), VMap(m)], [VMap(bound)], rest)
    ensures Yields(OnData(Get), ctx, [key, VMap(bound)], [VSome(v)], rest)
    ensures Yields(OnData(Update), ctx, [key, VNone, VMap(m)], [VMap(unbound)], rest)
    ensures Yields(OnData(Get), ctx, [key, VMap(unbound)], [VNone], rest)
  {
    hide OpEffect, Ordered, KeyOf, Binds, Yields;
    bound := UpdateYields(ctx, key, VSome(v), m, k, v, rest);
    LookupYields(ctx, key, bound, k, v, rest);
    unbound := UpdateYields(ctx, key, VNone, m, k, v, rest);
    LookupYields(ctx, key, unbound, k, v, rest);
    assert forall x :: Binds(unbound, key, x) ==> VNone == VSome(x);
  }

  // ---- tickets ----

  /** TICKET makes a ticket of the contract itself, unless the amount is 0. */
  lemma {:induction false} TicketMade(ctx: Context, content: Value, n: nat, rest: seq<Value>)
    ensures n > 0 ==> var t := Ticket(ctx.self, content, n);
              OpEffect(OnLinear(MkTicket), ctx, [content, VNat(n)] + rest).after == Next(2, [VSome(VTicket(t))], [t])
    ensures n == 0 ==> Yields(OnLinear(MkTicket), ctx, [content, VNat(n)], [VNone], rest)
  {
    if n == 0 { Replaced(OnLinear(MkTicket), ctx, [content, VNat(n)], [VNone], rest); }
  }

  /** READ_TICKET leaves the ticket below its ticketer, content and amount. */
  lemma {:induction false} TicketRead(ctx: Context, t: Ticket, rest: seq<Value>)
    ensures Yields(OnLinear(ReadTicket), ctx, [VTicket(t)],
                   [VPair(VAddress(t.ticketer), VPair(t.content, VNat(t.amount))), VTicket(t)], rest)
  {
    var v := VPair(VAddress(t.ticketer), VPair(t.content, VNat(t.amount)));
    assert [v] + ([VTicket(t)] + rest)[0..] == [v, VTicket(t)] + rest;
  }

  /** SPLIT_TICKET gives the two parts in the order of the amounts, if these are positive and make up the whole. */
  lemma {:induction false} TicketSplit(ctx: Context, t: Ticket, l: nat, r: nat, rest: seq<Value>)
    ensures l > 0 && r > 0 && l + r == t.amount ==>
              var x, y := Ticket(t.ticketer, t.content, l), Ticket(t.ticketer, t.content, r);
              Yields(OnLinear(SplitTicket), ctx, [VTicket(t), VPair(VNat(l), VNat(r))],
                     [VSome(VPair(VTicket(x), VTicket(y)))], rest)
    ensures !(l > 0 && r > 0 && l + r == t.amount) ==>
              Yields(OnLinear(SplitTicket), ctx, [VTicket(t), VPair(VNat(l), VNat(r))], [VNone], rest)
  {
    var args := [VTicket(t), VPair(VNat(l), VNat(r))];
    Replaced(OnLinear(SplitTicket), ctx, args, [Split(t, l, r)], rest);
    assert t.(amount := l) == Ticket(t.ticketer, t.content, l) && t.(amount := r) == Ticket(t.ticketer, t.content, r);
  }

  /** JOIN_TICKETS adds the amounts of tickets of one ticketer and content, and gives None for others. */
  lemma {:induction false} TicketsJoined(ctx: Context, x: Ticket, y: Ticket, k: Ty, rest: seq<Value>)
    requires KeyOf(x.content, k) && KeyOf(y.content, k)
    ensures x.ticketer == y.ticketer && x.content == y.content ==>
              Yields(OnLinear(JoinTickets), ctx, [VPair(VTicket(x), VTicket(y))],
                     [VSome(VTicket(Ticket(x.ticketer, x.content, x.amount + y.amount)))], rest)
    ensures x.ticketer != y.ticketer || x.content != y.content ==>
              Yields(OnLinear(JoinTickets), ctx, [VPair(VTicket(x), VTicket(y))], [VNone], rest)
  {
    CostDefined(x.content, y.content, k);
    hide CompareCost, KeyOf, AddCost;
    Replaced(OnLinear(JoinTickets), ctx, [VPair(VTicket(x), VTicket(y))], [Join(x, y)], rest);
  }

  /** Joining the parts of a split gives the ticket back. */
  lemma {:induction false} SplitAndJoin(ctx: Context, t: Ticket, l: nat, r: nat, k: Ty, rest: seq<Value>)
    returns (parts: Value)
    requires KeyOf(t.content, k) && l > 0 && r > 0 && l + r == t.amount
    ensures Yields(OnLinear(SplitTicket), ctx, [VTicket(t), VPair(VNat(l), VNat(r))], [VSome(parts)], rest)
    ensures Yields(OnLinear(JoinTickets), ctx, [parts], [VSome(VTicket(t))], rest)
  {
    hide OpEffect, KeyOf, Yields;
    var x, y := Ticket(t.ticketer, t.content, l), Ticket(t.ticketer, t.content, r);
    parts := VPair(VTicket(x), VTicket(y));
    TicketSplit(ctx, t, l, r, rest);
    TicketsJoined(ctx, x, y, k, rest);
    assert Ticket(t.ticketer, t.content, l + r) == t;
  }

  /** LAMBDA pushes the lambda, and APPLY captures the value on top of it. */
  lemma {:induction false} Lambdas(ctx: Context, a: Ty, b: Ty, c: Closure, x: Value, rest: seq<Value>)
    ensures Yields(OnLinear(MkLambda(a, b, c)), ctx, [], [VLambda(c)], rest)
    ensures Yields(OnLinear(Apply(a)), ctx, [x, VLambda(c)], [VLambda(Applied(a, x, c))], rest)
  {
    hide Yields;
    Replaced(OnLinear(MkLambda(a, b, c)), ctx, [], [VLambda(c)], rest);
    Replaced(OnLinear(Apply(a)), ctx, [x, VLambda(c)], [VLambda(Applied(a, x, c))], rest);
  }
}
