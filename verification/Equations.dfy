/**
 * What the instructions with nested code do for each value on top of the stack, with their prices: the equations by
 * which a run can be followed step by step.
 */
module Equations {
  import opened Syntax
  import opened Ops
  import opened Interpreter

  /** The state with another stack and less gas. */
  function Paid(st: State, cost: nat, s: seq<Value>): State
    requires cost <= st.gas
  {
    State(s, st.gas - cost, st.minted)
  }

  lemma {:induction false} TopAndRest(v: Value, s: seq<Value>)
    ensures ([v] + s)[0] == v && ([v] + s)[1..] == s
  {
  }

  // ---- sequences ----

  /** The end of a sequence costs 15; an instruction is followed by the rest of the sequence. */
  lemma {:induction false} Sequence(ctx: Context, i: Instr, code: seq<Instr>, none: seq<Instr>, st: State)
    requires none == []
    ensures InterpSeq(ctx, none, st) == if st.gas >= 15 then Done(Paid(st, 15, st.stack)) else Failed(OutOfGas)
    ensures InterpSeq(ctx, [i] + code, st) ==
              match Interp(ctx, i, st)
              case Done(next) => InterpSeq(ctx, code, next)
              case other => other
    ensures Interp(ctx, Block(code), st) == InterpSeq(ctx, code, st)
  {
    hide OpEffect;
    assert ([i] + code)[1..] == code;
  }

  // ---- conditionals ----

  lemma {:induction false} IfTrue(ctx: Context, a: seq<Instr>, b: seq<Instr>, s: seq<Value>, st: State)
    requires st.stack == [VBool(true)] + s
    ensures Interp(ctx, If(a, b), st) ==
              if st.gas >= 10 then InterpSeq(ctx, a, Paid(st, 10, s)) else Failed(OutOfGas)
  {
    hide InterpSeq;
    TopAndRest(VBool(true), s);
  }

  lemma {:induction false} IfFalse(ctx: Context, a: seq<Instr>, b: seq<Instr>, s: seq<Value>, st: State)
    requires st.stack == [VBool(false)] + s
    ensures Interp(ctx, If(a, b), st) ==
              if st.gas >= 10 then InterpSeq(ctx, b, Paid(st, 10, s)) else Failed(OutOfGas)
  {
    hide InterpSeq;
    TopAndRest(VBool(false), s);
  }

  /** IF_NONE drops None, and opens Some for its second branch. */
  lemma {:induction false} IfNoneCases(
      ctx: Context, a: seq<Instr>, b: seq<Instr>, x: Value, s: seq<Value>, none: State, some: State)
    requires none.stack == [VNone] + s && some.stack == [VSome(x)] + s
    ensures Interp(ctx, IfNone(a, b), none) ==
              if none.gas >= 10 then InterpSeq(ctx, a, Paid(none, 10, s)) else Failed(OutOfGas)
    ensures Interp(ctx, IfNone(a, b), some) ==
              if some.gas >= 10 then InterpSeq(ctx, b, Paid(some, 10, [x] + s)) else Failed(OutOfGas)
  {
    hide InterpSeq;
    TopAndRest(VNone, s);
    TopAndRest(VSome(x), s);
  }

  /** IF_CONS takes a list apart into its head and its tail, and drops the empty list. */
  lemma {:induction false} IfConsCases(
      ctx: Context, a: seq<Instr>, b: seq<Instr>, x: Value, xs: seq<Value>, s: seq<Value>, cons: State, nil: State)
    requires cons.stack == [VList([x] + xs)] + s && nil.stack == [VList([])] + s
    ensures Interp(ctx, IfCons(a, b), cons) ==
              if cons.gas >= 10 then InterpSeq(ctx, a, Paid(cons, 10, [x, VList(xs)] + s)) else Failed(OutOfGas)
    ensures Interp(ctx, IfCons(a, b), nil) ==
              if nil.gas >= 10 then InterpSeq(ctx, b, Paid(nil, 10, s)) else Failed(OutOfGas)
  {
    hide InterpSeq;
    TopAndRest(VList([x] + xs), s);
    TopAndRest(VList([]), s);
    assert ([x] + xs)[1..] == xs;
  }

  /** IF_LEFT opens Left for its first branch and Right for its second. */
  lemma {:induction false} IfLeftCases(
      ctx: Context, a: seq<Instr>, b: seq<Instr>, x: Value, s: seq<Value>, left: State, right: State)
    requires left.stack == [VLeft(x)] + s && right.stack == [VRight(x)] + s
    ensures Interp(ctx, IfLeft(a, b), left) ==
              if left.gas >= 10 then InterpSeq(ctx, a, Paid(left, 10, [x] + s)) else Failed(OutOfGas)
    ensures Interp(ctx, IfLeft(a, b), right) ==
              if right.gas >= 10 then InterpSeq(ctx, b, Paid(right, 10, [x] + s)) else Failed(OutOfGas)
  {
    hide InterpSeq;
    TopAndRest(VLeft(x), s);
    TopAndRest(VRight(x), s);
  }

  // ---- loops: 10 to enter, 10 for each turn, 10 to leave ----

  /** The state in which a loop goes on: the next turn is paid for, and entering is not paid again. */
  function Reentered(st: State, entry: nat): State { st.(gas := st.gas + entry) }

  lemma {:induction false} Entering(ctx: Context, left: bool, body: seq<Instr>, st: State)
    ensures Interp(ctx, if left then LoopLeft(body) else Loop(body), st) ==
              if st.gas < 10 then Failed(OutOfGas) else LoopRun(ctx, left, body, Paid(st, 10, st.stack))
  {
    hide InterpSeq, LoopRun;
  }

  lemma {:induction false} OneTurn(ctx: Context, left: bool, body: seq<Instr>, st: State, s: seq<Value>)
    ensures st.gas < 10 ==> LoopRun(ctx, left, body, st) == Failed(OutOfGas)
    ensures st.gas >= 10 && LoopHead(left, st.stack) == Some(Leave(s)) ==>
              LoopRun(ctx, left, body, st) == if st.gas >= 20 then Done(Paid(st, 20, s)) else Failed(OutOfGas)
    ensures st.gas >= 10 && LoopHead(left, st.stack) == Some(Again(s)) ==>
              LoopRun(ctx, left, body, st) ==
                match InterpSeq(ctx, body, Paid(st, 10, s))
                case Done(next) => LoopRun(ctx, left, body, next)
                case other => other
  {
    hide InterpSeq, LoopHead;
  }

  /** The two together, for a turn that goes on. */
  lemma {:induction false} GoesOn(ctx: Context, left: bool, body: seq<Instr>, st: State, s: seq<Value>, loop: Instr)
    requires LoopHead(left, st.stack) == Some(Again(s)) && loop == if left then LoopLeft(body) else Loop(body)
    ensures Interp(ctx, loop, st) ==
              if st.gas < 20 then Failed(OutOfGas)
              else
                match InterpSeq(ctx, body, Paid(st, 20, s))
                case Done(next) => Interp(ctx, loop, Reentered(next, 10))
                case other => other
  {
    hide InterpSeq, LoopRun, LoopHead, Interp;
    Entering(ctx, left, body, st);
    if st.gas >= 10 { OneTurn(ctx, left, body, Paid(st, 10, st.stack), s); }
    if st.gas >= 20 {
      var o := InterpSeq(ctx, body, Paid(st, 20, s));
      if o.Done? {
        Entering(ctx, left, body, Reentered(o.state, 10));
        assert Paid(Reentered(o.state, 10), 10, o.state.stack) == o.state;
      }
    }
  }

  /** And for one that leaves. */
  lemma {:induction false} Stops(ctx: Context, left: bool, body: seq<Instr>, st: State, s: seq<Value>, loop: Instr)
    requires LoopHead(left, st.stack) == Some(Leave(s)) && loop == if left then LoopLeft(body) else Loop(body)
    ensures Interp(ctx, loop, st) == if st.gas >= 30 then Done(Paid(st, 30, s)) else Failed(OutOfGas)
  {
    hide InterpSeq, LoopRun, LoopHead, Interp;
    Entering(ctx, left, body, st);
    if st.gas >= 10 { OneTurn(ctx, left, body, Paid(st, 10, st.stack), s); }
  }

  /** LOOP on true is the body on the rest of the stack, and then LOOP again. */
  lemma {:induction false} LoopOnTrue(ctx: Context, body: seq<Instr>, s: seq<Value>, st: State)
    requires st.stack == [VBool(true)] + s
    ensures Interp(ctx, Loop(body), st) ==
              if st.gas < 20 then Failed(OutOfGas)
              else
                match InterpSeq(ctx, body, Paid(st, 20, s))
                case Done(next) => Interp(ctx, Loop(body), Reentered(next, 10))
                case other => other
  {
    hide Interp, InterpSeq;
    TopAndRest(VBool(true), s);
    GoesOn(ctx, false, body, st, s, Loop(body));
  }

  /** LOOP on false leaves the rest of the stack. */
  lemma {:induction false} LoopOnFalse(ctx: Context, body: seq<Instr>, s: seq<Value>, st: State)
    requires st.stack == [VBool(false)] + s
    ensures Interp(ctx, Loop(body), st) == if st.gas >= 30 then Done(Paid(st, 30, s)) else Failed(OutOfGas)
  {
    hide Interp, InterpSeq;
    TopAndRest(VBool(false), s);
    Stops(ctx, false, body, st, s, Loop(body));
  }

  /** LOOP_LEFT on Left is the body on what Left holds, and then LOOP_LEFT again. */
  lemma {:induction false} LoopOnLeft(ctx: Context, body: seq<Instr>, x: Value, s: seq<Value>, st: State)
    requires st.stack == [VLeft(x)] + s
    ensures Interp(ctx, LoopLeft(body), st) ==
              if st.gas < 20 then Failed(OutOfGas)
              else
                match InterpSeq(ctx, body, Paid(st, 20, [x] + s))
                case Done(next) => Interp(ctx, LoopLeft(body), Reentered(next, 10))
                case other => other
  {
    hide Interp, InterpSeq;
    TopAndRest(VLeft(x), s);
    GoesOn(ctx, true, body, st, [x] + s, LoopLeft(body));
  }

  /** LOOP_LEFT on Right leaves what Right holds. */
  lemma {:induction false} LoopOnRight(ctx: Context, body: seq<Instr>, x: Value, s: seq<Value>, st: State)
    requires st.stack == [VRight(x)] + s
    ensures Interp(ctx, LoopLeft(body), st) ==
              if st.gas >= 30 then Done(Paid(st, 30, [x] + s)) else Failed(OutOfGas)
  {
    hide Interp, InterpSeq;
    TopAndRest(VRight(x), s);
    Stops(ctx, true, body, st, [x] + s, LoopLeft(body));
  }

  // ---- ITER and MAP ----

  /** ITER costs 20, and 10 for each element; the first element is handed over first. */
  lemma {:induction false} IterList(
      ctx: Context, body: seq<Instr>, x: Value, xs: seq<Value>, s: seq<Value>, nil: State, cons: State)
    requires nil.stack == [VList([])] + s && cons.stack == [VList([x] + xs)] + s
    ensures Interp(ctx, Iter(OverList, body), nil) ==
              if nil.gas >= 20 then Done(Paid(nil, 20, s)) else Failed(OutOfGas)
    ensures Interp(ctx, Iter(OverList, body), cons) ==
              if cons.gas < 30 then Failed(OutOfGas)
              else
                match InterpSeq(ctx, body, Paid(cons, 30, [x] + s))
                case Done(next) =>
                  Interp(ctx, Iter(OverList, body), Reentered(next.(stack := [VList(xs)] + next.stack), 20))
                case other => other
  {
    hide InterpSeq;
    TopAndRest(VList([]), s);
    TopAndRest(VList([x] + xs), s);
    assert ([x] + xs)[1..] == xs;
    if cons.gas >= 30 {
      var o := InterpSeq(ctx, body, Paid(cons, 30, [x] + s));
      if o.Done? { TopAndRest(VList(xs), o.state.stack); }
    }
  }

  /** Over a map the body gets the bindings as pairs, in the order of the keys. */
  lemma {:induction false} IterMap(
      ctx: Context, body: seq<Instr>, e: Entry, m: seq<Entry>, s: seq<Value>, nil: State, cons: State)
    requires nil.stack == [VMap([])] + s && cons.stack == [VMap([e] + m)] + s
    ensures Interp(ctx, Iter(OverMap, body), nil) ==
              if nil.gas >= 20 then Done(Paid(nil, 20, s)) else Failed(OutOfGas)
    ensures Interp(ctx, Iter(OverMap, body), cons) ==
              if cons.gas < 30 then Failed(OutOfGas)
              else
                match InterpSeq(ctx, body, Paid(cons, 30, [VPair(e.key, e.val)] + s))
                case Done(next) =>
                  Interp(ctx, Iter(OverMap, body), Reentered(next.(stack := [VMap(m)] + next.stack), 20))
                case other => other
  {
    hide InterpSeq;
    TopAndRest(VMap([]), s);
    TopAndRest(VMap([e] + m), s);
    assert PairsOf([e] + m)[1..] == PairsOf(m);
    if cons.gas >= 30 {
      var o := InterpSeq(ctx, body, Paid(cons, 30, [VPair(e.key, e.val)] + s));
      if o.Done? { TopAndRest(VMap(m), o.state.stack); }
    }
  }

  /** A list of results put in front of those that a run of MAP leaves. */
  function Prefixed(done: seq<Value>, o: Outcome): Outcome {
    if o.Done? && o.state.stack != [] && o.state.stack[0].VList?
    then Done(o.state.(stack := [VList(done + o.state.stack[0].elems)] + o.state.stack[1..]))
    else o
  }

  lemma {:induction false} PrefixedTwice(a: seq<Value>, b: seq<Value>, o: Outcome)
    ensures Prefixed(a, Prefixed(b, o)) == Prefixed(a + b, o)
  {
    if o.Done? && o.state.stack != [] && o.state.stack[0].VList? {
      var ys, t := o.state.stack[0].elems, o.state.stack[1..];
      TopAndRest(VList(b + ys), t);
      assert a + (b + ys) == (a + b) + ys;
    }
  }

  lemma {:induction false} MapRunPrefix(ctx: Context, body: seq<Instr>, items: seq<Value>, done: seq<Value>, st: State)
    ensures MapRun(ctx, body, items, done, st) == Prefixed(done, MapRun(ctx, body, items, [], st))
    decreases |items|
  {
    hide InterpSeq;
    if items == [] {
      TopAndRest(VList([]), st.stack);
      assert done + [] == done;
    } else if Affordable(STEP, st.gas) {
      var o := InterpSeq(ctx, body, Spend(STEP, st).(stack := [items[0]] + st.stack));
      if o.Done? && o.state.stack != [] {
        var y, next := o.state.stack[0], o.state.(stack := o.state.stack[1..]);
        MapRunPrefix(ctx, body, items[1..], done + [y], next);
        MapRunPrefix(ctx, body, items[1..], [y], next);
        PrefixedTwice(done, [y], MapRun(ctx, body, items[1..], [], next));
        assert [] + [y] == [y];
      }
    }
  }

  lemma {:induction false} MapListRun(ctx: Context, body: seq<Instr>, xs: seq<Value>, s: seq<Value>, st: State)
    requires st.stack == [VList(xs)] + s
    ensures Interp(ctx, Map(OverList, body), st) ==
              if st.gas < 10 then Failed(OutOfGas) else MapRun(ctx, body, xs, [], Paid(st, 10, s))
  {
    hide InterpSeq, MapRun;
    TopAndRest(VList(xs), s);
    if st.gas >= 10 {
      var o := MapRun(ctx, body, xs, [], Paid(st, 10, s));
      if o.Done? { assert [o.state.stack[0]] + o.state.stack[1..] == o.state.stack; }
    }
  }

  /** MAP costs 10, and 10 for each element; what the body leaves on top goes in front of the results of the rest. */
  lemma {:induction false} MapList(
      ctx: Context, body: seq<Instr>, x: Value, xs: seq<Value>, s: seq<Value>, nil: State, cons: State)
    requires nil.stack == [VList([])] + s && cons.stack == [VList([x] + xs)] + s
    ensures Interp(ctx, Map(OverList, body), nil) ==
              if nil.gas >= 10 then Done(Paid(nil, 10, [VList([])] + s)) else Failed(OutOfGas)
    ensures Interp(ctx, Map(OverList, body), cons) ==
              if cons.gas < 20 then Failed(OutOfGas)
              else
                match InterpSeq(ctx, body, Paid(cons, 20, [x] + s))
                case Done(next) =>
                  if next.stack == [] then Panicked(BadState)
                  else
                    Prefixed([next.stack[0]], Interp(ctx, Map(OverList, body),
                                                     Reentered(next.(stack := [VList(xs)] + next.stack[1..]), 10)))
                case other => other
  {
    hide InterpSeq, Interp;
    MapListRun(ctx, body, [], s, nil);
    MapListRun(ctx, body, [x] + xs, s, cons);
    assert ([x] + xs)[1..] == xs;
    if cons.gas >= 20 {
      var o := InterpSeq(ctx, body, Paid(cons, 20, [x] + s));
      if o.Done? && o.state.stack != [] {
        var y, rest := o.state.stack[0], o.state.stack[1..];
        MapListRun(ctx, body, xs, rest, Reentered(o.state.(stack := [VList(xs)] + rest), 10));
        MapRunPrefix(ctx, body, xs, [y], o.state.(stack := rest));
        assert [] + [y] == [y];
      }
    }
  }

  // ---- DIP ----

  /** DIP n, with n in 16 bits, sets the n topmost elements aside and puts them back in the same order. */
  lemma {:induction false} DipBelow(
      ctx: Context, height: Option<nat>, body: seq<Instr>, top: seq<Value>, s: seq<Value>, st: State, cost: nat)
    requires st.stack == top + s && |top| == (if height.Some? then height.value else 1)
    requires cost == if height.Some? then 15 + 4 * |top| else 10
    requires |top| <= 0xFFFF
    ensures Interp(ctx, Dip(height, body), st) ==
              if st.gas < cost then Failed(OutOfGas)
              else
                match InterpSeq(ctx, body, Paid(st, cost, s))
                case Done(next) =>
                  var back := 10 * (|top| + 1);
                  if next.gas >= back then Done(Paid(next, back, top + next.stack)) else Failed(OutOfGas)
                case other => other
  {
    hide InterpSeq;
    var n := |top|;
    assert st.stack[n..] == s && st.stack[..n] == top;
  }

  // ---- lambdas ----

  /** EXEC runs the code of a lambda on its argument alone and leaves what is then on top. */
  lemma {:induction false} ExecPlain(ctx: Context, code: seq<Instr>, arg: Value, s: seq<Value>, st: State)
    requires st.stack == [arg, VLambda(Plain(code))] + s
    ensures Interp(ctx, Exec, st) ==
              if st.gas < 10 then Failed(OutOfGas)
              else
                match InterpSeq(ctx, code, Paid(st, 10, [arg]))
                case Done(next) =>
                  if next.stack == [] then Panicked(BadState) else Done(Paid(next, 0, [next.stack[0]] + s))
                case other => other
  {
    hide InterpSeq;
    assert st.stack[2..] == s;
  }

  /** A recursive lambda finds itself below its argument. */
  lemma {:induction false} ExecRecursive(ctx: Context, code: seq<Instr>, arg: Value, s: seq<Value>, st: State)
    requires st.stack == [arg, VLambda(Recursive(code))] + s
    ensures Interp(ctx, Exec, st) ==
              if st.gas < 10 then Failed(OutOfGas)
              else
                match InterpSeq(ctx, code, Paid(st, 10, [arg, VLambda(Recursive(code))]))
                case Done(next) =>
                  if next.stack == [] then Panicked(BadState) else Done(Paid(next, 0, [next.stack[0]] + s))
                case other => other
  {
    hide InterpSeq;
    assert st.stack[2..] == s;
  }

  /** EXEC of what APPLY made is EXEC of the lambda on the pair of the captured value and the argument, for 10 more. */
  lemma {:induction false} ExecApplied(
      ctx: Context, t: Ty, captured: Value, c: Closure, arg: Value, s: seq<Value>, st: State, pair: State)
    requires st.stack == [arg, VLambda(Applied(t, captured, c))] + s
    requires pair.stack == [VPair(captured, arg), VLambda(c)] + s
    requires st.gas == pair.gas + 10 && st.minted == pair.minted
    ensures OpEffect(OnLinear(Apply(t)), ctx, [captured, VLambda(c)] + s).after
            == Next(2, [VLambda(Applied(t, captured, c))], [])
    ensures Interp(ctx, Exec, st) == Interp(ctx, Exec, pair)
  {
    hide InterpSeq;
    assert st.stack[2..] == s && pair.stack[2..] == s;
  }
}
