/**
 * A program that does not stop abruptly never looks below the elements it was given: whatever lies underneath
 * stays where it is and changes neither the result nor the gas.
 */
module Framing {
  import opened Syntax
  import opened Costs
  import opened Ops
  import opened Interpreter

  function Over(st: State, rest: seq<Value>): State {
    st.(stack := st.stack + rest)
  }

  /** `big` is what `small` becomes when the run starts with `rest` underneath its stack. */
  ghost predicate Framed(small: Outcome, big: Outcome, rest: seq<Value>) {
    match small
    case Done(st) => big == Done(Over(st, rest))
    case Failed(_) => big == small
    case Panicked(_) => true
  }

  ghost predicate SameEffect(small: Effect, big: Effect) {
    if small.after.Halt? then small.cost == 0 || big.cost == small.cost else big == small
  }

  lemma {:induction false} EffectFramed(op: Op, ctx: Context, s: seq<Value>, rest: seq<Value>)
    ensures SameEffect(OpEffect(op, ctx, s), OpEffect(op, ctx, s + rest))
  {
    match op
    case OnStack(o) => StackFramed(o, s, rest);
    case OnPair(o) => PairFramed(o, s, rest);
    case OnNum(o) => NumFramed(o, ctx, s, rest);
    case OnData(o) => DataFramed(o, s, rest);
    case OnLinear(o) => LinearFramed(o, ctx, s, rest);
  }

  lemma {:induction false} StackFramed(op: StackOp, s: seq<Value>, rest: seq<Value>)
    ensures SameEffect(StackEffect(op, s), StackEffect(op, s + rest))
  {
    if op.Dig? && op.depth < |s| {
      assert (s + rest)[..op.depth] == s[..op.depth];
    }
    if op.Dug? && op.depth < |s| {
      var n := op.depth + 1;
      assert (s + rest)[1..n] == s[1..n];
    }
  }

  lemma {:induction false} PairFramed(op: PairOp, s: seq<Value>, rest: seq<Value>)
    ensures SameEffect(PairEffect(op, s), PairEffect(op, s + rest))
  {
    if op.PairN? && op.n <= |s| {
      assert (s + rest)[..op.n] == s[..op.n];
    }
  }

  lemma {:induction false} NumFramed(op: NumOp, ctx: Context, s: seq<Value>, rest: seq<Value>)
    ensures SameEffect(NumEffect(op, ctx, s), NumEffect(op, ctx, s + rest))
  {
    assert |s| >= 1 ==> (s + rest)[0] == s[0];
    assert |s| >= 2 ==> (s + rest)[1] == s[1];
  }

  lemma {:induction false} DataFramed(op: DataOp, s: seq<Value>, rest: seq<Value>)
    ensures SameEffect(DataEffect(op, s), DataEffect(op, s + rest))
  {
    assert |s| >= 1 ==> (s + rest)[0] == s[0];
    assert |s| >= 2 ==> (s + rest)[1] == s[1];
    assert |s| >= 3 ==> (s + rest)[2] == s[2];
  }

  lemma {:induction false} LinearFramed(op: LinearOp, ctx: Context, s: seq<Value>, rest: seq<Value>)
    ensures SameEffect(LinearEffect(op, ctx, s), LinearEffect(op, ctx, s + rest))
  {
    assert |s| >= 1 ==> (s + rest)[0] == s[0];
    assert |s| >= 2 ==> (s + rest)[1] == s[1];
  }

  lemma {:induction false} Below(s: seq<Value>, take: nat, rest: seq<Value>)
    requires take <= |s|
    ensures (s + rest)[take..] == s[take..] + rest
  {
  }

  lemma {:induction false} Above(push: seq<Value>, s: seq<Value>, rest: seq<Value>)
    ensures push + (s + rest) == push + s + rest
  {
  }

  lemma {:induction false} Beneath(push: seq<Value>, s: seq<Value>, take: nat, rest: seq<Value>)
    requires take <= |s|
    ensures (s + rest)[take..] == s[take..] + rest
    ensures push + (s + rest)[take..] == push + s[take..] + rest
  {
    Below(s, take, rest);
    Above(push, s[take..], rest);
  }

  lemma {:induction false} OpFramed(ctx: Context, op: Op, st: State, rest: seq<Value>)
    ensures Framed(RunOp(ctx, op, st), RunOp(ctx, op, Over(st, rest)), rest)
  {
    EffectFramed(op, ctx, st.stack, rest);
    var e := OpEffect(op, ctx, st.stack);
    if e.after.Next? {
      Beneath(e.after.push, st.stack, e.after.take, rest);
    }
  }

  lemma {:induction false} SeqFramed(ctx: Context, code: seq<Instr>, st: State, rest: seq<Value>)
    ensures Framed(InterpSeq(ctx, code, st), InterpSeq(ctx, code, Over(st, rest)), rest)
    decreases st.gas, code, 0
  {
    if code != [] {
      InstrFramed(ctx, code[0], st, rest);
      var o := Interp(ctx, code[0], st);
      if o.Done? { SeqFramed(ctx, code[1..], o.state, rest); }
    }
  }

  lemma {:induction false} InstrFramed(ctx: Context, i: Instr, st: State, rest: seq<Value>)
    ensures Framed(Interp(ctx, i, st), Interp(ctx, i, Over(st, rest)), rest)
    decreases st.gas, i, 1
  {
    match i
    case Simple(op) => OpFramed(ctx, op, st, rest);
    case Block(body) => SeqFramed(ctx, body, st, rest);
    case Loop(body) => EnterFramed(ctx, false, body, st, rest);
    case LoopLeft(body) => EnterFramed(ctx, true, body, st, rest);
    case Iter(over, body) =>
      if Affordable(ITER, st.gas) && st.stack != [] && !over.OverOption? && Items(over, st.stack[0]).Some? {
        Below(st.stack, 1, rest);
        IterFramed(ctx, body, Items(over, st.stack[0]).value, Spend(ITER, st).(stack := st.stack[1..]), rest);
      }
    case Map(over, body) => MapFramed(ctx, over, body, st, rest);
    case Dip(height, body) => DipFramed(ctx, height, body, st, rest);
    case Exec =>
      if Affordable(STEP, st.gas) && |st.stack| >= 2 && st.stack[1].VLambda? {
        Below(st.stack, 2, rest);
        ExecFramed(ctx, st.stack[1].closure, st.stack[0], Spend(STEP, st).(stack := st.stack[2..]), rest);
      }
    case _ =>
      if Affordable(STEP, st.gas) && ChooseBranch(i, st.stack).Some? {
        var b := ChooseBranch(i, st.stack).value;
        BranchFramed(i, st.stack, rest);
        SeqFramed(ctx, b.code, Spend(STEP, st).(stack := b.stack), rest);
      }
  }

  lemma {:induction false} BranchFramed(i: Instr, s: seq<Value>, rest: seq<Value>)
    requires IsBranch(i) && ChooseBranch(i, s).Some?
    ensures ChooseBranch(i, s + rest) ==
            Some(Branch(ChooseBranch(i, s).value.code, ChooseBranch(i, s).value.stack + rest))
  {
    Below(s, 1, rest);
    if s[0].VSome? || s[0].VLeft? || s[0].VRight? {
      Beneath([s[0].inner], s, 1, rest);
    } else if s[0].VList? && s[0].elems != [] {
      Beneath([s[0].elems[0], VList(s[0].elems[1..])], s, 1, rest);
    }
  }

  lemma {:induction false} EnterFramed(ctx: Context, left: bool, body: seq<Instr>, st: State, rest: seq<Value>)
    ensures Framed(EnterLoop(ctx, left, body, st), EnterLoop(ctx, left, body, Over(st, rest)), rest)
    decreases st.gas, body, 1
  {
    if Affordable(STEP, st.gas) { LoopFramed(ctx, left, body, Spend(STEP, st), rest); }
  }

  lemma {:induction false} HeadFramed(left: bool, s: seq<Value>, rest: seq<Value>)
    requires LoopHead(left, s).Some?
    ensures LoopHead(left, s + rest).Some?
    ensures match LoopHead(left, s).value
            case Again(t) => LoopHead(left, s + rest).value == Again(t + rest)
            case Leave(t) => LoopHead(left, s + rest).value == Leave(t + rest)
  {
    Below(s, 1, rest);
    if left { Beneath([s[0].inner], s, 1, rest); }
  }

  lemma {:induction false} LoopFramed(ctx: Context, left: bool, body: seq<Instr>, st: State, rest: seq<Value>)
    ensures Framed(LoopRun(ctx, left, body, st), LoopRun(ctx, left, body, Over(st, rest)), rest)
    decreases st.gas, body, 1
  {
    if Affordable(STEP, st.gas) && LoopHead(left, st.stack).Some? {
      HeadFramed(left, st.stack, rest);
      match LoopHead(left, st.stack).value
      case Leave(s) =>
      case Again(s) =>
        var next := Spend(STEP, st).(stack := s);
        SeqFramed(ctx, body, next, rest);
        var o := InterpSeq(ctx, body, next);
        if o.Done? { LoopFramed(ctx, left, body, o.state, rest); }
    }
  }

  lemma {:induction false} IterFramed(ctx: Context, body: seq<Instr>, items: seq<Value>, st: State, rest: seq<Value>)
    ensures Framed(IterRun(ctx, body, items, st), IterRun(ctx, body, items, Over(st, rest)), rest)
    decreases st.gas, body, 1
  {
    if items != [] && Affordable(STEP, st.gas) {
      Above([items[0]], st.stack, rest);
      var next := Spend(STEP, st).(stack := [items[0]] + st.stack);
      SeqFramed(ctx, body, next, rest);
      var o := InterpSeq(ctx, body, next);
      if o.Done? { IterFramed(ctx, body, items[1..], o.state, rest); }
    }
  }

  lemma {:induction false} MapRunFramed(ctx: Context, body: seq<Instr>, items: seq<Value>, done: seq<Value>,
                                        st: State, rest: seq<Value>)
    ensures Framed(MapRun(ctx, body, items, done, st), MapRun(ctx, body, items, done, Over(st, rest)), rest)
    decreases st.gas, body, 1
  {
    if items == [] {
      Above([VList(done)], st.stack, rest);
    } else if Affordable(STEP, st.gas) {
      Above([items[0]], st.stack, rest);
      var next := Spend(STEP, st).(stack := [items[0]] + st.stack);
      SeqFramed(ctx, body, next, rest);
      var o := InterpSeq(ctx, body, next);
      if o.Done? && o.state.stack != [] {
        Below(o.state.stack, 1, rest);
        MapRunFramed(ctx, body, items[1..], done + [o.state.stack[0]], o.state.(stack := o.state.stack[1..]), rest);
      }
    }
  }

  lemma {:induction false} MapFramed(ctx: Context, over: Container, body: seq<Instr>, st: State, rest: seq<Value>)
    ensures Framed(RunMap(ctx, over, body, st), RunMap(ctx, over, body, Over(st, rest)), rest)
    decreases st.gas, body, 2
  {
    if Affordable(MapEntryCost(over), st.gas) && st.stack != [] && Items(over, st.stack[0]).Some? {
      Below(st.stack, 1, rest);
      var next := Spend(MapEntryCost(over), st).(stack := st.stack[1..]);
      var items := Items(over, st.stack[0]).value;
      MapRunFramed(ctx, body, items, [], next, rest);
      var o := MapRun(ctx, body, items, [], next);
      if o.Done? {
        Beneath([Rebuild(over, st.stack[0], o.state.stack[0].elems)], o.state.stack, 1, rest);
      }
    }
  }

  lemma {:induction false} DipFramed(ctx: Context, height: Option<nat>, body: seq<Instr>, st: State, rest: seq<Value>)
    ensures Framed(RunDip(ctx, height, body, st), RunDip(ctx, height, body, Over(st, rest)), rest)
    decreases st.gas, body, 1
  {
    var n := Height(height);
    if Affordable(DipCost(height), st.gas) && n <= |st.stack| {
      Below(st.stack, n, rest);
      var next := Spend(DipCost(height), st).(stack := st.stack[n..]);
      SeqFramed(ctx, body, next, rest);
      var o := InterpSeq(ctx, body, next);
      if o.Done? {
        assert Over(st, rest).stack[..n] == st.stack[..n];
        Above(st.stack[..n], o.state.stack, rest);
      }
    }
  }

  lemma {:induction false} ExecFramed(ctx: Context, c: Closure, arg: Value, st: State, rest: seq<Value>)
    ensures Framed(ExecRun(ctx, c, arg, st), ExecRun(ctx, c, arg, Over(st, rest)), rest)
    decreases st.gas, c, 0
  {
    match c
    case Applied(_, captured, inner) =>
      if Affordable(STEP, st.gas) {
        ExecFramed(ctx, inner, VPair(captured, arg), Spend(STEP, st), rest);
      }
    case _ =>
      var own := st.(stack := if c.Recursive? then [arg, VLambda(c)] else [arg]);
      var o := InterpSeq(ctx, c.code, own);
      assert Over(st, rest).(stack := own.stack) == own;
      if o.Done? && o.state.stack != [] {
        Above([o.state.stack[0]], st.stack, rest);
      }
  }
}
