/**
 * Gas only decides whether a run finishes: under a lower limit the same run either gives the same result with
 * that much less gas left, or ends out of gas.
 */
module GasIndependence {
  import opened Syntax
  import opened Costs
  import opened Ops
  import opened Interpreter

  function Lower(st: State, k: nat): State
    requires k <= st.gas
  {
    st.(gas := st.gas - k)
  }

  /** `low` is what `high` becomes when the run starts with k milligas less. */
  ghost predicate Lowered(high: Outcome, low: Outcome, k: nat) {
    match high
    case Done(h) => if h.gas >= k then low == Done(Lower(h, k)) else low == Failed(OutOfGas)
    case _ => low == high || low == Failed(OutOfGas)
  }

  lemma {:induction false} SeqLowered(ctx: Context, code: seq<Instr>, st: State, k: nat)
    requires k <= st.gas
    ensures Lowered(InterpSeq(ctx, code, st), InterpSeq(ctx, code, Lower(st, k)), k)
    decreases st.gas, code, 0
  {
    if code != [] {
      InstrLowered(ctx, code[0], st, k);
      var o := Interp(ctx, code[0], st);
      if o.Done? && k <= o.state.gas {
        SeqLowered(ctx, code[1..], o.state, k);
      }
    }
  }

  lemma {:induction false} InstrLowered(ctx: Context, i: Instr, st: State, k: nat)
    requires k <= st.gas
    ensures Lowered(Interp(ctx, i, st), Interp(ctx, i, Lower(st, k)), k)
    decreases st.gas, i, 1
  {
    hide OpEffect, Items, ChooseBranch, InterpSeq;
    match i
    case Simple(op) =>
    case Block(body) => SeqLowered(ctx, body, st, k);
    case Loop(body) => EnterLowered(ctx, false, body, st, k);
    case LoopLeft(body) => EnterLowered(ctx, true, body, st, k);
    case Iter(over, body) =>
      if Affordable(ITER, st.gas) && st.stack != [] && !over.OverOption? && Items(over, st.stack[0]).Some? {
        var next := Spend(ITER, st).(stack := st.stack[1..]);
        if k <= next.gas { IterLowered(ctx, body, Items(over, st.stack[0]).value, next, k); }
      }
    case Map(over, body) => MapLowered(ctx, over, body, st, k);
    case Dip(height, body) => DipLowered(ctx, height, body, st, k);
    case Exec =>
      if Affordable(STEP, st.gas) && |st.stack| >= 2 && st.stack[1].VLambda? {
        var next := Spend(STEP, st).(stack := st.stack[2..]);
        if k <= next.gas { ExecLowered(ctx, st.stack[1].closure, st.stack[0], next, k); }
      }
    case _ =>
      if Affordable(STEP, st.gas) && ChooseBranch(i, st.stack).Some? {
        var b := ChooseBranch(i, st.stack).value;
        var next := Spend(STEP, st).(stack := b.stack);
        if k <= next.gas { SeqLowered(ctx, b.code, next, k); }
      }
  }

  lemma {:induction false} EnterLowered(ctx: Context, left: bool, body: seq<Instr>, st: State, k: nat)
    requires k <= st.gas
    ensures Lowered(EnterLoop(ctx, left, body, st), EnterLoop(ctx, left, body, Lower(st, k)), k)
    decreases st.gas, body, 1
  {
    if Affordable(STEP, st.gas) && k <= st.gas - STEP {
      LoopLowered(ctx, left, body, Spend(STEP, st), k);
    }
  }

  lemma {:induction false} LoopLowered(ctx: Context, left: bool, body: seq<Instr>, st: State, k: nat)
    requires k <= st.gas
    ensures Lowered(LoopRun(ctx, left, body, st), LoopRun(ctx, left, body, Lower(st, k)), k)
    decreases st.gas, body, 1
  {
    if Affordable(STEP, st.gas) && k <= st.gas - STEP {
      match LoopHead(left, st.stack)
      case None =>
      case Some(Leave(s)) =>
      case Some(Again(s)) =>
        var next := Spend(STEP, st).(stack := s);
        SeqLowered(ctx, body, next, k);
        var o := InterpSeq(ctx, body, next);
        if o.Done? && k <= o.state.gas {
          LoopLowered(ctx, left, body, o.state, k);
        }
    }
  }

  lemma {:induction false} IterLowered(ctx: Context, body: seq<Instr>, items: seq<Value>, st: State, k: nat)
    requires k <= st.gas
    ensures Lowered(IterRun(ctx, body, items, st), IterRun(ctx, body, items, Lower(st, k)), k)
    decreases st.gas, body, 1
  {
    if items != [] && Affordable(STEP, st.gas) && k <= st.gas - STEP {
      var next := Spend(STEP, st).(stack := [items[0]] + st.stack);
      SeqLowered(ctx, body, next, k);
      var o := InterpSeq(ctx, body, next);
      if o.Done? && k <= o.state.gas {
        IterLowered(ctx, body, items[1..], o.state, k);
      }
    }
  }

  lemma {:induction false} MapRunLowered(ctx: Context, body: seq<Instr>, items: seq<Value>, done: seq<Value>,
                                         st: State, k: nat)
    requires k <= st.gas
    ensures Lowered(MapRun(ctx, body, items, done, st), MapRun(ctx, body, items, done, Lower(st, k)), k)
    decreases st.gas, body, 1
  {
    if items != [] && Affordable(STEP, st.gas) && k <= st.gas - STEP {
      var next := Spend(STEP, st).(stack := [items[0]] + st.stack);
      SeqLowered(ctx, body, next, k);
      var o := InterpSeq(ctx, body, next);
      if o.Done? && k <= o.state.gas && o.state.stack != [] {
        var rest := o.state.(stack := o.state.stack[1..]);
        MapRunLowered(ctx, body, items[1..], done + [o.state.stack[0]], rest, k);
      }
    }
  }

  lemma {:induction false} MapLowered(ctx: Context, over: Container, body: seq<Instr>, st: State, k: nat)
    requires k <= st.gas
    ensures Lowered(RunMap(ctx, over, body, st), RunMap(ctx, over, body, Lower(st, k)), k)
    decreases st.gas, body, 2
  {
    if Affordable(MapEntryCost(over), st.gas) && st.stack != [] && Items(over, st.stack[0]).Some? {
      var next := Spend(MapEntryCost(over), st).(stack := st.stack[1..]);
      if k <= next.gas { MapRunLowered(ctx, body, Items(over, st.stack[0]).value, [], next, k); }
    }
  }

  lemma {:induction false} DipLowered(ctx: Context, height: Option<nat>, body: seq<Instr>, st: State, k: nat)
    requires k <= st.gas
    ensures Lowered(RunDip(ctx, height, body, st), RunDip(ctx, height, body, Lower(st, k)), k)
    decreases st.gas, body, 1
  {
    if Affordable(DipCost(height), st.gas) && Height(height) <= |st.stack| {
      var next := Spend(DipCost(height), st).(stack := st.stack[Height(height)..]);
      if k <= next.gas { SeqLowered(ctx, body, next, k); }
    }
  }

  lemma {:induction false} ExecLowered(ctx: Context, c: Closure, arg: Value, st: State, k: nat)
    requires k <= st.gas
    ensures Lowered(ExecRun(ctx, c, arg, st), ExecRun(ctx, c, arg, Lower(st, k)), k)
    decreases st.gas, c, 0
  {
    match c
    case Applied(_, captured, inner) =>
      if Affordable(STEP, st.gas) && k <= st.gas - STEP {
        ExecLowered(ctx, inner, VPair(captured, arg), Spend(STEP, st), k);
      }
    case _ =>
      SeqLowered(ctx, c.code, st.(stack := if c.Recursive? then [arg, VLambda(c)] else [arg]), k);
  }
}
