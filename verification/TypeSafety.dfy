/**
 * Type safety over whole runs.  A program that the typechecker accepts, started on a stack of the expected types,
 * ends with a stack of the predicted types or with an interpretation error.  Under the strict rules it never stops
 * abruptly; under the source's own rules the only abrupt stop is a comparison of incomparable ticket contents.
 */
module TypeSafety {
  import opened Syntax
  import opened Costs
  import opened Ops
  import opened Interpreter
  import opened Typechecker
  import opened OpSafety

  ghost predicate Safe(strict: bool, o: Outcome, r: StackTy) {
    match o
    case Done(st) => r.Live? && StackHas(strict, st.stack, r.tys)
    case Failed(_) => true
    case Panicked(panic) => panic == Incomparable && !strict
  }

  lemma {:induction false} Tail(strict: bool, s: seq<Value>, tys: seq<Ty>, n: nat)
    requires StackHas(strict, s, tys) && n <= |s|
    ensures StackHas(strict, s[n..], tys[n..])
  {
    Window(strict, s, tys, n, |s|);
    assert s[n..|s|] == s[n..] && tys[n..|s|] == tys[n..];
  }

  lemma {:induction false} OnTop(strict: bool, v: Value, t: Ty, s: seq<Value>, tys: seq<Ty>)
    requires HasType(strict, v, t) && StackHas(strict, s, tys)
    ensures StackHas(strict, [v] + s, [t] + tys)
  {
    One(strict, v, t);
    Concat(strict, [v], [t], s, tys);
  }

  lemma {:induction false} SimpleSafe(strict: bool, ctx: Context, op: Op, st: State, tys: seq<Ty>)
    requires StackHas(strict, st.stack, tys) && ContextOk(ctx)
    requires AfterRule(CheckOp(strict, op, tys), tys).Some?
    ensures Safe(strict, RunOp(ctx, op, st), AfterRule(CheckOp(strict, op, tys), tys).value)
  {
    OpSafe(strict, op, ctx, st.stack, tys);
    var e := OpEffect(op, ctx, st.stack);
    if e.after.Next? {
      var push := CheckOp(strict, op, tys).value.push;
      Tail(strict, st.stack, tys, e.after.take);
      Concat(strict, e.after.push, push, st.stack[e.after.take..], tys[e.after.take..]);
    }
  }

  lemma {:induction false} SeqSafe(strict: bool, ctx: Context, code: seq<Instr>, st: State, tys: seq<Ty>)
    requires StackHas(strict, st.stack, tys) && ContextOk(ctx)
    requires CheckSeq(strict, code, tys).Some?
    ensures Safe(strict, InterpSeq(ctx, code, st), CheckSeq(strict, code, tys).value)
    decreases st.gas, code, 0
  {
    if code != [] {
      InstrSafe(strict, ctx, code[0], st, tys);
      var o := Interp(ctx, code[0], st);
      var r := Check(strict, code[0], tys).value;
      if o.Done? {
        SeqSafe(strict, ctx, code[1..], o.state, r.tys);
      }
    }
  }

  lemma {:induction false} InstrSafe(strict: bool, ctx: Context, i: Instr, st: State, tys: seq<Ty>)
    requires StackHas(strict, st.stack, tys) && ContextOk(ctx)
    requires Check(strict, i, tys).Some?
    ensures Safe(strict, Interp(ctx, i, st), Check(strict, i, tys).value)
    decreases st.gas, i, 1
  {
    if i.Simple? {
      SimpleSafe(strict, ctx, i.op, st, tys);
    } else if i.Block? {
      SeqSafe(strict, ctx, i.body, st, tys);
    } else if i.Loop? || i.LoopLeft? {
      if Affordable(STEP, st.gas) {
        LoopSafe(strict, ctx, i.LoopLeft?, i.body, Spend(STEP, st), tys);
      }
    } else if i.Iter? {
      IterInstrSafe(strict, ctx, i.over, i.body, st, tys);
    } else if i.Map? {
      MapSafe(strict, ctx, i.over, i.body, st, tys);
    } else if i.Dip? {
      DipSafe(strict, ctx, i.height, i.body, st, tys);
    } else if i.Exec? {
      if Affordable(STEP, st.gas) {
        assert HasType(strict, st.stack[1], tys[1]);
        Tail(strict, st.stack, tys, 2);
        ExecSafe(strict, ctx, st.stack[1].closure, st.stack[0], tys[1].arg, tys[1].res,
                 Spend(STEP, st).(stack := st.stack[2..]), tys[2..]);
      }
    } else {
      BranchSafe(strict, ctx, i, st, tys);
    }
  }

  /** The branch that is taken has the stack type it was checked against. */
  lemma {:induction false} ChoiceTyped(strict: bool, i: Instr, s: seq<Value>, tys: seq<Ty>)
    requires StackHas(strict, s, tys) && IsBranch(i) && BranchTys(i, tys).Some?
    ensures ChooseBranch(i, s).Some?
    ensures var b := ChooseBranch(i, s).value;
            || (b.code == FirstCode(i) && StackHas(strict, b.stack, BranchTys(i, tys).value.0))
            || (b.code == SecondCode(i) && StackHas(strict, b.stack, BranchTys(i, tys).value.1))
  {
    assert HasType(strict, s[0], tys[0]);
    Tail(strict, s, tys, 1);
    var v, t := s[0], tys[0];
    if i.IfNone? && v.VSome? {
      OnTop(strict, v.inner, t.elem, s[1..], tys[1..]);
    } else if i.IfCons? && v.elems != [] {
      ListTail(strict, v.elems, t.elem);
      OnTop(strict, VList(v.elems[1..]), t, s[1..], tys[1..]);
      OnTop(strict, v.elems[0], t.elem, [VList(v.elems[1..])] + s[1..], [t] + tys[1..]);
      assert [v.elems[0], VList(v.elems[1..])] + s[1..] == [v.elems[0]] + ([VList(v.elems[1..])] + s[1..]);
      assert [t] + tys[1..] == tys;
    } else if i.IfLeft? {
      OnTop(strict, v.inner, if v.VLeft? then t.left else t.right, s[1..], tys[1..]);
    }
  }

  lemma {:induction false} ListTail(strict: bool, vs: seq<Value>, t: Ty)
    requires AllHave(strict, vs, t) && vs != []
    ensures HasType(strict, vs[0], t) && AllHave(strict, vs[1..], t)
  {
    forall i | 0 <= i < |vs[1..]| ensures HasType(strict, vs[1..][i], t) {
      assert vs[1..][i] == vs[i + 1];
    }
  }

  lemma {:induction false} BranchSafe(strict: bool, ctx: Context, i: Instr, st: State, tys: seq<Ty>)
    requires StackHas(strict, st.stack, tys) && ContextOk(ctx)
    requires IsBranch(i) && Check(strict, i, tys).Some?
    ensures Safe(strict, Interp(ctx, i, st), Check(strict, i, tys).value)
    decreases st.gas, i, 0
  {
    if Affordable(STEP, st.gas) {
      ChoiceTyped(strict, i, st.stack, tys);
      var b := ChooseBranch(i, st.stack).value;
      var next := Spend(STEP, st).(stack := b.stack);
      var (first, second) := BranchTys(i, tys).value;
      if b.code == FirstCode(i) && StackHas(strict, b.stack, first) {
        SeqSafe(strict, ctx, b.code, next, first);
      } else {
        SeqSafe(strict, ctx, b.code, next, second);
      }
    }
  }

  /** The stack types with which the body of a loop starts, and with which the loop is left. */
  function LoopBodyTys(left: bool, tys: seq<Ty>): seq<Ty>
    requires tys != [] && if left then tys[0].TOr? else tys[0] == TBool
  {
    if left then [tys[0].left] + tys[1..] else tys[1..]
  }

  function LoopExitTys(left: bool, tys: seq<Ty>): seq<Ty>
    requires tys != [] && if left then tys[0].TOr? else tys[0] == TBool
  {
    if left then [tys[0].right] + tys[1..] else tys[1..]
  }

  lemma {:induction false} HeadTyped(strict: bool, left: bool, s: seq<Value>, tys: seq<Ty>)
    requires StackHas(strict, s, tys)
    requires tys != [] && if left then tys[0].TOr? else tys[0] == TBool
    ensures LoopHead(left, s).Some?
    ensures match LoopHead(left, s).value
            case Again(t) => StackHas(strict, t, LoopBodyTys(left, tys))
            case Leave(t) => StackHas(strict, t, LoopExitTys(left, tys))
  {
    assert HasType(strict, s[0], tys[0]);
    Tail(strict, s, tys, 1);
    if left {
      OnTop(strict, s[0].inner, if s[0].VLeft? then tys[0].left else tys[0].right, s[1..], tys[1..]);
    }
  }

  lemma {:induction false} LoopSafe(strict: bool, ctx: Context, left: bool, body: seq<Instr>, st: State, tys: seq<Ty>)
    requires StackHas(strict, st.stack, tys) && ContextOk(ctx)
    requires tys != [] && if left then tys[0].TOr? else tys[0] == TBool
    requires Unify(CheckSeq(strict, body, LoopBodyTys(left, tys)), Some(Live(tys))).Some?
    ensures Safe(strict, LoopRun(ctx, left, body, st), Live(LoopExitTys(left, tys)))
    decreases st.gas, body, 1
  {
    if Affordable(STEP, st.gas) {
      HeadTyped(strict, left, st.stack, tys);
      match LoopHead(left, st.stack).value
      case Leave(s) =>
      case Again(s) =>
        var next := Spend(STEP, st).(stack := s);
        SeqSafe(strict, ctx, body, next, LoopBodyTys(left, tys));
        var o := InterpSeq(ctx, body, next);
        if o.Done? { LoopSafe(strict, ctx, left, body, o.state, tys); }
    }
  }

  /** The items of a container have the type that the body was checked against. */
  lemma {:induction false} ItemsTyped(strict: bool, over: Container, v: Value, t: Ty)
    requires HasType(strict, v, t) && ItemTy(over, t).Some?
    ensures Items(over, v).Some? && AllHave(strict, Items(over, v).value, ItemTy(over, t).value)
  {
    if over.OverMap? {
      forall i | 0 <= i < |v.entries|
        ensures HasType(strict, VPair(v.entries[i].key, v.entries[i].val), TPair(t.key, t.val))
      {
        assert EntryHas(strict, v.entries[i], t.key, t.val);
      }
    }
  }

  lemma {:induction false} IterInstrSafe(strict: bool, ctx: Context, over: Container, body: seq<Instr>,
                                         st: State, tys: seq<Ty>)
    requires StackHas(strict, st.stack, tys) && ContextOk(ctx)
    requires Check(strict, Iter(over, body), tys).Some?
    ensures Safe(strict, Interp(ctx, Iter(over, body), st), Check(strict, Iter(over, body), tys).value)
    decreases st.gas, body, 2
  {
    if Affordable(ITER, st.gas) {
      assert HasType(strict, st.stack[0], tys[0]);
      ItemsTyped(strict, over, st.stack[0], tys[0]);
      Tail(strict, st.stack, tys, 1);
      IterSafe(strict, ctx, body, Items(over, st.stack[0]).value, ItemTy(over, tys[0]).value,
               Spend(ITER, st).(stack := st.stack[1..]), tys[1..]);
    }
  }

  lemma {:induction false} IterSafe(strict: bool, ctx: Context, body: seq<Instr>, items: seq<Value>, t: Ty,
                                    st: State, tys: seq<Ty>)
    requires StackHas(strict, st.stack, tys) && ContextOk(ctx) && AllHave(strict, items, t)
    requires Unify(Some(Live(tys)), CheckSeq(strict, body, [t] + tys)).Some?
    ensures Safe(strict, IterRun(ctx, body, items, st), Live(tys))
    decreases st.gas, body, 1
  {
    if items != [] && Affordable(STEP, st.gas) {
      ListTail(strict, items, t);
      OnTop(strict, items[0], t, st.stack, tys);
      var next := Spend(STEP, st).(stack := [items[0]] + st.stack);
      SeqSafe(strict, ctx, body, next, [t] + tys);
      var o := InterpSeq(ctx, body, next);
      if o.Done? { IterSafe(strict, ctx, body, items[1..], t, o.state, tys); }
    }
  }

  lemma {:induction false} Snoc(strict: bool, vs: seq<Value>, v: Value, t: Ty)
    requires AllHave(strict, vs, t) && HasType(strict, v, t)
    ensures AllHave(strict, vs + [v], t)
  {
  }

  lemma {:induction false} MapRunSafe(strict: bool, ctx: Context, body: seq<Instr>, items: seq<Value>,
                                      done: seq<Value>, t: Ty, u: Ty, st: State, tys: seq<Ty>)
    requires StackHas(strict, st.stack, tys) && ContextOk(ctx)
    requires AllHave(strict, items, t) && AllHave(strict, done, u)
    requires CheckSeq(strict, body, [t] + tys) == Some(Live([u] + tys))
    ensures Safe(strict, MapRun(ctx, body, items, done, st), Live([TList(u)] + tys))
    decreases st.gas, body, 1
  {
    if items == [] {
      OnTop(strict, VList(done), TList(u), st.stack, tys);
    } else if Affordable(STEP, st.gas) {
      ListTail(strict, items, t);
      OnTop(strict, items[0], t, st.stack, tys);
      var next := Spend(STEP, st).(stack := [items[0]] + st.stack);
      SeqSafe(strict, ctx, body, next, [t] + tys);
      var o := InterpSeq(ctx, body, next);
      if o.Done? {
        var top := o.state.stack[0];
        assert HasType(strict, top, ([u] + tys)[0]);
        Snoc(strict, done, top, u);
        Tail(strict, o.state.stack, [u] + tys, 1);
        assert ([u] + tys)[1..] == tys;
        MapRunSafe(strict, ctx, body, items[1..], done + [top], t, u, o.state.(stack := o.state.stack[1..]), tys);
      }
    }
  }

  /** MAP keeps the keys of a map, so the result is sorted as the original was. */
  lemma {:induction false} RebuildTyped(strict: bool, over: Container, v: Value, t: Ty, results: seq<Value>, u: Ty)
    requires HasType(strict, v, t) && ItemTy(over, t).Some? && AllHave(strict, results, u)
    requires Items(over, v).Some? && |Items(over, v).value| == |results|
    ensures HasType(strict, Rebuild(over, v, results), RebuildTy(over, t, u))
  {
    if over.OverMap? {
      var m := WithValues(v.entries, results);
      forall i | 0 <= i < |m| ensures EntryHas(strict, m[i], t.key, u) {
        assert EntryHas(strict, v.entries[i], t.key, t.val);
        assert HasType(strict, results[i], u);
      }
      assert Sorted(m);
    } else if over.OverOption? && results != [] {
      assert HasType(strict, results[0], u);
    }
  }

  lemma {:induction false} MapSafe(strict: bool, ctx: Context, over: Container, body: seq<Instr>,
                                   st: State, tys: seq<Ty>)
    requires StackHas(strict, st.stack, tys) && ContextOk(ctx)
    requires Check(strict, Map(over, body), tys).Some?
    ensures Safe(strict, RunMap(ctx, over, body, st), Check(strict, Map(over, body), tys).value)
    decreases st.gas, body, 2
  {
    if Affordable(MapEntryCost(over), st.gas) {
      var v, t := st.stack[0], tys[0];
      assert HasType(strict, v, t);
      ItemsTyped(strict, over, v, t);
      Tail(strict, st.stack, tys, 1);
      var next := Spend(MapEntryCost(over), st).(stack := st.stack[1..]);
      var items := Items(over, v).value;
      var out := CheckSeq(strict, body, [ItemTy(over, t).value] + tys[1..]).value.tys;
      assert out == [out[0]] + tys[1..];
      MapRunSafe(strict, ctx, body, items, [], ItemTy(over, t).value, out[0], next, tys[1..]);
      var o := MapRun(ctx, body, items, [], next);
      if o.Done? {
        var listTys := [TList(out[0])] + tys[1..];
        assert HasType(strict, o.state.stack[0], listTys[0]);
        RebuildTyped(strict, over, v, t, o.state.stack[0].elems, out[0]);
        Tail(strict, o.state.stack, listTys, 1);
        assert listTys[1..] == tys[1..];
        OnTop(strict, Rebuild(over, v, o.state.stack[0].elems), RebuildTy(over, t, out[0]),
              o.state.stack[1..], tys[1..]);
      }
    }
  }

  lemma {:induction false} DipSafe(strict: bool, ctx: Context, height: Option<nat>, body: seq<Instr>,
                                   st: State, tys: seq<Ty>)
    requires StackHas(strict, st.stack, tys) && ContextOk(ctx)
    requires Check(strict, Dip(height, body), tys).Some?
    ensures Safe(strict, RunDip(ctx, height, body, st), Check(strict, Dip(height, body), tys).value)
    decreases st.gas, body, 1
  {
    var n := Height(height);
    if Affordable(DipCost(height), st.gas) {
      Tail(strict, st.stack, tys, n);
      Window(strict, st.stack, tys, 0, n);
      var next := Spend(DipCost(height), st).(stack := st.stack[n..]);
      SeqSafe(strict, ctx, body, next, tys[n..]);
      var o := InterpSeq(ctx, body, next);
      if o.Done? {
        var out := CheckSeq(strict, body, tys[n..]).value.tys;
        Concat(strict, st.stack[..n], tys[..n], o.state.stack, out);
      }
    }
  }

  lemma {:induction false} ExecSafe(strict: bool, ctx: Context, c: Closure, arg: Value, a: Ty, b: Ty,
                                    st: State, tys: seq<Ty>)
    requires StackHas(strict, st.stack, tys) && ContextOk(ctx)
    requires ClosureHas(strict, c, a, b) && HasType(strict, arg, a)
    ensures Safe(strict, ExecRun(ctx, c, arg, st), Live([b] + tys))
    decreases st.gas, c, 0
  {
    if c.Applied? {
      if Affordable(STEP, st.gas) {
        ExecSafe(strict, ctx, c.inner, VPair(c.arg, arg), TPair(c.argTy, a), b, Spend(STEP, st), tys);
      }
    } else {
      var own := if c.Recursive? then [arg, VLambda(c)] else [arg];
      var ownTys := if c.Recursive? then [a, TLambda(a, b)] else [a];
      if c.Recursive? {
        Two(strict, arg, VLambda(c), a, TLambda(a, b));
      } else {
        One(strict, arg, a);
      }
      SeqSafe(strict, ctx, c.code, st.(stack := own), ownTys);
      var o := InterpSeq(ctx, c.code, st.(stack := own));
      if o.Done? {
        assert HasType(strict, o.state.stack[0], [b][0]);
        OnTop(strict, o.state.stack[0], b, st.stack, tys);
      }
    }
  }
}
