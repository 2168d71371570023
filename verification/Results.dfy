/** What the theorems say about programs, and the two places where the source's own rules are not enough. */
module Results {
  import opened Syntax
  import opened Ops
  import opened Interpreter
  import opened Typechecker
  import opened OpSafety
  import opened Tickets
  import opened Conservation
  import opened Absence
  import opened GasIndependence

  /**
   * A run that finishes within some limit finishes in the same way within any larger one, and it finishes within a
   * smaller one exactly when what it leaves over covers the difference.
   */
  lemma {:induction false} MoreGas(ctx: Context, code: seq<Instr>, st: State, k: nat)
    ensures var less, more := InterpSeq(ctx, code, st), InterpSeq(ctx, code, st.(gas := st.gas + k));
            && (less.Done? ==> more == Done(less.state.(gas := less.state.gas + k)))
            && (!less.Done? && less != Failed(OutOfGas) ==> more == less)
            && (more.Done? ==> (less.Done? <==> more.state.gas >= k))
            && (more == Failed(OutOfGas) ==> less == Failed(OutOfGas))
  {
    var more := st.(gas := st.gas + k);
    SeqLowered(ctx, code, more, k);
    assert Lower(more, k) == st;
  }

  // ---- the strict rules restrict the source's rules ----

  lemma {:induction false} StrictSeq(code: seq<Instr>, tys: seq<Ty>)
    requires CheckSeq(true, code, tys).Some?
    ensures CheckSeq(false, code, tys) == CheckSeq(true, code, tys)
    decreases code, 0
  {
    if code != [] {
      StrictInstr(code[0], tys);
      var r := Check(true, code[0], tys).value;
      if r.Live? { StrictSeq(code[1..], r.tys); }
    }
  }

  lemma {:induction false} StrictInstr(i: Instr, tys: seq<Ty>)
    requires Check(true, i, tys).Some?
    ensures Check(false, i, tys) == Check(true, i, tys)
    decreases i, 1
  {
    if i.Simple? {
      StrictOp(i.op, tys);
    } else if i.Block? {
      StrictSeq(i.body, tys);
    } else if i.Loop? {
      StrictSeq(i.body, tys[1..]);
    } else if i.LoopLeft? {
      StrictSeq(i.body, [tys[0].left] + tys[1..]);
    } else if i.Iter? || i.Map? {
      StrictSeq(i.body, [ItemTy(i.over, tys[0]).value] + tys[1..]);
    } else if i.Dip? {
      StrictSeq(i.body, tys[Height(i.height)..]);
    } else if IsBranch(i) {
      var (a, b) := BranchTys(i, tys).value;
      StrictSeq(FirstCode(i), a);
      StrictSeq(SecondCode(i), b);
    }
  }

  lemma {:induction false} StrictOp(op: Op, tys: seq<Ty>)
    requires CheckOp(true, op, tys).Some?
    ensures CheckOp(false, op, tys) == CheckOp(true, op, tys)
    decreases op
  {
    if op.OnStack? {
      StrictStack(op.stackOp, tys);
    } else if op.OnLinear? {
      StrictLinear(op.linearOp, tys);
    }
  }

  lemma {:induction false} StrictStack(op: StackOp, tys: seq<Ty>)
    requires CheckStack(true, op, tys).Some?
    ensures CheckStack(false, op, tys) == CheckStack(true, op, tys)
    decreases op
  {
    if op.Push? { StrictValue(op.value, op.ty); }
  }

  lemma {:induction false} StrictLinear(op: LinearOp, tys: seq<Ty>)
    requires CheckLinear(true, op, tys).Some?
    ensures CheckLinear(false, op, tys) == CheckLinear(true, op, tys)
    decreases op
  {
    if op.MkLambda? { StrictClosure(op.lambda, op.arg, op.res); }
  }

  lemma {:induction false} StrictValue(v: Value, t: Ty)
    requires HasType(true, v, t)
    ensures HasType(false, v, t)
    decreases v
  {
    match v
    case VPair(x, y) => StrictValue(x, t.fst); StrictValue(y, t.snd);
    case VSome(x) => StrictValue(x, t.elem);
    case VLeft(x) => StrictValue(x, t.left);
    case VRight(x) => StrictValue(x, t.right);
    case VList(vs) => forall i | 0 <= i < |vs| ensures HasType(false, vs[i], t.elem) { StrictValue(vs[i], t.elem); }
    case VMap(m) =>
      forall i | 0 <= i < |m| ensures EntryHas(false, m[i], t.key, t.val) { StrictEntry(m[i], t.key, t.val); }
    case VLambda(c) => StrictClosure(c, t.arg, t.res);
    case VTicket(x) => StrictValue(x.content, t.content);
    case _ =>
  }

  lemma {:induction false} StrictEntry(e: Entry, k: Ty, t: Ty)
    requires EntryHas(true, e, k, t)
    ensures EntryHas(false, e, k, t)
    decreases e
  {
    StrictValue(e.key, k);
    StrictValue(e.val, t);
  }

  lemma {:induction false} StrictClosure(c: Closure, a: Ty, b: Ty)
    requires ClosureHas(true, c, a, b)
    ensures ClosureHas(false, c, a, b)
    decreases c
  {
    match c
    case Plain(code) => StrictSeq(code, [a]);
    case Recursive(code) => StrictSeq(code, [a, TLambda(a, b)]);
    case Applied(t, x, inner) => StrictValue(x, t); StrictClosure(inner, TPair(t, a), b);
  }

  // ---- tickets ----

  /** The amount of tickets of one kind. */
  function AmountOf(ticketer: nat, content: Value): Weight {
    (t: Ticket) => if t.ticketer == ticketer && t.content == content then t.amount else 0
  }

  /** The number of tickets with amount 0. */
  function ZeroTickets(): Weight {
    (t: Ticket) => if t.amount == 0 then 1 else 0
  }

  /** In any run, typed or not, the tickets of another ticketer grow by no more than what was copied of them. */
  lemma {:induction false} ForeignGrowthIsCopied(
      ctx: Context, code: seq<Instr>, st: State, ticketer: nat, content: Value)
    requires ticketer != ctx.self
    ensures var w, o := AmountOf(ticketer, content), InterpSeq(ctx, code, st);
            o.Done? ==> TotalSeq(w, o.state.stack) <= TotalSeq(w, st.stack) + CopiedSeq(w, ctx, code, st)
  {
    hide InterpSeq, CopiedSeq, TotalSeq, TotalMinted;
    var w, o := AmountOf(ticketer, content), InterpSeq(ctx, code, st);
    SeqLedger(w, ctx, code, st);
    if o.Done? { MintedFree(w, ctx.self, st.minted, o.state.minted); }
  }

  /** The amount of one kind of ticket grows by no more than what TICKET made of that kind. */
  lemma {:induction false} TicketsConserved(ctx: Context, code: seq<Instr>, st: State, tys: seq<Ty>,
                                            ticketer: nat, content: Value)
    requires StackHas(true, st.stack, tys) && ContextOk(ctx) && CheckSeq(true, code, tys).Some?
    ensures var w, o := AmountOf(ticketer, content), InterpSeq(ctx, code, st);
            o.Done? ==> TotalSeq(w, o.state.stack) + TotalMinted(w, st.minted)
                        <= TotalSeq(w, st.stack) + TotalMinted(w, o.state.minted)
  {
    SeqAccounted(AmountOf(ticketer, content), ctx, code, st, tys);
  }

  /** Tickets of other ticketers never grow. */
  lemma {:induction false} ForeignTicketsNeverGrow(ctx: Context, code: seq<Instr>, st: State, tys: seq<Ty>,
                                                   ticketer: nat, content: Value)
    requires StackHas(true, st.stack, tys) && ContextOk(ctx) && CheckSeq(true, code, tys).Some?
    requires ticketer != ctx.self
    ensures var w, o := AmountOf(ticketer, content), InterpSeq(ctx, code, st);
            o.Done? ==> TotalSeq(w, o.state.stack) <= TotalSeq(w, st.stack)
  {
    hide InterpSeq, CheckSeq, StackHas, TotalSeq, TotalMinted;
    var w, o := AmountOf(ticketer, content), InterpSeq(ctx, code, st);
    SeqAccounted(w, ctx, code, st, tys);
    if o.Done? { MintedFree(w, ctx.self, st.minted, o.state.minted); }
  }

  /** In any run, typed or not, that copies no ticket of amount 0, none appears. */
  lemma {:induction false} PositiveUnlessCopied(ctx: Context, code: seq<Instr>, st: State)
    requires TotalSeq(ZeroTickets(), st.stack) == 0 && CopiedSeq(ZeroTickets(), ctx, code, st) == 0
    ensures var o := InterpSeq(ctx, code, st); o.Done? ==> TotalSeq(ZeroTickets(), o.state.stack) == 0
  {
    hide InterpSeq, CopiedSeq, TotalSeq, TotalMinted;
    var w, o := ZeroTickets(), InterpSeq(ctx, code, st);
    SeqLedger(w, ctx, code, st);
    if o.Done? { StillAbsent(w, ctx.self, 0, st.minted, o); }
  }

  /** In any run, typed or not: if no ticket of amount 0 is on the stack or in the program then none ever appears. */
  lemma {:induction false} AmountsStayPositive(ctx: Context, code: seq<Instr>, st: State)
    requires TotalSeq(ZeroTickets(), st.stack) == 0 && TotalCode(ZeroTickets(), code) == 0
    ensures CopiedSeq(ZeroTickets(), ctx, code, st) == 0
    ensures var o := InterpSeq(ctx, code, st); o.Done? ==> TotalSeq(ZeroTickets(), o.state.stack) == 0
  {
    hide InterpSeq, CopiedSeq, TotalSeq, TotalCode;
    SeqAbsent(ZeroTickets(), ctx, code, st);
  }

  /**
   * For programs that the source's rules accept: every program that ends keeps the amounts positive if and only if they
   * are positive on the stack it starts from.
   */
  lemma {:induction false} PositiveExactly(ctx: Context, st: State, tys: seq<Ty>)
    requires Affordable(INTERPRET_RET, st.gas)
    ensures (forall code: seq<Instr> :: Keeps(ctx, code, st, tys)) <==> TotalSeq(ZeroTickets(), st.stack) == 0
  {
    hide TotalSeq, Interp, Check;
    var none: seq<Instr> := [];
    assert InterpSeq(ctx, none, st).state.stack == st.stack;
    assert Keeps(ctx, none, st, tys) ==> TotalSeq(ZeroTickets(), st.stack) == 0;
    if TotalSeq(ZeroTickets(), st.stack) == 0 {
      forall code: seq<Instr> ensures Keeps(ctx, code, st, tys) { CheckedPositive(ctx, code, st, tys); }
    }
  }

  ghost predicate Keeps(ctx: Context, code: seq<Instr>, st: State, tys: seq<Ty>) {
    CheckSeq(false, code, tys).Some? && InterpSeq(ctx, code, st).Done? ==>
      TotalSeq(ZeroTickets(), InterpSeq(ctx, code, st).state.stack) == 0
  }

  lemma {:induction false} CheckedPositive(ctx: Context, code: seq<Instr>, st: State, tys: seq<Ty>)
    requires TotalSeq(ZeroTickets(), st.stack) == 0
    ensures Keeps(ctx, code, st, tys)
  {
    hide InterpSeq, CheckSeq, TotalSeq, TotalCode;
    if CheckSeq(false, code, tys).Some? {
      NoTicketsCode(ZeroTickets(), false, code, tys);
      AmountsStayPositive(ctx, code, st);
    }
  }

  /** Under the source's rules too, a kind of foreign ticket that is not on the stack never appears there. */
  lemma {:induction false} ForeignTicketsNeverAppear(
      ctx: Context, code: seq<Instr>, st: State, tys: seq<Ty>, ticketer: nat, content: Value)
    requires CheckSeq(false, code, tys).Some? && ticketer != ctx.self
    requires TotalSeq(AmountOf(ticketer, content), st.stack) == 0
    ensures var w, o := AmountOf(ticketer, content), InterpSeq(ctx, code, st);
            o.Done? ==> TotalSeq(w, o.state.stack) == 0
  {
    hide InterpSeq, CheckSeq, TotalSeq, TotalCode;
    var w := AmountOf(ticketer, content);
    NoTicketsCode(w, false, code, tys);
    SeqAbsent(w, ctx, code, st);
  }
}
