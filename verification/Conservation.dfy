/**
 * Tickets over whole runs.  In every run the weight of the tickets on the stack grows by no more than the tickets that
 * TICKET made and the copies that were taken weigh; under the strict rules no copies are taken.
 */
module Conservation {
  import opened Syntax
  import opened Costs
  import opened Ops
  import opened Interpreter
  import opened Typechecker
  import opened OpSafety
  import opened TypeSafety
  import opened Tickets

  // ---- the copies taken by a run ----

  function CopiedSeq(w: Weight, ctx: Context, code: seq<Instr>, st: State): nat
    decreases st.gas, code, 0
  {
    if code == [] then 0
    else
      CopiedBy(w, ctx, code[0], st) +
      match Interp(ctx, code[0], st)
      case Done(next) => CopiedSeq(w, ctx, code[1..], next)
      case _ => 0
  }

  function CopiedBy(w: Weight, ctx: Context, i: Instr, st: State): nat
    decreases st.gas, i, 1
  {
    match i
    case Simple(op) => Copied(w, op, st.stack)
    case Block(body) => CopiedSeq(w, ctx, body, st)
    case Loop(body) => if Affordable(STEP, st.gas) then CopiedLoop(w, ctx, false, body, Spend(STEP, st)) else 0
    case LoopLeft(body) => if Affordable(STEP, st.gas) then CopiedLoop(w, ctx, true, body, Spend(STEP, st)) else 0
    case Iter(over, body) =>
      if Affordable(ITER, st.gas) && st.stack != [] && Items(over, st.stack[0]).Some?
      then CopiedIter(w, ctx, body, Items(over, st.stack[0]).value, Spend(ITER, st).(stack := st.stack[1..]))
      else 0
    case Map(over, body) =>
      if Affordable(MapEntryCost(over), st.gas) && st.stack != [] && Items(over, st.stack[0]).Some?
      then KeysTwice(w, over, st.stack[0]) +
           CopiedMap(w, ctx, body, Items(over, st.stack[0]).value,
                     Spend(MapEntryCost(over), st).(stack := st.stack[1..]))
      else 0
    case Dip(height, body) =>
      if Affordable(DipCost(height), st.gas) && Height(height) <= |st.stack|
      then CopiedSeq(w, ctx, body, Spend(DipCost(height), st).(stack := st.stack[Height(height)..]))
      else 0
    case Exec =>
      if Affordable(STEP, st.gas) && |st.stack| >= 2 && st.stack[1].VLambda?
      then CopiedExec(w, ctx, st.stack[1].closure, st.stack[0], Spend(STEP, st).(stack := st.stack[2..]))
      else 0
    case _ =>
      if Affordable(STEP, st.gas) && ChooseBranch(i, st.stack).Some?
      then var b := ChooseBranch(i, st.stack).value;
           CopiedSeq(w, ctx, b.code, Spend(STEP, st).(stack := b.stack))
      else 0
  }

  function CopiedLoop(w: Weight, ctx: Context, left: bool, body: seq<Instr>, st: State): nat
    decreases st.gas, body, 1
  {
    if !Affordable(STEP, st.gas) then 0
    else
      match LoopHead(left, st.stack)
      case Some(Again(s)) =>
        var next := Spend(STEP, st).(stack := s);
        CopiedSeq(w, ctx, body, next) +
        (match InterpSeq(ctx, body, next)
         case Done(after) => CopiedLoop(w, ctx, left, body, after)
         case _ => 0)
      case _ => 0
  }

  function CopiedIter(w: Weight, ctx: Context, body: seq<Instr>, items: seq<Value>, st: State): nat
    decreases st.gas, body, 1
  {
    if items == [] || !Affordable(STEP, st.gas) then 0
    else
      var next := Spend(STEP, st).(stack := [items[0]] + st.stack);
      CopiedSeq(w, ctx, body, next) +
      match InterpSeq(ctx, body, next)
      case Done(after) => CopiedIter(w, ctx, body, items[1..], after)
      case _ => 0
  }

  function CopiedMap(w: Weight, ctx: Context, body: seq<Instr>, items: seq<Value>, st: State): nat
    decreases st.gas, body, 1
  {
    if items == [] || !Affordable(STEP, st.gas) then 0
    else
      var next := Spend(STEP, st).(stack := [items[0]] + st.stack);
      CopiedSeq(w, ctx, body, next) +
      match InterpSeq(ctx, body, next)
      case Done(after) =>
        if after.stack == [] then 0
        else CopiedMap(w, ctx, body, items[1..], after.(stack := after.stack[1..]))
      case _ => 0
  }

  function CopiedExec(w: Weight, ctx: Context, c: Closure, arg: Value, st: State): nat
    decreases st.gas, c, 0
  {
    if c.Applied? then
      if Affordable(STEP, st.gas) then CopiedExec(w, ctx, c.inner, VPair(c.arg, arg), Spend(STEP, st)) else 0
    else CopiedSeq(w, ctx, c.code, st.(stack := if c.Recursive? then [arg, VLambda(c)] else [arg]))
  }

  /** MAP over a map hands the keys to its body and keeps them in the map. */
  function KeysTwice(w: Weight, over: Container, v: Value): nat {
    if over.OverMap? && v.VMap? then TotalKeys(w, v.entries) else 0
  }

  function TotalKeys(w: Weight, m: seq<Entry>): nat {
    if m == [] then 0 else Total(w, m[0].key) + TotalKeys(w, m[1..])
  }

  // ---- the ledger of a run ----

  /** The log grows at its end, by positive amounts under the contract's own name. */
  ghost predicate Logged(self: nat, before: seq<Ticket>, after: seq<Ticket>) {
    && before <= after
    && forall i :: |before| <= i < |after| ==> after[i].ticketer == self && after[i].amount > 0
  }

  /** A run that had `budget` on its hands when the log was `minted`. */
  ghost predicate Accounted(w: Weight, self: nat, budget: nat, minted: seq<Ticket>, o: Outcome) {
    o.Done? ==>
      && TotalSeq(w, o.state.stack) + TotalMinted(w, minted) <= budget + TotalMinted(w, o.state.minted)
      && Logged(self, minted, o.state.minted)
  }

  lemma {:induction false} MintedAppend(w: Weight, a: seq<Ticket>, b: seq<Ticket>)
    ensures TotalMinted(w, a + b) == TotalMinted(w, a) + TotalMinted(w, b)
  {
    if b == [] {
      assert a + b == a;
    } else {
      var c := b[..|b| - 1];
      MintedAppend(w, a, c);
      assert (a + b)[..|a + b| - 1] == a + c;
    }
  }

  /** Only TICKET mints, and it mints positive amounts under the contract's own name. */
  lemma {:induction false} MintedBySelf(op: Op, ctx: Context, s: seq<Value>)
    ensures var after := OpEffect(op, ctx, s).after;
            after.Next? ==>
              || after.minted == []
              || (|after.minted| == 1 && after.minted[0].ticketer == ctx.self && after.minted[0].amount > 0)
  {
    match op
    case OnStack(o) => assert StackEffect(o, s).after.Next? ==> StackEffect(o, s).after.minted == [];
    case OnPair(o) => assert PairEffect(o, s).after.Next? ==> PairEffect(o, s).after.minted == [];
    case OnNum(o) => assert NumEffect(o, ctx, s).after.Next? ==> NumEffect(o, ctx, s).after.minted == [];
    case OnData(o) => assert DataEffect(o, s).after.Next? ==> DataEffect(o, s).after.minted == [];
    case OnLinear(o) =>
  }

  lemma {:induction false} StepAccounted(
      w: Weight, self: nat, s: seq<Value>, minted: seq<Ticket>, after: After, copied: nat)
    requires after.Next? && after.take <= |s|
    requires TotalSeq(w, after.push) <= TotalSeq(w, s[..after.take]) + TotalMinted(w, after.minted) + copied
    requires || after.minted == []
             || (|after.minted| == 1 && after.minted[0].ticketer == self && after.minted[0].amount > 0)
    ensures TotalSeq(w, after.push + s[after.take..]) + TotalMinted(w, minted)
            <= TotalSeq(w, s) + copied + TotalMinted(w, minted + after.minted)
    ensures Logged(self, minted, minted + after.minted)
  {
    TotalSplit(w, s, after.take);
    TotalAppend(w, after.push, s[after.take..]);
    MintedAppend(w, minted, after.minted);
  }

  lemma {:induction false} SimpleLedger(w: Weight, ctx: Context, op: Op, st: State)
    requires Fair(w)
    ensures Accounted(w, ctx.self, TotalSeq(w, st.stack) + Copied(w, op, st.stack), st.minted, RunOp(ctx, op, st))
  {
    OpLedger(w, op, ctx, st.stack);
    var e := OpEffect(op, ctx, st.stack);
    MintedBySelf(op, ctx, st.stack);
    if e.after.Next? { StepAccounted(w, ctx.self, st.stack, st.minted, e.after, Copied(w, op, st.stack)); }
  }

  /** For every program and every stack: what a run adds is accounted for by minting and copying. */
  lemma {:induction false} SeqLedger(w: Weight, ctx: Context, code: seq<Instr>, st: State)
    requires Fair(w)
    ensures Accounted(w, ctx.self, TotalSeq(w, st.stack) + CopiedSeq(w, ctx, code, st), st.minted,
                      InterpSeq(ctx, code, st))
    decreases st.gas, code, 0
  {
    hide Interp, CopiedBy, TotalSeq, Fair;
    if code != [] {
      InstrLedger(w, ctx, code[0], st);
      var o := Interp(ctx, code[0], st);
      if o.Done? { SeqLedger(w, ctx, code[1..], o.state); }
    }
  }

  lemma {:induction false} InstrLedger(w: Weight, ctx: Context, i: Instr, st: State)
    requires Fair(w)
    ensures Accounted(w, ctx.self, TotalSeq(w, st.stack) + CopiedBy(w, ctx, i, st), st.minted, Interp(ctx, i, st))
    decreases st.gas, i, 1
  {
    hide InterpSeq, TotalSeq, OpEffect, Items, ChooseBranch, Copied, Fair;
    if i.Simple? {
      SimpleLedger(w, ctx, i.op, st);
    } else if i.Block? {
      SeqLedger(w, ctx, i.body, st);
    } else if i.Loop? || i.LoopLeft? {
      if Affordable(STEP, st.gas) { LoopLedger(w, ctx, i.LoopLeft?, i.body, Spend(STEP, st)); }
    } else if i.Iter? {
      IterInstrLedger(w, ctx, i.over, i.body, st);
    } else if i.Map? {
      MapLedger(w, ctx, i.over, i.body, st);
    } else if i.Dip? {
      DipLedger(w, ctx, i.height, i.body, st);
    } else if i.Exec? {
      ExecInstrLedger(w, ctx, st);
    } else if Affordable(STEP, st.gas) && ChooseBranch(i, st.stack).Some? {
      ChoiceTotal(w, i, st.stack);
      var b := ChooseBranch(i, st.stack).value;
      SeqLedger(w, ctx, b.code, Spend(STEP, st).(stack := b.stack));
    }
  }

  lemma {:induction false} TopTotal(w: Weight, s: seq<Value>)
    requires s != []
    ensures TotalSeq(w, s) == Total(w, s[0]) + TotalSeq(w, s[1..])
  {
  }

  lemma {:induction false} ChoiceTotal(w: Weight, i: Instr, s: seq<Value>)
    requires IsBranch(i) && ChooseBranch(i, s).Some?
    ensures TotalSeq(w, ChooseBranch(i, s).value.stack) == TotalSeq(w, s)
  {
    TopTotal(w, s);
    if s[0].VSome? || s[0].VLeft? || s[0].VRight? {
      TotalCons(w, s[0].inner, s[1..]);
    } else if s[0].VList? && s[0].elems != [] {
      var tail := VList(s[0].elems[1..]);
      TotalAppend(w, [s[0].elems[0], tail], s[1..]);
      TotalTwo(w, s[0].elems[0], tail);
    }
  }

  lemma {:induction false} HeadTotal(w: Weight, left: bool, s: seq<Value>)
    requires LoopHead(left, s).Some?
    ensures TotalSeq(w, LoopHead(left, s).value.stack) == TotalSeq(w, s)
  {
    TopTotal(w, s);
    if left { TotalCons(w, s[0].inner, s[1..]); }
  }

  lemma {:induction false} LoopLedger(w: Weight, ctx: Context, left: bool, body: seq<Instr>, st: State)
    requires Fair(w)
    ensures Accounted(w, ctx.self, TotalSeq(w, st.stack) + CopiedLoop(w, ctx, left, body, st), st.minted,
                      LoopRun(ctx, left, body, st))
    decreases st.gas, body, 1
  {
    hide InterpSeq, CopiedSeq, TotalSeq, LoopHead, Fair;
    if Affordable(STEP, st.gas) && LoopHead(left, st.stack).Some? {
      HeadTotal(w, left, st.stack);
      var turn := LoopHead(left, st.stack).value;
      if turn.Again? {
        var next := Spend(STEP, st).(stack := turn.stack);
        SeqLedger(w, ctx, body, next);
        var o := InterpSeq(ctx, body, next);
        if o.Done? { LoopLedger(w, ctx, left, body, o.state); }
      }
    }
  }

  lemma {:induction false} PairsTotal(w: Weight, m: seq<Entry>)
    ensures TotalSeq(w, PairsOf(m)) == TotalEntries(w, m)
  {
    if m != [] {
      PairsTotal(w, m[1..]);
      assert PairsOf(m)[1..] == PairsOf(m[1..]);
    }
  }

  lemma {:induction false} ItemsTotal(w: Weight, over: Container, v: Value)
    requires Items(over, v).Some?
    ensures TotalSeq(w, Items(over, v).value) == Total(w, v)
  {
    if over.OverMap? {
      PairsTotal(w, v.entries);
    } else if over.OverOption? && v.VSome? {
      TotalOne(w, v.inner);
    }
  }

  lemma {:induction false} IterInstrLedger(w: Weight, ctx: Context, over: Container, body: seq<Instr>, st: State)
    requires Fair(w)
    ensures Accounted(w, ctx.self, TotalSeq(w, st.stack) + CopiedBy(w, ctx, Iter(over, body), st), st.minted,
                      Interp(ctx, Iter(over, body), st))
    decreases st.gas, body, 2
  {
    hide TotalSeq, Items, IterRun, CopiedIter, Fair;
    if Affordable(ITER, st.gas) && st.stack != [] && Items(over, st.stack[0]).Some? {
      ItemsTotal(w, over, st.stack[0]);
      TopTotal(w, st.stack);
      IterLedger(w, ctx, body, Items(over, st.stack[0]).value, Spend(ITER, st).(stack := st.stack[1..]));
    }
  }

  lemma {:induction false} IterLedger(w: Weight, ctx: Context, body: seq<Instr>, items: seq<Value>, st: State)
    requires Fair(w)
    ensures Accounted(w, ctx.self, TotalSeq(w, items) + TotalSeq(w, st.stack) + CopiedIter(w, ctx, body, items, st),
                      st.minted, IterRun(ctx, body, items, st))
    decreases st.gas, body, 1
  {
    hide InterpSeq, CopiedSeq, TotalSeq, TotalMinted, Fair;
    if items == [] {
      NothingTotal(w, items);
    } else if Affordable(STEP, st.gas) {
      TopTotal(w, items);
      TotalCons(w, items[0], st.stack);
      var next := Spend(STEP, st).(stack := [items[0]] + st.stack);
      SeqLedger(w, ctx, body, next);
      var o := InterpSeq(ctx, body, next);
      if o.Done? { IterLedger(w, ctx, body, items[1..], o.state); }
    }
  }

  lemma {:induction false} MapRunLedger(
      w: Weight, ctx: Context, body: seq<Instr>, items: seq<Value>, done: seq<Value>, st: State)
    requires Fair(w)
    ensures var copied := CopiedMap(w, ctx, body, items, st);
            Accounted(w, ctx.self, TotalSeq(w, items) + TotalSeq(w, done) + TotalSeq(w, st.stack) + copied, st.minted,
                      MapRun(ctx, body, items, done, st))
    decreases st.gas, body, 1
  {
    hide InterpSeq, CopiedSeq, TotalSeq, Fair;
    if items == [] {
      TotalCons(w, VList(done), st.stack);
    } else if Affordable(STEP, st.gas) {
      TopTotal(w, items);
      TotalCons(w, items[0], st.stack);
      var next := Spend(STEP, st).(stack := [items[0]] + st.stack);
      SeqLedger(w, ctx, body, next);
      var o := InterpSeq(ctx, body, next);
      if o.Done? && o.state.stack != [] {
        var top := o.state.stack[0];
        TopTotal(w, o.state.stack);
        TotalAppend(w, done, [top]);
        TotalOne(w, top);
        MapRunLedger(w, ctx, body, items[1..], done + [top], o.state.(stack := o.state.stack[1..]));
      }
    }
  }

  /** The results of MAP over a map, put back under their keys. */
  lemma {:induction false} WithValuesTotal(w: Weight, m: seq<Entry>, vs: seq<Value>)
    requires |m| == |vs|
    ensures TotalEntries(w, WithValues(m, vs)) == TotalKeys(w, m) + TotalSeq(w, vs)
  {
    if m != [] {
      WithValuesTotal(w, m[1..], vs[1..]);
      assert WithValues(m, vs)[1..] == WithValues(m[1..], vs[1..]);
    }
  }

  lemma {:induction false} RebuiltTotal(w: Weight, over: Container, v: Value, s: seq<Value>)
    requires s != [] && s[0].VList? && Items(over, v).Some? && |Items(over, v).value| == |s[0].elems|
    ensures TotalSeq(w, [Rebuild(over, v, s[0].elems)] + s[1..]) == TotalSeq(w, s) + KeysTwice(w, over, v)
  {
    var results := s[0].elems;
    if over.OverMap? {
      WithValuesTotal(w, v.entries, results);
    } else if over.OverOption? && results != [] {
      assert results == [results[0]];
      TotalOne(w, results[0]);
    }
    TopTotal(w, s);
    TotalCons(w, Rebuild(over, v, results), s[1..]);
  }

  lemma {:induction false} NothingTotal(w: Weight, s: seq<Value>)
    requires s == []
    ensures TotalSeq(w, s) == 0
  {
  }

  lemma {:induction false} MapLedger(w: Weight, ctx: Context, over: Container, body: seq<Instr>, st: State)
    requires Fair(w)
    ensures Accounted(w, ctx.self, TotalSeq(w, st.stack) + CopiedBy(w, ctx, Map(over, body), st), st.minted,
                      RunMap(ctx, over, body, st))
    decreases st.gas, body, 2
  {
    hide MapRun, TotalSeq, InterpSeq, Items, Rebuild, Fair, CopiedMap, KeysTwice;
    if Affordable(MapEntryCost(over), st.gas) && st.stack != [] && Items(over, st.stack[0]).Some? {
      var v, none: seq<Value> := st.stack[0], [];
      NothingTotal(w, none);
      ItemsTotal(w, over, v);
      TopTotal(w, st.stack);
      var next := Spend(MapEntryCost(over), st).(stack := st.stack[1..]);
      var items := Items(over, v).value;
      MapRunLedger(w, ctx, body, items, none, next);
      var o := MapRun(ctx, body, items, none, next);
      if o.Done? { RebuiltTotal(w, over, v, o.state.stack); }
    }
  }

  lemma {:induction false} DipLedger(w: Weight, ctx: Context, height: Option<nat>, body: seq<Instr>, st: State)
    requires Fair(w)
    ensures Accounted(w, ctx.self, TotalSeq(w, st.stack) + CopiedBy(w, ctx, Dip(height, body), st), st.minted,
                      RunDip(ctx, height, body, st))
    decreases st.gas, body, 1
  {
    hide InterpSeq, CopiedSeq, TotalSeq, Fair;
    var n := Height(height);
    if Affordable(DipCost(height), st.gas) && n <= |st.stack| {
      TotalSplit(w, st.stack, n);
      var next := Spend(DipCost(height), st).(stack := st.stack[n..]);
      SeqLedger(w, ctx, body, next);
      var o := InterpSeq(ctx, body, next);
      if o.Done? { TotalAppend(w, st.stack[..n], o.state.stack); }
    }
  }

  lemma {:induction false} ExecInstrLedger(w: Weight, ctx: Context, st: State)
    requires Fair(w)
    ensures Accounted(w, ctx.self, TotalSeq(w, st.stack) + CopiedBy(w, ctx, Exec, st), st.minted, Interp(ctx, Exec, st))
    decreases st.gas, Exec, 0
  {
    hide TotalSeq, Fair, ExecRun, CopiedExec;
    if Affordable(STEP, st.gas) && |st.stack| >= 2 && st.stack[1].VLambda? {
      TotalSplit(w, st.stack, 2);
      TopTwo(w, st.stack);
      ExecLedger(w, ctx, st.stack[1].closure, st.stack[0], Spend(STEP, st).(stack := st.stack[2..]));
    }
  }

  lemma {:induction false} ExecLedger(w: Weight, ctx: Context, c: Closure, arg: Value, st: State)
    requires Fair(w)
    ensures Accounted(w, ctx.self,
                      TotalClosure(w, c) + Total(w, arg) + TotalSeq(w, st.stack) + CopiedExec(w, ctx, c, arg, st),
                      st.minted, ExecRun(ctx, c, arg, st))
    decreases st.gas, c, 0
  {
    hide InterpSeq, CopiedSeq, TotalSeq, Fair;
    if c.Applied? {
      if Affordable(STEP, st.gas) { ExecLedger(w, ctx, c.inner, VPair(c.arg, arg), Spend(STEP, st)); }
    } else {
      var own := if c.Recursive? then [arg, VLambda(c)] else [arg];
      TotalOne(w, arg);
      TotalTwo(w, arg, VLambda(c));
      SeqLedger(w, ctx, c.code, st.(stack := own));
      var o := InterpSeq(ctx, c.code, st.(stack := own));
      if o.Done? && o.state.stack != [] {
        TopTotal(w, o.state.stack);
        TotalCons(w, o.state.stack[0], st.stack);
      }
    }
  }

  // ---- runs under the strict rules ----

  lemma {:induction false} SeqUncopied(w: Weight, ctx: Context, code: seq<Instr>, st: State, tys: seq<Ty>)
    requires StackHas(true, st.stack, tys) && ContextOk(ctx) && CheckSeq(true, code, tys).Some?
    ensures CopiedSeq(w, ctx, code, st) == 0
    decreases st.gas, code, 0
  {
    if code != [] {
      InstrUncopied(w, ctx, code[0], st, tys);
      InstrSafe(true, ctx, code[0], st, tys);
      var o := Interp(ctx, code[0], st);
      if o.Done? { SeqUncopied(w, ctx, code[1..], o.state, Check(true, code[0], tys).value.tys); }
    }
  }

  lemma {:induction false} InstrUncopied(w: Weight, ctx: Context, i: Instr, st: State, tys: seq<Ty>)
    requires StackHas(true, st.stack, tys) && ContextOk(ctx) && Check(true, i, tys).Some?
    ensures CopiedBy(w, ctx, i, st) == 0
    decreases st.gas, i, 1
  {
    if i.Simple? {
      NothingCopied(w, i.op, st.stack, tys);
    } else if i.Block? {
      SeqUncopied(w, ctx, i.body, st, tys);
    } else if i.Loop? || i.LoopLeft? {
      if Affordable(STEP, st.gas) { LoopUncopied(w, ctx, i.LoopLeft?, i.body, Spend(STEP, st), tys); }
    } else if i.Iter? {
      IterInstrUncopied(w, ctx, i.over, i.body, st, tys);
    } else if i.Map? {
      MapUncopied(w, ctx, i.over, i.body, st, tys);
    } else if i.Dip? {
      DipUncopied(w, ctx, i.height, i.body, st, tys);
    } else if i.Exec? {
      ExecInstrUncopied(w, ctx, st, tys);
    } else {
      BranchUncopied(w, ctx, i, st, tys);
    }
  }

  lemma {:induction false} BranchUncopied(w: Weight, ctx: Context, i: Instr, st: State, tys: seq<Ty>)
    requires StackHas(true, st.stack, tys) && ContextOk(ctx) && IsBranch(i) && Check(true, i, tys).Some?
    ensures CopiedBy(w, ctx, i, st) == 0
    decreases st.gas, i, 0
  {
    if Affordable(STEP, st.gas) {
      ChoiceTyped(true, i, st.stack, tys);
      var b := ChooseBranch(i, st.stack).value;
      var next := Spend(STEP, st).(stack := b.stack);
      var (first, second) := BranchTys(i, tys).value;
      if b.code == FirstCode(i) && StackHas(true, b.stack, first) {
        SeqUncopied(w, ctx, b.code, next, first);
      } else {
        SeqUncopied(w, ctx, b.code, next, second);
      }
    }
  }

  lemma {:induction false} LoopUncopied(
      w: Weight, ctx: Context, left: bool, body: seq<Instr>, st: State, tys: seq<Ty>)
    requires StackHas(true, st.stack, tys) && ContextOk(ctx)
    requires tys != [] && if left then tys[0].TOr? else tys[0] == TBool
    requires Unify(CheckSeq(true, body, LoopBodyTys(left, tys)), Some(Live(tys))).Some?
    ensures CopiedLoop(w, ctx, left, body, st) == 0
    decreases st.gas, body, 1
  {
    hide InterpSeq, CopiedSeq, CheckSeq, StackHas, LoopHead, LoopBodyTys;
    if Affordable(STEP, st.gas) {
      HeadTyped(true, left, st.stack, tys);
      var turn := LoopHead(left, st.stack).value;
      if turn.Again? {
        var next := Spend(STEP, st).(stack := turn.stack);
        SeqSafe(true, ctx, body, next, LoopBodyTys(left, tys));
        SeqUncopied(w, ctx, body, next, LoopBodyTys(left, tys));
        var o := InterpSeq(ctx, body, next);
        if o.Done? { LoopUncopied(w, ctx, left, body, o.state, tys); }
      }
    }
  }

  lemma {:induction false} IterInstrUncopied(
      w: Weight, ctx: Context, over: Container, body: seq<Instr>, st: State, tys: seq<Ty>)
    requires StackHas(true, st.stack, tys) && ContextOk(ctx) && Check(true, Iter(over, body), tys).Some?
    ensures CopiedBy(w, ctx, Iter(over, body), st) == 0
    decreases st.gas, body, 2
  {
    if Affordable(ITER, st.gas) {
      assert HasType(true, st.stack[0], tys[0]);
      ItemsTyped(true, over, st.stack[0], tys[0]);
      Tail(true, st.stack, tys, 1);
      IterUncopied(w, ctx, body, Items(over, st.stack[0]).value, ItemTy(over, tys[0]).value,
                   Spend(ITER, st).(stack := st.stack[1..]), tys[1..]);
    }
  }

  lemma {:induction false} IterUncopied(
      w: Weight, ctx: Context, body: seq<Instr>, items: seq<Value>, t: Ty, st: State, tys: seq<Ty>)
    requires StackHas(true, st.stack, tys) && ContextOk(ctx) && AllHave(true, items, t)
    requires Unify(Some(Live(tys)), CheckSeq(true, body, [t] + tys)).Some?
    ensures CopiedIter(w, ctx, body, items, st) == 0
    decreases st.gas, body, 1
  {
    hide InterpSeq, CopiedSeq, CheckSeq, HasType;
    if items != [] && Affordable(STEP, st.gas) {
      ListTail(true, items, t);
      OnTop(true, items[0], t, st.stack, tys);
      var next := Spend(STEP, st).(stack := [items[0]] + st.stack);
      SeqSafe(true, ctx, body, next, [t] + tys);
      SeqUncopied(w, ctx, body, next, [t] + tys);
      var o := InterpSeq(ctx, body, next);
      if o.Done? { IterUncopied(w, ctx, body, items[1..], t, o.state, tys); }
    }
  }

  /** The types after one turn of MAP. */
  lemma {:induction false} MapStep(u: Ty, st: State, tys: seq<Ty>)
    requires StackHas(true, st.stack, [u] + tys)
    ensures st.stack != [] && StackHas(true, st.stack[1..], tys)
  {
    Tail(true, st.stack, [u] + tys, 1);
    assert ([u] + tys)[1..] == tys;
  }

  lemma {:induction false} MapRunUncopied(
      w: Weight, ctx: Context, body: seq<Instr>, items: seq<Value>, t: Ty, u: Ty, st: State, tys: seq<Ty>)
    requires StackHas(true, st.stack, tys) && ContextOk(ctx) && AllHave(true, items, t)
    requires CheckSeq(true, body, [t] + tys) == Some(Live([u] + tys))
    ensures CopiedMap(w, ctx, body, items, st) == 0
    decreases st.gas, body, 1
  {
    hide InterpSeq, CopiedSeq, CheckSeq, HasType;
    if items != [] && Affordable(STEP, st.gas) {
      ListTail(true, items, t);
      OnTop(true, items[0], t, st.stack, tys);
      var next := Spend(STEP, st).(stack := [items[0]] + st.stack);
      SeqSafe(true, ctx, body, next, [t] + tys);
      SeqUncopied(w, ctx, body, next, [t] + tys);
      var o := InterpSeq(ctx, body, next);
      if o.Done? {
        MapStep(u, o.state, tys);
        MapRunUncopied(w, ctx, body, items[1..], t, u, o.state.(stack := o.state.stack[1..]), tys);
      }
    }
  }

  /** What the typing rule of MAP says about the container, the body and the rest of the stack. */
  lemma {:induction false} MapTyped(over: Container, body: seq<Instr>, st: State, tys: seq<Ty>)
    returns (item: Ty, out: Ty)
    requires StackHas(true, st.stack, tys) && Check(true, Map(over, body), tys).Some?
    ensures st.stack != [] && tys != [] && ItemTy(over, tys[0]) == Some(item) && HasType(true, st.stack[0], tys[0])
    ensures StackHas(true, st.stack[1..], tys[1..])
    ensures CheckSeq(true, body, [item] + tys[1..]) == Some(Live([out] + tys[1..]))
  {
    hide CheckSeq, HasType, ItemTy;
    Tail(true, st.stack, tys, 1);
    item := ItemTy(over, tys[0]).value;
    var after := CheckSeq(true, body, [item] + tys[1..]).value.tys;
    out := after[0];
    assert after == [out] + tys[1..];
  }

  /** Keys are comparable, so they hold no tickets. */
  lemma {:induction false} KeysFree(w: Weight, m: seq<Entry>, k: Ty, t: Ty)
    requires EntriesHave(true, m, k, t) && Prop(k, Comparable)
    ensures TotalKeys(w, m) == 0
  {
    if m != [] {
      Maps.EntriesTail(true, m, k, t);
      NoTickets(w, true, m[0].key, k, Comparable);
      KeysFree(w, m[1..], k, t);
    }
  }

  lemma {:induction false} KeysNotTwice(w: Weight, over: Container, v: Value, t: Ty)
    requires HasType(true, v, t) && ItemTy(over, t).Some?
    ensures KeysTwice(w, over, v) == 0
  {
    if over.OverMap? { KeysFree(w, v.entries, t.key, t.val); }
  }

  lemma {:induction false} MapUncopied(
      w: Weight, ctx: Context, over: Container, body: seq<Instr>, st: State, tys: seq<Ty>)
    requires StackHas(true, st.stack, tys) && ContextOk(ctx) && Check(true, Map(over, body), tys).Some?
    ensures CopiedBy(w, ctx, Map(over, body), st) == 0
    decreases st.gas, body, 2
  {
    hide Check, CheckSeq, StackHas, HasType, InterpSeq, Items, ItemTy, CopiedMap, KeysTwice;
    if Affordable(MapEntryCost(over), st.gas) {
      var item, out := MapTyped(over, body, st, tys);
      var v := st.stack[0];
      ItemsTyped(true, over, v, tys[0]);
      KeysNotTwice(w, over, v, tys[0]);
      MapRunUncopied(w, ctx, body, Items(over, v).value, item, out,
                     Spend(MapEntryCost(over), st).(stack := st.stack[1..]), tys[1..]);
    }
  }

  lemma {:induction false} DipUncopied(
      w: Weight, ctx: Context, height: Option<nat>, body: seq<Instr>, st: State, tys: seq<Ty>)
    requires StackHas(true, st.stack, tys) && ContextOk(ctx) && Check(true, Dip(height, body), tys).Some?
    ensures CopiedBy(w, ctx, Dip(height, body), st) == 0
    decreases st.gas, body, 1
  {
    var n := Height(height);
    if Affordable(DipCost(height), st.gas) {
      Tail(true, st.stack, tys, n);
      SeqUncopied(w, ctx, body, Spend(DipCost(height), st).(stack := st.stack[n..]), tys[n..]);
    }
  }

  lemma {:induction false} ExecInstrUncopied(w: Weight, ctx: Context, st: State, tys: seq<Ty>)
    requires StackHas(true, st.stack, tys) && ContextOk(ctx) && Check(true, Exec, tys).Some?
    ensures CopiedBy(w, ctx, Exec, st) == 0
    decreases st.gas, Exec, 0
  {
    if Affordable(STEP, st.gas) {
      assert HasType(true, st.stack[1], tys[1]);
      ExecUncopied(w, ctx, st.stack[1].closure, st.stack[0], tys[1].arg, tys[1].res,
                   Spend(STEP, st).(stack := st.stack[2..]));
    }
  }

  lemma {:induction false} ExecUncopied(
      w: Weight, ctx: Context, c: Closure, arg: Value, a: Ty, b: Ty, st: State)
    requires ContextOk(ctx) && ClosureHas(true, c, a, b) && HasType(true, arg, a)
    ensures CopiedExec(w, ctx, c, arg, st) == 0
    decreases st.gas, c, 0
  {
    if c.Applied? {
      if Affordable(STEP, st.gas) {
        ExecUncopied(w, ctx, c.inner, VPair(c.arg, arg), TPair(c.argTy, a), b, Spend(STEP, st));
      }
    } else if c.Recursive? {
      Two(true, arg, VLambda(c), a, TLambda(a, b));
      SeqUncopied(w, ctx, c.code, st.(stack := [arg, VLambda(c)]), [a, TLambda(a, b)]);
    } else {
      One(true, arg, a);
      SeqUncopied(w, ctx, c.code, st.(stack := [arg]), [a]);
    }
  }

  /** Under the strict rules the weight on the stack grows by no more than the minted tickets weigh. */
  lemma {:induction false} SeqAccounted(w: Weight, ctx: Context, code: seq<Instr>, st: State, tys: seq<Ty>)
    requires Fair(w) && StackHas(true, st.stack, tys) && ContextOk(ctx)
    requires CheckSeq(true, code, tys).Some?
    ensures Accounted(w, ctx.self, TotalSeq(w, st.stack), st.minted, InterpSeq(ctx, code, st))
  {
    hide InterpSeq, CopiedSeq, CheckSeq, StackHas, TotalSeq, Fair;
    SeqLedger(w, ctx, code, st);
    SeqUncopied(w, ctx, code, st, tys);
  }
}
