/**
 * Tickets that are nowhere stay nowhere.  A weight that the contract does not mint, and that is 0 on the stack and in
 * the program, is never copied and is 0 on the stack after every run, typed or not.
 */
module Absence {
  import opened Syntax
  import opened Costs
  import opened Interpreter
  import opened Tickets
  import opened Conservation

  /** The weight is 0 on what TICKET makes. */
  ghost predicate Unminted(w: Weight, self: nat) {
    forall t: Ticket :: t.ticketer == self && t.amount > 0 ==> w(t) == 0
  }

  /** Minting adds nothing to a weight that is 0 on the contract's own positive tickets. */
  lemma {:induction false} MintedFree(w: Weight, self: nat, before: seq<Ticket>, after: seq<Ticket>)
    requires Logged(self, before, after) && Unminted(w, self)
    ensures TotalMinted(w, after) == TotalMinted(w, before)
  {
    if |after| == |before| {
      assert after == before;
    } else {
      var n := |after| - 1;
      assert w(after[n]) == 0;
      MintedFree(w, self, before, after[..n]);
    }
  }

  /** A run that copies nothing leaves nothing. */
  lemma {:induction false} StillAbsent(w: Weight, self: nat, budget: nat, minted: seq<Ticket>, o: Outcome)
    requires Unminted(w, self) && Accounted(w, self, budget, minted, o) && o.Done?
    ensures TotalSeq(w, o.state.stack) <= budget
  {
    MintedFree(w, self, minted, o.state.minted);
  }

  ghost predicate Absent(w: Weight, ctx: Context, s: seq<Value>) {
    Fair(w) && Unminted(w, ctx.self) && TotalSeq(w, s) == 0
  }

  lemma {:induction false} SeqAbsent(w: Weight, ctx: Context, code: seq<Instr>, st: State)
    requires Absent(w, ctx, st.stack) && TotalCode(w, code) == 0
    ensures CopiedSeq(w, ctx, code, st) == 0
    ensures InterpSeq(ctx, code, st).Done? ==> TotalSeq(w, InterpSeq(ctx, code, st).state.stack) == 0
    decreases st.gas, code, 0
  {
    SeqLedger(w, ctx, code, st);
    if code != [] {
      InstrAbsent(w, ctx, code[0], st);
      InstrLedger(w, ctx, code[0], st);
      var o := Interp(ctx, code[0], st);
      if o.Done? {
        StillAbsent(w, ctx.self, 0, st.minted, o);
        SeqAbsent(w, ctx, code[1..], o.state);
      }
    }
    var o := InterpSeq(ctx, code, st);
    if o.Done? { StillAbsent(w, ctx.self, 0, st.minted, o); }
  }

  lemma {:induction false} InstrAbsent(w: Weight, ctx: Context, i: Instr, st: State)
    requires Absent(w, ctx, st.stack) && TotalInstr(w, i) == 0
    ensures CopiedBy(w, ctx, i, st) == 0
    decreases st.gas, i, 1
  {
    hide InterpSeq, TotalSeq, Items, ChooseBranch, LoopHead, Copied, Fair, Unminted;
    if i.Simple? {
      CopiedFrom(w, i.op, st.stack);
    } else if i.Block? {
      SeqAbsent(w, ctx, i.body, st);
    } else if i.Loop? || i.LoopLeft? {
      if Affordable(STEP, st.gas) { LoopAbsent(w, ctx, i.LoopLeft?, i.body, Spend(STEP, st)); }
    } else if i.Iter? {
      IterInstrAbsent(w, ctx, i.over, i.body, st);
    } else if i.Map? {
      MapAbsent(w, ctx, i.over, i.body, st);
    } else if i.Dip? {
      var n := Height(i.height);
      if Affordable(DipCost(i.height), st.gas) && n <= |st.stack| {
        TotalSplit(w, st.stack, n);
        SeqAbsent(w, ctx, i.body, Spend(DipCost(i.height), st).(stack := st.stack[n..]));
      }
    } else if i.Exec? {
      ExecInstrAbsent(w, ctx, st);
    } else {
      BranchAbsent(w, ctx, i, st);
    }
  }

  lemma {:induction false} BranchAbsent(w: Weight, ctx: Context, i: Instr, st: State)
    requires Absent(w, ctx, st.stack) && IsBranch(i) && TotalInstr(w, i) == 0
    ensures CopiedBy(w, ctx, i, st) == 0
    decreases st.gas, i, 0
  {
    hide InterpSeq, TotalSeq, Fair, Unminted, TotalCode, CopiedSeq;
    if Affordable(STEP, st.gas) && ChooseBranch(i, st.stack).Some? {
      ChoiceTotal(w, i, st.stack);
      var b := ChooseBranch(i, st.stack).value;
      SeqAbsent(w, ctx, b.code, Spend(STEP, st).(stack := b.stack));
    }
  }

  lemma {:induction false} LoopAbsent(w: Weight, ctx: Context, left: bool, body: seq<Instr>, st: State)
    requires Absent(w, ctx, st.stack) && TotalCode(w, body) == 0
    ensures CopiedLoop(w, ctx, left, body, st) == 0
    decreases st.gas, body, 1
  {
    hide InterpSeq, TotalSeq, LoopHead, Fair, Unminted, TotalCode, CopiedSeq;
    if Affordable(STEP, st.gas) && LoopHead(left, st.stack).Some? {
      HeadTotal(w, left, st.stack);
      var turn := LoopHead(left, st.stack).value;
      if turn.Again? {
        var next := Spend(STEP, st).(stack := turn.stack);
        SeqAbsent(w, ctx, body, next);
        var o := InterpSeq(ctx, body, next);
        if o.Done? { LoopAbsent(w, ctx, left, body, o.state); }
      }
    }
  }

  lemma {:induction false} IterInstrAbsent(w: Weight, ctx: Context, over: Container, body: seq<Instr>, st: State)
    requires Absent(w, ctx, st.stack) && TotalCode(w, body) == 0
    ensures CopiedBy(w, ctx, Iter(over, body), st) == 0
    decreases st.gas, body, 2
  {
    hide InterpSeq, TotalSeq, Items, Fair, Unminted, TotalCode, CopiedIter;
    if Affordable(ITER, st.gas) && st.stack != [] && Items(over, st.stack[0]).Some? {
      ItemsTotal(w, over, st.stack[0]);
      TopTotal(w, st.stack);
      IterAbsent(w, ctx, body, Items(over, st.stack[0]).value, Spend(ITER, st).(stack := st.stack[1..]));
    }
  }

  lemma {:induction false} IterAbsent(w: Weight, ctx: Context, body: seq<Instr>, items: seq<Value>, st: State)
    requires Absent(w, ctx, st.stack) && TotalCode(w, body) == 0 && TotalSeq(w, items) == 0
    ensures CopiedIter(w, ctx, body, items, st) == 0
    decreases st.gas, body, 1
  {
    hide InterpSeq, TotalSeq, Fair, Unminted, TotalCode, CopiedSeq;
    if items != [] && Affordable(STEP, st.gas) {
      TopTotal(w, items);
      TotalCons(w, items[0], st.stack);
      var next := Spend(STEP, st).(stack := [items[0]] + st.stack);
      SeqAbsent(w, ctx, body, next);
      var o := InterpSeq(ctx, body, next);
      if o.Done? { IterAbsent(w, ctx, body, items[1..], o.state); }
    }
  }

  lemma {:induction false} MapRunAbsent(w: Weight, ctx: Context, body: seq<Instr>, items: seq<Value>, st: State)
    requires Absent(w, ctx, st.stack) && TotalCode(w, body) == 0 && TotalSeq(w, items) == 0
    ensures CopiedMap(w, ctx, body, items, st) == 0
    decreases st.gas, body, 1
  {
    hide InterpSeq, TotalSeq, Fair, Unminted, TotalCode, CopiedSeq;
    if items != [] && Affordable(STEP, st.gas) {
      TopTotal(w, items);
      TotalCons(w, items[0], st.stack);
      var next := Spend(STEP, st).(stack := [items[0]] + st.stack);
      SeqAbsent(w, ctx, body, next);
      var o := InterpSeq(ctx, body, next);
      if o.Done? && o.state.stack != [] {
        TopTotal(w, o.state.stack);
        MapRunAbsent(w, ctx, body, items[1..], o.state.(stack := o.state.stack[1..]));
      }
    }
  }

  lemma {:induction false} KeysWithin(w: Weight, m: seq<Entry>)
    ensures TotalKeys(w, m) <= TotalEntries(w, m)
  {
    if m != [] { KeysWithin(w, m[1..]); }
  }

  lemma {:induction false} MapAbsent(w: Weight, ctx: Context, over: Container, body: seq<Instr>, st: State)
    requires Absent(w, ctx, st.stack) && TotalCode(w, body) == 0
    ensures CopiedBy(w, ctx, Map(over, body), st) == 0
    decreases st.gas, body, 2
  {
    hide InterpSeq, TotalSeq, Items, Fair, Unminted, TotalCode, CopiedMap;
    if Affordable(MapEntryCost(over), st.gas) && st.stack != [] && Items(over, st.stack[0]).Some? {
      var v := st.stack[0];
      ItemsTotal(w, over, v);
      TopTotal(w, st.stack);
      if v.VMap? { KeysWithin(w, v.entries); }
      MapRunAbsent(w, ctx, body, Items(over, v).value, Spend(MapEntryCost(over), st).(stack := st.stack[1..]));
    }
  }

  lemma {:induction false} ExecInstrAbsent(w: Weight, ctx: Context, st: State)
    requires Absent(w, ctx, st.stack)
    ensures CopiedBy(w, ctx, Exec, st) == 0
    decreases st.gas, Exec, 0
  {
    hide InterpSeq, TotalSeq, Fair, Unminted, CopiedExec;
    if Affordable(STEP, st.gas) && |st.stack| >= 2 && st.stack[1].VLambda? {
      TotalSplit(w, st.stack, 2);
      TopTwo(w, st.stack);
      ExecAbsent(w, ctx, st.stack[1].closure, st.stack[0], Spend(STEP, st).(stack := st.stack[2..]));
    }
  }

  lemma {:induction false} ExecAbsent(w: Weight, ctx: Context, c: Closure, arg: Value, st: State)
    requires Absent(w, ctx, st.stack) && TotalClosure(w, c) == 0 && Total(w, arg) == 0
    ensures CopiedExec(w, ctx, c, arg, st) == 0
    decreases st.gas, c, 0
  {
    hide InterpSeq, TotalSeq, Fair, Unminted, TotalCode, CopiedSeq;
    if c.Applied? {
      if Affordable(STEP, st.gas) { ExecAbsent(w, ctx, c.inner, VPair(c.arg, arg), Spend(STEP, st)); }
    } else {
      TotalOne(w, arg);
      TotalTwo(w, arg, VLambda(c));
      SeqAbsent(w, ctx, c.code, st.(stack := if c.Recursive? then [arg, VLambda(c)] else [arg]));
    }
  }
}
