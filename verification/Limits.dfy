/** Programs that the source's own rules accept and the strict rules reject, with what happens when they run. */
module Limits {
  import opened Syntax
  import opened Ops
  import opened Interpreter
  import opened Typechecker
  import opened Tickets
  import opened Results

  lemma {:induction false} RunStep(ctx: Context, i: Instr, rest: seq<Instr>, st: State, next: State)
    requires Interp(ctx, i, st) == Done(next)
    ensures InterpSeq(ctx, [i] + rest, st) == InterpSeq(ctx, rest, next)
  {
    assert ([i] + rest)[1..] == rest;
  }

  lemma {:induction false} CheckStep(i: Instr, rest: seq<Instr>, tys: seq<Ty>, next: seq<Ty>)
    requires Check(false, i, tys) == Some(Live(next))
    ensures CheckSeq(false, [i] + rest, tys) == CheckSeq(false, rest, next)
  {
    assert ([i] + rest)[1..] == rest;
  }

  // ---- a ticket captured by APPLY and duplicated with the lambda ----

  function Capture(): Instr { Simple(OnLinear(Apply(TTicket(TNat)))) }

  function Copy(): Instr { Simple(OnStack(Dup(None))) }

  function FirstOf(): Value { VLambda(Plain([Simple(OnPair(Car))])) }

  function FirstOfTy(): Ty { TLambda(TPair(TTicket(TNat), TUnit), TTicket(TNat)) }

  lemma {:induction false} FirstOfTyped()
    ensures HasType(false, FirstOf(), FirstOfTy())
  {
    var t := TPair(TTicket(TNat), TUnit);
    var car := Simple(OnPair(Car));
    assert [TTicket(TNat)] + [t][1..] == [TTicket(TNat)];
    assert Check(false, car, [t]) == Some(Live([TTicket(TNat)]));
    CheckStep(car, [], [t], [TTicket(TNat)]);
    assert [car] + [] == [car];
    assert CheckSeq(false, [car], [t]) == Some(Live([TTicket(TNat)]));
    assert ClosureHas(false, Plain([car]), t, TTicket(TNat));
  }

  function AppliedTo(t: Ticket): Value {
    VLambda(Applied(TTicket(TNat), VTicket(t), Plain([Simple(OnPair(Car))])))
  }

  /** The source's rules accept APPLY; DUP on a ticket and a lambda; the strict rules do not. */
  lemma {:induction false} CaptureAccepted()
    ensures CheckSeq(false, [Capture(), Copy()], [TTicket(TNat), FirstOfTy()]).Some?
    ensures CheckSeq(true, [Capture(), Copy()], [TTicket(TNat), FirstOfTy()]).None?
  {
    var tys, ty := [TTicket(TNat), FirstOfTy()], TLambda(TUnit, TTicket(TNat));
    assert [ty] + tys[2..] == [ty];
    assert Check(false, Capture(), tys) == Some(Live([ty]));
    CheckStep(Capture(), [Copy()], tys, [ty]);
    assert CheckStack(false, Dup(None), [ty]) == Some(Rewrites(0, [ty]));
    assert [ty] + [ty][0..] == [ty, ty];
    CheckStep(Copy(), [], [ty], [ty, ty]);
    assert [Copy()] + [] == [Copy()] && [Capture()] + [Copy()] == [Capture(), Copy()];
    assert CheckLinear(true, Apply(TTicket(TNat)), tys) == None;
  }

  lemma {:induction false} CaptureStep(ctx: Context, t: Ticket, s: seq<Value>, st: State, next: State)
    requires s == [VTicket(t), FirstOf()] && st == State(s, 1000, []) && next == State([AppliedTo(t)], 860, [])
    ensures Interp(ctx, Capture(), st) == Done(next)
  {
    assert [AppliedTo(t)] + s[2..] == [AppliedTo(t)];
  }

  lemma {:induction false} CopyStep(ctx: Context, v: Value, st: State, next: State)
    requires st == State([v], 860, []) && next == State([v, v], 850, [])
    ensures Interp(ctx, Copy(), st) == Done(next)
  {
    assert [v] + [v][0..] == [v, v];
  }

  lemma {:induction false} CaptureRuns(ctx: Context, t: Ticket)
    ensures InterpSeq(ctx, [Capture(), Copy()], State([VTicket(t), FirstOf()], 1000, []))
            == Done(State([AppliedTo(t), AppliedTo(t)], 835, []))
  {
    hide Interp, AppliedTo, FirstOf, Capture, Copy;
    var s, v := [VTicket(t), FirstOf()], AppliedTo(t);
    var st0, st1, st2 := State(s, 1000, []), State([v], 860, []), State([v, v], 850, []);
    CaptureStep(ctx, t, s, st0, st1);
    RunStep(ctx, Capture(), [Copy()], st0, st1);
    CopyStep(ctx, v, st1, st2);
    RunStep(ctx, Copy(), [], st1, st2);
    assert [Copy()] + [] == [Copy()] && [Capture()] + [Copy()] == [Capture(), Copy()];
  }

  lemma {:induction false} AppliedWeighs(w: Weight, t: Ticket)
    ensures Total(w, AppliedTo(t)) == Total(w, VTicket(t))
  {
    var plain := Plain([Simple(OnPair(Car))]);
    assert TotalClosure(w, plain) == 0;
    assert TotalClosure(w, Applied(TTicket(TNat), VTicket(t), plain)) == Total(w, VTicket(t));
  }

  lemma {:induction false} CaptureWeighs(w: Weight, t: Ticket)
    requires t.content == VNat(0)
    ensures TotalSeq(w, [VTicket(t), FirstOf()]) == w(t)
    ensures TotalSeq(w, [AppliedTo(t), AppliedTo(t)]) == 2 * w(t)
  {
    AppliedWeighs(w, t);
    assert Total(w, VTicket(t)) == w(t);
    TotalTwo(w, VTicket(t), FirstOf());
    TotalTwo(w, AppliedTo(t), AppliedTo(t));
  }

  /** Conservation fails under the source's rules: an accepted program doubles a ticket that it did not make. */
  lemma {:induction false} CapturedTicketDoubles(ctx: Context, t: Ticket, code: seq<Instr>, st: State, tys: seq<Ty>)
    requires t.content == VNat(0) && t.amount > 0
    requires code == [Capture(), Copy()] && st == State([VTicket(t), FirstOf()], 1000, [])
    requires tys == [TTicket(TNat), FirstOfTy()]
    ensures StackHas(false, st.stack, tys) && CheckSeq(false, code, tys).Some? && CheckSeq(true, code, tys).None?
    ensures var w, o := AmountOf(t.ticketer, t.content), InterpSeq(ctx, code, st);
            && o.Done? && o.state.minted == st.minted && TotalSeq(w, o.state.stack) == 2 * TotalSeq(w, st.stack) > 0
  {
    FirstOfTyped();
    OpSafety.Two(false, VTicket(t), FirstOf(), TTicket(TNat), FirstOfTy());
    CaptureAccepted();
    CaptureRuns(ctx, t);
    CaptureWeighs(AmountOf(t.ticketer, t.content), t);
  }

  // ---- a ticket with a list as its content ----

  function Mint(): Instr { Simple(OnLinear(MkTicket)) }

  /** Goes on with the ticket, or fails when there is none. */
  function Unwrap(): Instr { IfNone([Simple(OnStack(MkUnit)), Simple(OnStack(Failwith(TUnit)))], []) }

  /** Makes two tickets and joins them. */
  function MintTwice(): seq<Instr> {
    [Mint(), Unwrap(), Dip(None, [Mint(), Unwrap()]), Simple(OnPair(MkPair)), Simple(OnLinear(JoinTickets))]
  }

  function ListTicket(): Ty { TTicket(TList(TNat)) }

  lemma {:induction false} UnwrapAccepted(t: Ty, tys: seq<Ty>)
    ensures Check(false, Unwrap(), [TOption(t)] + tys) == Some(Live([t] + tys))
  {
    var all := [TOption(t)] + tys;
    var unit, fail := Simple(OnStack(MkUnit)), Simple(OnStack(Failwith(TUnit)));
    assert all[1..] == tys;
    assert [TUnit] + tys[0..] == [TUnit] + tys;
    CheckStep(unit, [fail], tys, [TUnit] + tys);
    assert Check(false, fail, [TUnit] + tys) == Some(Failing);
    assert [unit] + [fail] == [unit, fail];
    assert CheckSeq(false, [unit, fail], tys) == Some(Failing);
  }

  lemma {:induction false} MintAccepted(tys: seq<Ty>)
    ensures CheckSeq(false, [Mint(), Unwrap()], [TList(TNat), TNat] + tys) == Some(Live([ListTicket()] + tys))
  {
    var all, t := [TList(TNat), TNat] + tys, ListTicket();
    assert all[2..] == tys;
    assert Check(false, Mint(), all) == Some(Live([TOption(t)] + tys));
    CheckStep(Mint(), [Unwrap()], all, [TOption(t)] + tys);
    UnwrapAccepted(t, tys);
    CheckStep(Unwrap(), [], [TOption(t)] + tys, [t] + tys);
    assert [Unwrap()] + [] == [Unwrap()] && [Mint()] + [Unwrap()] == [Mint(), Unwrap()];
  }

  lemma {:induction false} CheckAppend(a: seq<Instr>, b: seq<Instr>, tys: seq<Ty>, next: seq<Ty>)
    requires CheckSeq(false, a, tys) == Some(Live(next))
    ensures CheckSeq(false, a + b, tys) == CheckSeq(false, b, next)
  {
    if a == [] {
      assert a + b == b;
    } else {
      var mid := Check(false, a[0], tys).value.tys;
      CheckAppend(a[1..], b, mid, next);
      assert (a + b)[1..] == a[1..] + b;
    }
  }

  lemma {:induction false} JoinAccepted(t: Ty)
    requires t.TTicket?
    ensures CheckSeq(false, [Simple(OnPair(MkPair)), Simple(OnLinear(JoinTickets))], [t, t])
            == Some(Live([TOption(t)]))
  {
    var pair, join := Simple(OnPair(MkPair)), Simple(OnLinear(JoinTickets));
    assert [TPair(t, t)] + [t, t][2..] == [TPair(t, t)];
    CheckStep(pair, [join], [t, t], [TPair(t, t)]);
    assert [TOption(t)] + [TPair(t, t)][1..] == [TOption(t)];
    CheckStep(join, [], [TPair(t, t)], [TOption(t)]);
    assert [pair] + [join] == [pair, join] && [join] + [] == [join];
  }

  lemma {:induction false} DipAccepted(t: Ty, body: seq<Instr>, tys: seq<Ty>)
    requires CheckSeq(false, body, tys) == Some(Live([t]))
    ensures Check(false, Dip(None, body), [t] + tys) == Some(Live([t, t]))
  {
    assert ([t] + tys)[1..] == tys && ([t] + tys)[..1] + [t] == [t, t];
  }

  /** The source's rules accept the program on two contents and two amounts. */
  lemma {:induction false} MintTwiceAccepted(code: seq<Instr>, tys: seq<Ty>)
    requires code == MintTwice() && tys == [TList(TNat), TNat, TList(TNat), TNat]
    ensures CheckSeq(false, code, tys) == Some(Live([TOption(ListTicket())]))
  {
    var t, one, body := ListTicket(), [TList(TNat), TNat], [Mint(), Unwrap()];
    var last := [Simple(OnPair(MkPair)), Simple(OnLinear(JoinTickets))];
    MintAccepted(one);
    MintAccepted([]);
    assert one + [] == one && [t] + [] == [t] && one + one == tys;
    CheckAppend(body, [Dip(None, body)] + last, tys, [t] + one);
    DipAccepted(t, body, one);
    CheckStep(Dip(None, body), last, [t] + one, [t, t]);
    JoinAccepted(t);
    assert body + ([Dip(None, body)] + last) == code;
  }

  /** Making one ticket: 20 milligas for TICKET and IF_NONE, 15 for returning from the empty branch. */
  lemma {:induction false} MintRuns(ctx: Context, rest: seq<Value>, gas: nat, minted: seq<Ticket>, code: seq<Instr>)
    requires gas >= 35
    ensures var t := Ticket(ctx.self, VList([]), 1);
            InterpSeq(ctx, [Mint(), Unwrap()] + code, State([VList([]), VNat(1)] + rest, gas, minted))
            == InterpSeq(ctx, code, State([VTicket(t)] + rest, gas - 35, minted + [t]))
  {
    var t := Ticket(ctx.self, VList([]), 1);
    var s := [VList([]), VNat(1)] + rest;
    var st1 := State([VSome(VTicket(t))] + rest, gas - 10, minted + [t]);
    var st2 := State([VTicket(t)] + rest, gas - 35, minted + [t]);
    assert s[2..] == rest;
    assert Interp(ctx, Mint(), State(s, gas, minted)) == Done(st1);
    RunStep(ctx, Mint(), [Unwrap()] + code, State(s, gas, minted), st1);
    assert [Mint()] + ([Unwrap()] + code) == [Mint(), Unwrap()] + code;
    assert st1.stack[1..] == rest;
    assert ChooseBranch(Unwrap(), st1.stack) == Some(Branch([], [VTicket(t)] + rest));
    assert Interp(ctx, Unwrap(), st1) == Done(st2);
    RunStep(ctx, Unwrap(), code, st1, st2);
  }

  lemma {:induction false} JoinPanics(ctx: Context, t: Ticket, gas: nat, minted: seq<Ticket>)
    requires gas >= 10 && t.content == VList([])
    ensures InterpSeq(ctx, [Simple(OnPair(MkPair)), Simple(OnLinear(JoinTickets))],
                      State([VTicket(t), VTicket(t)], gas, minted)) == Panicked(Incomparable)
  {
    var pair, join := Simple(OnPair(MkPair)), Simple(OnLinear(JoinTickets));
    var st := State([VTicket(t), VTicket(t)], gas, minted);
    var next := State([VPair(VTicket(t), VTicket(t))], gas - 10, minted);
    assert st.stack[2..] == [] && next.stack + [] == next.stack && minted + [] == minted;
    assert Interp(ctx, pair, st) == Done(next);
    RunStep(ctx, pair, [join], st, next);
    assert Interp(ctx, join, next) == Panicked(Incomparable);
    assert [pair] + [join] == [pair, join];
  }

  /** Type safety fails under the source's rules: an accepted program stops abruptly. */
  lemma {:induction false} ListContentPanics(ctx: Context, code: seq<Instr>, st: State, tys: seq<Ty>)
    requires code == MintTwice() && st == State([VList([]), VNat(1), VList([]), VNat(1)], 1000, [])
    requires tys == [TList(TNat), TNat, TList(TNat), TNat]
    ensures StackHas(false, st.stack, tys) && CheckSeq(false, code, tys).Some?
    ensures InterpSeq(ctx, code, st) == Panicked(Incomparable)
  {
    MintTwiceAccepted(code, tys);
    MintTwicePanics(ctx, code, st, [VList([]), VNat(1)], [Mint(), Unwrap()]);
    OpSafety.Two(false, VList([]), VNat(1), TList(TNat), TNat);
    OpSafety.Concat(false, [VList([]), VNat(1)], [TList(TNat), TNat], [VList([]), VNat(1)], [TList(TNat), TNat]);
    assert st.stack == [VList([]), VNat(1)] + [VList([]), VNat(1)];
    assert tys == [TList(TNat), TNat] + [TList(TNat), TNat];
  }

  lemma {:induction false} MintTwicePanics(ctx: Context, code: seq<Instr>, st: State, one: seq<Value>, body: seq<Instr>)
    requires one == [VList([]), VNat(1)] && st == State(one + one, 1000, [])
    requires body == [Mint(), Unwrap()] && code == MintTwice()
    ensures InterpSeq(ctx, code, st) == Panicked(Incomparable)
  {
    var t, last := Ticket(ctx.self, VList([]), 1), [Simple(OnPair(MkPair)), Simple(OnLinear(JoinTickets))];
    assert body + ([Dip(None, body)] + last) == code && [] + [t] == [t];
    MintRuns(ctx, one, 1000, [], [Dip(None, body)] + last);
    DipRuns(ctx, t);
    RunStep(ctx, Dip(None, body), last, State([VTicket(t)] + one, 965, [t]),
            State([VTicket(t), VTicket(t)], 885, [t, t]));
    JoinPanics(ctx, t, 885, [t, t]);
  }

  lemma {:induction false} DipRuns(ctx: Context, t: Ticket)
    requires t == Ticket(ctx.self, VList([]), 1)
    ensures Interp(ctx, Dip(None, [Mint(), Unwrap()]), State([VTicket(t)] + [VList([]), VNat(1)], 965, [t]))
            == Done(State([VTicket(t), VTicket(t)], 885, [t, t]))
  {
    var s := [VTicket(t)] + [VList([]), VNat(1)];
    MintRuns(ctx, [], 955, [t], []);
    assert [Mint(), Unwrap()] + [] == [Mint(), Unwrap()];
    assert s[1..] == [VList([]), VNat(1)] + [] && s[..1] == [VTicket(t)];
    assert [VTicket(t)] + [] == [VTicket(t)] && [t] + [t] == [t, t];
    assert [VTicket(t)] + [VTicket(t)] == [VTicket(t), VTicket(t)];
  }

  // ---- a ticket of amount 0 among the inputs ----

  /** Both rules admit a ticket of amount 0 on the stack, and a run may keep it. */
  lemma {:induction false} ZeroTicketAdmitted(
      ctx: Context, strict: bool, code: seq<Instr>, t: Ticket, st: State, tys: seq<Ty>)
    requires code == [] && t.amount == 0 && t.content.VNat?
    requires st.stack == [VTicket(t)] && Affordable(INTERPRET_RET, st.gas) && tys == [TTicket(TNat)]
    ensures StackHas(strict, st.stack, tys) && CheckSeq(strict, code, tys).Some?
    ensures InterpSeq(ctx, code, st).Done? && TotalSeq(ZeroTickets(), InterpSeq(ctx, code, st).state.stack) == 1
  {
    ZeroTicketTyped(strict, t);
    hide Interp, Check, HasType, TotalSeq;
    TotalOne(ZeroTickets(), VTicket(t));
    assert Total(ZeroTickets(), t.content) == 0;
  }

  lemma {:induction false} ZeroTicketTyped(strict: bool, t: Ticket)
    requires t.content.VNat?
    ensures HasType(strict, VTicket(t), TTicket(TNat))
  {
    assert HasType(strict, t.content, TNat);
  }
}
