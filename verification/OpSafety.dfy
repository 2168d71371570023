/** Every instruction without nested code that is accepted by the typechecker does what its type says. */
module OpSafety {
  import opened Syntax
  import opened Costs
  import opened Ops
  import opened Typechecker
  import opened Maps

  /** The effect leaves what the rule says, or raises an error; it does not stop abruptly. */
  ghost predicate Delivers(strict: bool, e: Effect, r: Rule) {
    match e.after
    case Next(take, push, _) => r.Rewrites? && r.take == take && StackHas(strict, push, r.push)
    case Raise(_) => true
    case Halt(_) => false
  }

  /** JOIN_TICKETS on two tickets whose contents cannot be compared. */
  ghost predicate JoinsIncomparable(op: Op, s: seq<Value>) {
    && op == OnLinear(JoinTickets) && s != [] && s[0].VPair? && s[0].fst.VTicket? && s[0].snd.VTicket?
    && CompareCost(s[0].fst.ticket.content, s[0].snd.ticket.content).None?
  }

  ghost predicate ContextOk(ctx: Context) {
    0 <= ctx.amount <= MAX_MUTEZ && 0 <= ctx.balance <= MAX_MUTEZ
  }

  lemma {:induction false} One(strict: bool, v: Value, t: Ty)
    requires HasType(strict, v, t)
    ensures StackHas(strict, [v], [t])
  {
  }

  lemma {:induction false} Two(strict: bool, v: Value, w: Value, t: Ty, u: Ty)
    requires HasType(strict, v, t) && HasType(strict, w, u)
    ensures StackHas(strict, [v, w], [t, u])
  {
  }

  lemma {:induction false} SomeTyped(strict: bool, v: Value, t: Ty)
    ensures HasType(strict, VSome(v), TOption(t)) <==> HasType(strict, v, t)
    ensures HasType(strict, VNone, TOption(t))
  {
  }

  lemma {:induction false} Concat(strict: bool, a: seq<Value>, ta: seq<Ty>, b: seq<Value>, tb: seq<Ty>)
    requires StackHas(strict, a, ta) && StackHas(strict, b, tb)
    ensures StackHas(strict, a + b, ta + tb)
  {
    forall i | 0 <= i < |a + b| ensures HasType(strict, (a + b)[i], (ta + tb)[i]) {
      if i < |a| {
        assert (a + b)[i] == a[i] && (ta + tb)[i] == ta[i];
      } else {
        var j := i - |a|;
        assert (a + b)[i] == b[j] && (ta + tb)[i] == tb[j];
      }
    }
  }

  lemma {:induction false} Window(strict: bool, s: seq<Value>, tys: seq<Ty>, lo: nat, hi: nat)
    requires StackHas(strict, s, tys) && lo <= hi <= |s|
    ensures StackHas(strict, s[lo..hi], tys[lo..hi])
  {
    forall i | 0 <= i < hi - lo ensures HasType(strict, s[lo..hi][i], tys[lo..hi][i]) {
      var j := lo + i;
      assert s[lo..hi][i] == s[j] && tys[lo..hi][i] == tys[j];
    }
  }

  lemma {:induction false} DigSafe(strict: bool, n: nat, s: seq<Value>, tys: seq<Ty>)
    requires StackHas(strict, s, tys) && CheckStack(strict, Dig(n), tys).Some?
    ensures Delivers(strict, StackEffect(Dig(n), s), CheckStack(strict, Dig(n), tys).value)
  {
    if n > 0 {
      One(strict, s[n], tys[n]);
      Window(strict, s, tys, 0, n);
      Concat(strict, [s[n]], [tys[n]], s[..n], tys[..n]);
    }
  }

  lemma {:induction false} DugSafe(strict: bool, n: nat, s: seq<Value>, tys: seq<Ty>)
    requires StackHas(strict, s, tys) && CheckStack(strict, Dug(n), tys).Some?
    ensures Delivers(strict, StackEffect(Dug(n), s), CheckStack(strict, Dug(n), tys).value)
  {
    if n > 0 {
      var m := n + 1;
      One(strict, s[0], tys[0]);
      Window(strict, s, tys, 1, m);
      Concat(strict, s[1..m], tys[1..m], [s[0]], [tys[0]]);
    }
  }

  lemma {:induction false} StackSafe(strict: bool, op: StackOp, s: seq<Value>, tys: seq<Ty>)
    requires StackHas(strict, s, tys) && CheckStack(strict, op, tys).Some?
    ensures Delivers(strict, StackEffect(op, s), CheckStack(strict, op, tys).value)
  {
    assert |tys| >= 1 ==> HasType(strict, s[0], tys[0]);
    if op.Dig? {
      DigSafe(strict, op.depth, s, tys);
    } else if op.Dug? {
      DugSafe(strict, op.depth, s, tys);
    } else if op.Dup? {
      One(strict, s[Height(op.height) - 1], tys[Height(op.height) - 1]);
    } else if op.Swap? {
      Two(strict, s[1], s[0], tys[1], tys[0]);
    } else if op.Push? {
      One(strict, op.value, op.ty);
    }
  }

  lemma {:induction false} CombTyped(strict: bool, s: seq<Value>, tys: seq<Ty>)
    requires StackHas(strict, s, tys) && s != []
    ensures HasType(strict, Comb(s), CombTy(tys))
  {
    if |s| > 1 {
      Window(strict, s, tys, 1, |s|);
      CombTyped(strict, s[1..], tys[1..]);
    }
  }

  lemma {:induction false} UncombTyped(strict: bool, n: nat, v: Value, t: Ty)
    requires HasType(strict, v, t) && UncombTy(n, t).Some?
    ensures Uncomb(n, v).Some? && StackHas(strict, Uncomb(n, v).value, UncombTy(n, t).value)
    decreases n
  {
    if n > 0 {
      UncombTyped(strict, n - 1, v.snd, t.snd);
      One(strict, v.fst, t.fst);
      Concat(strict, [v.fst], [t.fst], Uncomb(n - 1, v.snd).value, UncombTy(n - 1, t.snd).value);
    }
  }

  lemma {:induction false} NthTyped(strict: bool, n: nat, v: Value, t: Ty)
    requires HasType(strict, v, t) && NthFieldTy(n, t).Some?
    ensures NthField(n, v).Some? && HasType(strict, NthField(n, v).value, NthFieldTy(n, t).value)
    decreases n
  {
    if n >= 2 { NthTyped(strict, n - 2, v.snd, t.snd); }
  }

  lemma {:induction false} WithNthTyped(strict: bool, n: nat, v: Value, t: Ty, x: Value, u: Ty)
    requires HasType(strict, v, t) && HasType(strict, x, u) && WithNthFieldTy(n, t, u).Some?
    ensures WithNthField(n, v, x).Some?
    ensures HasType(strict, WithNthField(n, v, x).value, WithNthFieldTy(n, t, u).value)
    decreases n
  {
    if n >= 2 { WithNthTyped(strict, n - 2, v.snd, t.snd, x, u); }
  }

  lemma {:induction false} CombSafe(strict: bool, op: PairOp, s: seq<Value>, tys: seq<Ty>)
    requires StackHas(strict, s, tys) && CheckPair(op, tys).Some?
    requires op.PairN? || op.UnpairN? || op.GetN? || op.UpdateN?
    ensures Delivers(strict, PairEffect(op, s), CheckPair(op, tys).value)
  {
    assert HasType(strict, s[0], tys[0]);
    if op.PairN? {
      Window(strict, s, tys, 0, op.n);
      CombTyped(strict, s[..op.n], tys[..op.n]);
    } else if op.UnpairN? {
      UncombTyped(strict, op.n - 1, s[0], tys[0]);
    } else if op.GetN? {
      NthTyped(strict, op.n, s[0], tys[0]);
    } else {
      WithNthTyped(strict, op.n, s[1], tys[1], s[0], tys[0]);
    }
  }

  lemma {:induction false} PairSafe(strict: bool, op: PairOp, s: seq<Value>, tys: seq<Ty>)
    requires StackHas(strict, s, tys) && CheckPair(op, tys).Some?
    ensures Delivers(strict, PairEffect(op, s), CheckPair(op, tys).value)
  {
    assert HasType(strict, s[0], tys[0]);
    if op.PairN? || op.UnpairN? || op.GetN? || op.UpdateN? {
      CombSafe(strict, op, s, tys);
    } else if op.MkPair? {
      One(strict, VPair(s[0], s[1]), TPair(tys[0], tys[1]));
    }
  }

  /** Products of amounts that fit stay nonnegative. */
  lemma {:induction false} MulNonneg(x: int, y: int)
    requires x >= 0 && y >= 0
    ensures x * y >= 0
  {
  }

  lemma {:induction false} MutezSafe(strict: bool, op: NumOp, ctx: Context, s: seq<Value>, tys: seq<Ty>)
    requires StackHas(strict, s, tys) && CheckNum(op, tys).Some?
    requires op.AddMutez? || op.SubMutez? || op.MulMutezNat? || op.MulNatMutez?
    ensures Delivers(strict, NumEffect(op, ctx, s), CheckNum(op, tys).value)
  {
    assert HasType(strict, s[0], tys[0]) && HasType(strict, s[1], tys[1]);
    if op.SubMutez? {
      SomeTyped(strict, VMutez(s[0].mutez - s[1].mutez), TMutez);
    } else if op.MulMutezNat? {
      MulNonneg(s[0].mutez, s[1].n);
    } else if op.MulNatMutez? {
      MulNonneg(s[0].n, s[1].mutez);
    }
  }

  lemma {:induction false} AddMulSafe(strict: bool, op: NumOp, ctx: Context, s: seq<Value>, tys: seq<Ty>)
    requires StackHas(strict, s, tys) && CheckNum(op, tys).Some?
    requires op.Add? || op.Mul?
    ensures Delivers(strict, NumEffect(op, ctx, s), CheckNum(op, tys).value)
  {
    assert HasType(strict, s[0], tys[0]) && HasType(strict, s[1], tys[1]);
    if op.Mul? && op.operands.NatNat? { MulNonneg(s[0].n, s[1].n); }
  }

  lemma {:induction false} CompareSafe(strict: bool, ctx: Context, s: seq<Value>, tys: seq<Ty>)
    requires StackHas(strict, s, tys) && CheckNum(Compare, tys).Some?
    ensures Delivers(strict, NumEffect(Compare, ctx, s), CheckNum(Compare, tys).value)
  {
    TypedIsKey(strict, s[0], tys[0]);
    TypedIsKey(strict, s[1], tys[1]);
    Ordering.CostDefined(s[0], s[1], tys[0]);
  }

  lemma {:induction false} UnarySafe(strict: bool, op: NumOp, ctx: Context, s: seq<Value>, tys: seq<Ty>)
    requires StackHas(strict, s, tys) && CheckNum(op, tys).Some?
    requires op.Neg? || op.Abs? || op.IsNat? || op.IntOfNat?
    ensures Delivers(strict, NumEffect(op, ctx, s), CheckNum(op, tys).value)
  {
    assert HasType(strict, s[0], tys[0]);
    if op.IsNat? { SomeTyped(strict, VNat(if s[0].i < 0 then 0 else s[0].i), TNat); }
  }

  lemma {:induction false} TestSafe(strict: bool, op: NumOp, ctx: Context, s: seq<Value>, tys: seq<Ty>)
    requires StackHas(strict, s, tys) && CheckNum(op, tys).Some?
    requires op.Test? || op.Logic? || op.NotBool?
    ensures Delivers(strict, NumEffect(op, ctx, s), CheckNum(op, tys).value)
  {
    assert HasType(strict, s[0], tys[0]);
    if op.Logic? { assert HasType(strict, s[1], tys[1]); }
  }

  lemma {:induction false} NumSafe(strict: bool, op: NumOp, ctx: Context, s: seq<Value>, tys: seq<Ty>)
    requires StackHas(strict, s, tys) && CheckNum(op, tys).Some? && ContextOk(ctx)
    ensures Delivers(strict, NumEffect(op, ctx, s), CheckNum(op, tys).value)
  {
    if op.AddMutez? || op.SubMutez? || op.MulMutezNat? || op.MulNatMutez? {
      MutezSafe(strict, op, ctx, s, tys);
    } else if op.Add? || op.Mul? {
      AddMulSafe(strict, op, ctx, s, tys);
    } else if op.Compare? {
      CompareSafe(strict, ctx, s, tys);
    } else if op.Amount? || op.Balance? {
      One(strict, VMutez(if op.Amount? then ctx.amount else ctx.balance), TMutez);
    } else if op.Test? || op.Logic? || op.NotBool? {
      TestSafe(strict, op, ctx, s, tys);
    } else {
      UnarySafe(strict, op, ctx, s, tys);
    }
  }

  lemma {:induction false} FoundTyped(strict: bool, m: seq<Entry>, key: Value, k: Ty, t: Ty)
    requires EntriesHave(strict, m, k, t)
    ensures HasType(strict, OptionValue(Find(m, key)), TOption(t))
  {
    FindTyped(strict, m, key, k, t);
    SomeTyped(strict, if Find(m, key).Some? then Find(m, key).value else VUnit, t);
  }

  lemma {:induction false} MapSafe(strict: bool, op: DataOp, s: seq<Value>, tys: seq<Ty>)
    requires StackHas(strict, s, tys) && CheckData(op, tys).Some?
    requires op.Mem? || op.Get?
    ensures Delivers(strict, DataEffect(op, s), CheckData(op, tys).value)
  {
    assert HasType(strict, s[0], tys[0]) && HasType(strict, s[1], tys[1]);
    MapCostDefined(strict, 1, s[1].entries, s[0], tys[0], tys[1].val);
    FoundTyped(strict, s[1].entries, s[0], tys[0], tys[1].val);
  }

  lemma {:induction false} UpdateSafe(strict: bool, op: DataOp, s: seq<Value>, tys: seq<Ty>)
    requires StackHas(strict, s, tys) && CheckData(op, tys).Some?
    requires op.Update? || op.GetAndUpdate?
    ensures Delivers(strict, DataEffect(op, s), CheckData(op, tys).value)
  {
    assert HasType(strict, s[0], tys[0]) && HasType(strict, s[1], tys[1]) && HasType(strict, s[2], tys[2]);
    var m, t := s[2].entries, tys[2].val;
    MapCostDefined(strict, if op.Update? then 2 else 3, m, s[0], tys[0], t);
    UpdatedTyped(strict, m, s[0], s[1], tys[0], t);
    var found := OptionValue(Find(m, s[0]));
    FoundTyped(strict, m, s[0], tys[0], t);
    Two(strict, found, VMap(Updated(m, s[0], s[1])), tys[1], tys[2]);
  }

  lemma {:induction false} ConsTyped(strict: bool, v: Value, vs: seq<Value>, t: Ty)
    requires HasType(strict, v, t) && AllHave(strict, vs, t)
    ensures AllHave(strict, [v] + vs, t)
  {
    forall i | 0 <= i < |[v] + vs| ensures HasType(strict, ([v] + vs)[i], t) {
      if i > 0 { assert ([v] + vs)[i] == vs[i - 1]; }
    }
  }

  lemma {:induction false} ConsSafe(strict: bool, s: seq<Value>, tys: seq<Ty>)
    requires StackHas(strict, s, tys) && CheckData(Cons, tys).Some?
    ensures Delivers(strict, DataEffect(Cons, s), CheckData(Cons, tys).value)
  {
    assert HasType(strict, s[1], tys[1]);
    ConsTyped(strict, s[0], s[1].elems, tys[0]);
    One(strict, VList([s[0]] + s[1].elems), tys[1]);
  }

  lemma {:induction false} BuildSafe(strict: bool, op: DataOp, s: seq<Value>, tys: seq<Ty>)
    requires StackHas(strict, s, tys) && CheckData(op, tys).Some?
    requires op.MkSome? || op.MkNone? || op.MkLeft? || op.MkRight? || op.Nil? || op.SizeList? || op.SizeMap?
    ensures Delivers(strict, DataEffect(op, s), CheckData(op, tys).value)
  {
    if op.MkSome? {
      One(strict, VSome(s[0]), TOption(tys[0]));
    } else if op.MkLeft? {
      One(strict, VLeft(s[0]), TOr(tys[0], op.ty));
    } else if op.MkRight? {
      One(strict, VRight(s[0]), TOr(op.ty, tys[0]));
    } else if op.SizeList? || op.SizeMap? {
      assert HasType(strict, s[0], tys[0]);
    }
  }

  lemma {:induction false} DataSafe(strict: bool, op: DataOp, s: seq<Value>, tys: seq<Ty>)
    requires StackHas(strict, s, tys) && CheckData(op, tys).Some?
    ensures Delivers(strict, DataEffect(op, s), CheckData(op, tys).value)
  {
    if op.Mem? || op.Get? {
      MapSafe(strict, op, s, tys);
    } else if op.Update? || op.GetAndUpdate? {
      UpdateSafe(strict, op, s, tys);
    } else if op.Cons? {
      ConsSafe(strict, s, tys);
    } else {
      BuildSafe(strict, op, s, tys);
    }
  }

  lemma {:induction false} TicketTyped(strict: bool, t: Ticket, amount: nat, ty: Ty)
    requires HasType(strict, VTicket(t), ty)
    ensures HasType(strict, VTicket(t.(amount := amount)), ty)
  {
  }

  lemma {:induction false} SplitSafe(strict: bool, ctx: Context, s: seq<Value>, tys: seq<Ty>)
    requires StackHas(strict, s, tys) && CheckLinear(strict, SplitTicket, tys).Some?
    ensures Delivers(strict, LinearEffect(SplitTicket, ctx, s), CheckLinear(strict, SplitTicket, tys).value)
  {
    assert HasType(strict, s[0], tys[0]) && HasType(strict, s[1], tys[1]);
    var t, p := s[0].ticket, s[1];
    assert HasType(strict, p.fst, TNat) && HasType(strict, p.snd, TNat);
    TicketTyped(strict, t, p.fst.n, tys[0]);
    TicketTyped(strict, t, p.snd.n, tys[0]);
    var both := VPair(VTicket(t.(amount := p.fst.n)), VTicket(t.(amount := p.snd.n)));
    assert HasType(strict, both, TPair(tys[0], tys[0]));
    assert HasType(strict, Split(t, p.fst.n, p.snd.n), TOption(TPair(tys[0], tys[0])));
  }

  lemma {:induction false} JoinSafe(strict: bool, ctx: Context, s: seq<Value>, tys: seq<Ty>)
    requires StackHas(strict, s, tys) && CheckLinear(strict, JoinTickets, tys).Some?
    ensures if JoinsIncomparable(OnLinear(JoinTickets), s)
            then !strict && LinearEffect(JoinTickets, ctx, s) == Effect(0, Halt(Incomparable))
            else Delivers(strict, LinearEffect(JoinTickets, ctx, s), CheckLinear(strict, JoinTickets, tys).value)
  {
    assert HasType(strict, s[0], tys[0]);
    var ty := tys[0].fst;
    assert HasType(strict, s[0].fst, ty) && HasType(strict, s[0].snd, ty);
    var x, y := s[0].fst.ticket, s[0].snd.ticket;
    TicketTyped(strict, x, x.amount + y.amount, ty);
    assert HasType(strict, Join(x, y), TOption(ty));
    if strict {
      TypedIsKey(strict, x.content, ty.content);
      TypedIsKey(strict, y.content, ty.content);
      Ordering.CostDefined(x.content, y.content, ty.content);
    }
  }

  lemma {:induction false} ReadSafe(strict: bool, ctx: Context, s: seq<Value>, tys: seq<Ty>)
    requires StackHas(strict, s, tys) && CheckLinear(strict, ReadTicket, tys).Some?
    ensures Delivers(strict, LinearEffect(ReadTicket, ctx, s), CheckLinear(strict, ReadTicket, tys).value)
  {
    assert HasType(strict, s[0], tys[0]);
    var t := s[0].ticket;
    assert HasType(strict, VPair(t.content, VNat(t.amount)), TPair(tys[0].content, TNat));
    One(strict, Unwrapped(t), TPair(TAddress, TPair(tys[0].content, TNat)));
  }

  lemma {:induction false} ApplySafe(strict: bool, ty: Ty, ctx: Context, s: seq<Value>, tys: seq<Ty>)
    requires StackHas(strict, s, tys) && CheckLinear(strict, Apply(ty), tys).Some?
    ensures Delivers(strict, LinearEffect(Apply(ty), ctx, s), CheckLinear(strict, Apply(ty), tys).value)
  {
    assert HasType(strict, s[0], tys[0]) && HasType(strict, s[1], tys[1]);
    assert ClosureHas(strict, Applied(ty, s[0], s[1].closure), tys[1].arg.snd, tys[1].res);
    One(strict, VLambda(Applied(ty, s[0], s[1].closure)), TLambda(tys[1].arg.snd, tys[1].res));
  }

  lemma {:induction false} MintSafe(strict: bool, ctx: Context, s: seq<Value>, tys: seq<Ty>)
    requires StackHas(strict, s, tys) && CheckLinear(strict, MkTicket, tys).Some?
    ensures Delivers(strict, LinearEffect(MkTicket, ctx, s), CheckLinear(strict, MkTicket, tys).value)
  {
    assert HasType(strict, s[0], tys[0]) && HasType(strict, s[1], tys[1]);
    SomeTyped(strict, VTicket(Ticket(ctx.self, s[0], s[1].n)), TTicket(tys[0]));
  }

  lemma {:induction false} LinearSafe(strict: bool, op: LinearOp, ctx: Context, s: seq<Value>, tys: seq<Ty>)
    requires StackHas(strict, s, tys) && CheckLinear(strict, op, tys).Some?
    ensures if JoinsIncomparable(OnLinear(op), s)
            then !strict && LinearEffect(op, ctx, s) == Effect(0, Halt(Incomparable))
            else Delivers(strict, LinearEffect(op, ctx, s), CheckLinear(strict, op, tys).value)
  {
    match op
    case MkLambda(a, b, c) => One(strict, VLambda(c), TLambda(a, b));
    case Apply(ty) => ApplySafe(strict, ty, ctx, s, tys);
    case MkTicket => MintSafe(strict, ctx, s, tys);
    case ReadTicket => ReadSafe(strict, ctx, s, tys);
    case SplitTicket => SplitSafe(strict, ctx, s, tys);
    case JoinTickets => JoinSafe(strict, ctx, s, tys);
  }

  /**
   * An accepted instruction stops abruptly exactly when it joins tickets with incomparable contents, which the
   * strict rules exclude; otherwise it leaves what its rule says.
   */
  lemma {:induction false} OpSafe(strict: bool, op: Op, ctx: Context, s: seq<Value>, tys: seq<Ty>)
    requires StackHas(strict, s, tys) && CheckOp(strict, op, tys).Some? && ContextOk(ctx)
    ensures if JoinsIncomparable(op, s)
            then !strict && OpEffect(op, ctx, s) == Effect(0, Halt(Incomparable))
            else Delivers(strict, OpEffect(op, ctx, s), CheckOp(strict, op, tys).value)
  {
    match op
    case OnStack(o) => StackSafe(strict, o, s, tys);
    case OnPair(o) => PairSafe(strict, o, s, tys);
    case OnNum(o) => NumSafe(strict, o, ctx, s, tys);
    case OnData(o) => DataSafe(strict, o, s, tys);
    case OnLinear(o) => LinearSafe(strict, o, ctx, s, tys);
  }
}
