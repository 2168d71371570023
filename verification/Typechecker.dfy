/**
 * The typechecker's rules for the fragment.
 *
 * With `strict` false they are the rules of the source.  With `strict` true two premises are added that the
 * source leaves out: TICKET needs a comparable content type, and APPLY must not capture a type that holds tickets.
 */
module Typechecker {
  import opened Syntax
  import opened Ops
  import opened Interpreter

  datatype Property = Comparable | Pushable | Duplicable

  predicate Prop(t: Ty, p: Property) {
    match t
    case TTicket(_) => false
    case TPair(a, b) => Prop(a, p) && Prop(b, p)
    case TOr(a, b) => Prop(a, p) && Prop(b, p)
    case TOption(a) => Prop(a, p)
    case TList(a) => p != Comparable && Prop(a, p)
    case TMap(_, v) => p != Comparable && Prop(v, p)
    case TLambda(_, _) => p != Comparable
    case _ => true
  }

  /** Types that can be written: map keys and ticket contents are comparable. */
  predicate WellFormed(t: Ty) {
    match t
    case TTicket(c) => WellFormed(c) && Prop(c, Comparable)
    case TPair(a, b) => WellFormed(a) && WellFormed(b)
    case TOr(a, b) => WellFormed(a) && WellFormed(b)
    case TOption(a) => WellFormed(a)
    case TList(a) => WellFormed(a)
    case TMap(k, v) => WellFormed(k) && Prop(k, Comparable) && WellFormed(v)
    case TLambda(a, b) => WellFormed(a) && WellFormed(b)
    case _ => true
  }

  /** Stack types after a piece of code, listed from the top; Failing code never returns. */
  datatype StackTy = Live(tys: seq<Ty>) | Failing

  /** What a simple instruction does to the stack type. */
  datatype Rule = Rewrites(take: nat, push: seq<Ty>) | Fails

  predicate U10(n: nat) { n < 1024 }

  predicate U10Height(h: Option<nat>) { h.Some? ==> U10(h.value) }

  function CombTy(ts: seq<Ty>): Ty
    requires ts != []
  {
    if |ts| == 1 then ts[0] else TPair(ts[0], CombTy(ts[1..]))
  }

  function UncombTy(n: nat, t: Ty): Option<seq<Ty>> {
    if n == 0 then Some([t])
    else if t.TPair? then
      match UncombTy(n - 1, t.snd)
      case None => None
      case Some(rest) => Some([t.fst] + rest)
    else None
  }

  function NthFieldTy(n: nat, t: Ty): Option<Ty> {
    if n == 0 then Some(t)
    else if !t.TPair? then None
    else if n == 1 then Some(t.fst)
    else NthFieldTy(n - 2, t.snd)
  }

  function WithNthFieldTy(n: nat, t: Ty, x: Ty): Option<Ty> {
    if n == 0 then Some(x)
    else if !t.TPair? then None
    else if n == 1 then Some(TPair(x, t.snd))
    else
      match WithNthFieldTy(n - 2, t.snd, x)
      case None => None
      case Some(tail) => Some(TPair(t.fst, tail))
  }

  function CheckPair(op: PairOp, tys: seq<Ty>): Option<Rule> {
    match op
    case Car => if tys != [] && tys[0].TPair? then Some(Rewrites(1, [tys[0].fst])) else None
    case Cdr => if tys != [] && tys[0].TPair? then Some(Rewrites(1, [tys[0].snd])) else None
    case MkPair => if |tys| >= 2 then Some(Rewrites(2, [TPair(tys[0], tys[1])])) else None
    case Unpair => if tys != [] && tys[0].TPair? then Some(Rewrites(1, [tys[0].fst, tys[0].snd])) else None
    case PairN(n) =>
      if U10(n) && 2 <= n <= |tys| then Some(Rewrites(n, [CombTy(tys[..n])])) else None
    case UnpairN(n) =>
      if U10(n) && 2 <= n && tys != [] && UncombTy(n - 1, tys[0]).Some?
      then Some(Rewrites(1, UncombTy(n - 1, tys[0]).value))
      else None
    case GetN(n) =>
      if U10(n) && tys != [] && NthFieldTy(n, tys[0]).Some?
      then Some(Rewrites(1, [NthFieldTy(n, tys[0]).value]))
      else None
    case UpdateN(n) =>
      if U10(n) && |tys| >= 2 && WithNthFieldTy(n, tys[1], tys[0]).Some?
      then Some(Rewrites(2, [WithNthFieldTy(n, tys[1], tys[0]).value]))
      else None
  }

  function OperandTys(o: Operands): seq<Ty> {
    match o
    case IntInt => [TInt, TInt]
    case IntNat => [TInt, TNat]
    case NatInt => [TNat, TInt]
    case NatNat => [TNat, TNat]
  }

  /** The rule that replaces the given types on top of the stack by one type. */
  function Takes(ins: seq<Ty>, out: Ty, tys: seq<Ty>): (r: Option<Rule>)
    ensures r.Some? ==> |ins| <= |tys| && forall i :: 0 <= i < |ins| ==> tys[i] == ins[i]
  {
    if ins <= tys then Some(Rewrites(|ins|, [out])) else None
  }

  function CheckNum(op: NumOp, tys: seq<Ty>): Option<Rule> {
    match op
    case Add(o) => Takes(OperandTys(o), if o.NatNat? then TNat else TInt, tys)
    case Mul(o) => Takes(OperandTys(o), if o.NatNat? then TNat else TInt, tys)
    case AddMutez => Takes([TMutez, TMutez], TMutez, tys)
    case SubMutez => Takes([TMutez, TMutez], TOption(TMutez), tys)
    case MulMutezNat => Takes([TMutez, TNat], TMutez, tys)
    case MulNatMutez => Takes([TNat, TMutez], TMutez, tys)
    case Neg(ofNat) => Takes([if ofNat then TNat else TInt], TInt, tys)
    case Abs => Takes([TInt], TNat, tys)
    case IsNat => Takes([TInt], TOption(TNat), tys)
    case IntOfNat => Takes([TNat], TInt, tys)
    case Test(_) => Takes([TInt], TBool, tys)
    case Logic(_) => Takes([TBool, TBool], TBool, tys)
    case NotBool => Takes([TBool], TBool, tys)
    case Compare =>
      if |tys| >= 2 && tys[0] == tys[1] && Prop(tys[0], Comparable) then Some(Rewrites(2, [TInt])) else None
    case Amount => Some(Rewrites(0, [TMutez]))
    case Balance => Some(Rewrites(0, [TMutez]))
  }

  function CheckData(op: DataOp, tys: seq<Ty>): Option<Rule> {
    match op
    case MkSome => if tys != [] then Some(Rewrites(1, [TOption(tys[0])])) else None
    case MkNone(t) => if WellFormed(t) then Some(Rewrites(0, [TOption(t)])) else None
    case MkLeft(t) => if tys != [] && WellFormed(t) then Some(Rewrites(1, [TOr(tys[0], t)])) else None
    case MkRight(t) => if tys != [] && WellFormed(t) then Some(Rewrites(1, [TOr(t, tys[0])])) else None
    case Nil(t) => if WellFormed(t) then Some(Rewrites(0, [TList(t)])) else None
    case Cons => if |tys| >= 2 && tys[1] == TList(tys[0]) then Some(Rewrites(2, [tys[1]])) else None
    case SizeList => if tys != [] && tys[0].TList? then Some(Rewrites(1, [TNat])) else None
    case SizeMap => if tys != [] && tys[0].TMap? then Some(Rewrites(1, [TNat])) else None
    case Mem =>
      if |tys| >= 2 && tys[1].TMap? && tys[1].key == tys[0] then Some(Rewrites(2, [TBool])) else None
    case Get =>
      if |tys| >= 2 && tys[1].TMap? && tys[1].key == tys[0]
      then Some(Rewrites(2, [TOption(tys[1].val)]))
      else None
    case Update =>
      if |tys| >= 3 && tys[2].TMap? && tys[2].key == tys[0] && tys[1] == TOption(tys[2].val)
      then Some(Rewrites(3, [tys[2]]))
      else None
    case GetAndUpdate =>
      if |tys| >= 3 && tys[2].TMap? && tys[2].key == tys[0] && tys[1] == TOption(tys[2].val)
      then Some(Rewrites(3, [tys[1], tys[2]]))
      else None
  }

  function CheckStack(strict: bool, op: StackOp, tys: seq<Ty>): Option<Rule>
    decreases op
  {
    match op
    case Drop(h) => if U10Height(h) && Height(h) <= |tys| then Some(Rewrites(Height(h), [])) else None
    case Dup(h) =>
      if U10Height(h) && 1 <= Height(h) <= |tys| && Prop(tys[Height(h) - 1], Duplicable)
      then Some(Rewrites(0, [tys[Height(h) - 1]]))
      else None
    case Dig(n) =>
      if !U10(n) || n >= |tys| + (if n == 0 then 1 else 0) then None
      else if n == 0 then Some(Rewrites(0, []))
      else Some(Rewrites(n + 1, [tys[n]] + tys[..n]))
    case Dug(n) =>
      if !U10(n) || n >= |tys| + (if n == 0 then 1 else 0) then None
      else if n == 0 then Some(Rewrites(0, []))
      else Some(Rewrites(n + 1, tys[1..n + 1] + [tys[0]]))
    case Swap => if |tys| >= 2 then Some(Rewrites(2, [tys[1], tys[0]])) else None
    case Push(t, v) =>
      if WellFormed(t) && Prop(t, Pushable) && Written(v) && HasType(strict, v, t) then Some(Rewrites(0, [t])) else None
    case MkUnit => Some(Rewrites(0, [TUnit]))
    case Failwith(t) => if tys != [] && tys[0] == t && Prop(t, Pushable) then Some(Fails) else None
    case Never => if tys != [] && tys[0] == TNever then Some(Fails) else None
  }

  function CheckLinear(strict: bool, op: LinearOp, tys: seq<Ty>): Option<Rule>
    decreases op
  {
    match op
    case MkLambda(a, b, c) =>
      if !c.Applied? && WellFormed(a) && WellFormed(b) && ClosureHas(strict, c, a, b)
      then Some(Rewrites(0, [TLambda(a, b)]))
      else None
    case Apply(t) =>
      if |tys| >= 2 && tys[0] == t && tys[1].TLambda? && tys[1].arg.TPair? && tys[1].arg.fst == t
         && (strict ==> Prop(t, Duplicable))
      then Some(Rewrites(2, [TLambda(tys[1].arg.snd, tys[1].res)]))
      else None
    case MkTicket =>
      if |tys| >= 2 && tys[1] == TNat && (strict ==> Prop(tys[0], Comparable))
      then Some(Rewrites(2, [TOption(TTicket(tys[0]))]))
      else None
    case ReadTicket =>
      if tys != [] && tys[0].TTicket?
      then Some(Rewrites(0, [TPair(TAddress, TPair(tys[0].content, TNat))]))
      else None
    case SplitTicket =>
      if |tys| >= 2 && tys[0].TTicket? && tys[1] == TPair(TNat, TNat)
      then Some(Rewrites(2, [TOption(TPair(tys[0], tys[0]))]))
      else None
    case JoinTickets =>
      if tys != [] && tys[0].TPair? && tys[0].fst.TTicket? && tys[0].snd == tys[0].fst
      then Some(Rewrites(1, [TOption(tys[0].fst)]))
      else None
  }

  function CheckOp(strict: bool, op: Op, tys: seq<Ty>): Option<Rule>
    decreases op
  {
    match op
    case OnStack(o) => CheckStack(strict, o, tys)
    case OnPair(o) => CheckPair(o, tys)
    case OnNum(o) => CheckNum(o, tys)
    case OnData(o) => CheckData(o, tys)
    case OnLinear(o) => CheckLinear(strict, o, tys)
  }

  function AfterRule(r: Option<Rule>, tys: seq<Ty>): Option<StackTy> {
    match r
    case None => None
    case Some(Fails) => Some(Failing)
    case Some(Rewrites(take, push)) => if take <= |tys| then Some(Live(push + tys[take..])) else None
  }

  /** Failing code unifies with anything. */
  function Unify(a: Option<StackTy>, b: Option<StackTy>): Option<StackTy> {
    if a.None? || b.None? then None
    else if a.value.Failing? then b
    else if b.value.Failing? || a == b then a
    else None
  }

  /** The type of the items that a body of ITER or MAP works on. */
  function ItemTy(over: Container, t: Ty): Option<Ty> {
    match over
    case OverList => if t.TList? then Some(t.elem) else None
    case OverOption => if t.TOption? then Some(t.elem) else None
    case OverMap => if t.TMap? then Some(TPair(t.key, t.val)) else None
  }

  function RebuildTy(over: Container, t: Ty, u: Ty): Ty
    requires ItemTy(over, t).Some?
  {
    match over
    case OverList => TList(u)
    case OverOption => TOption(u)
    case OverMap => TMap(t.key, u)
  }

  function CheckSeq(strict: bool, code: seq<Instr>, tys: seq<Ty>): Option<StackTy>
    decreases code, 0
  {
    if code == [] then Some(Live(tys))
    else
      match Check(strict, code[0], tys)
      case None => None
      case Some(Failing) => if |code| == 1 then Some(Failing) else None
      case Some(Live(next)) => CheckSeq(strict, code[1..], next)
  }

  /** The two stack types on which the branches of a conditional are checked. */
  function BranchTys(i: Instr, tys: seq<Ty>): Option<(seq<Ty>, seq<Ty>)>
    requires IsBranch(i)
  {
    if tys == [] then None else
    match i
    case If(_, _) => if tys[0] == TBool then Some((tys[1..], tys[1..])) else None
    case IfNone(_, _) =>
      if tys[0].TOption? then Some((tys[1..], [tys[0].elem] + tys[1..])) else None
    case IfCons(_, _) =>
      if tys[0].TList? then Some(([tys[0].elem] + tys, tys[1..])) else None
    case IfLeft(_, _) =>
      if tys[0].TOr? then Some(([tys[0].left] + tys[1..], [tys[0].right] + tys[1..])) else None
  }

  function FirstCode(i: Instr): (code: seq<Instr>)
    requires IsBranch(i)
    ensures (i decreases to code)
  {
    match i
    case If(a, _) => a
    case IfNone(a, _) => a
    case IfCons(a, _) => a
    case IfLeft(a, _) => a
  }

  function SecondCode(i: Instr): (code: seq<Instr>)
    requires IsBranch(i)
    ensures (i decreases to code)
  {
    match i
    case If(_, b) => b
    case IfNone(_, b) => b
    case IfCons(_, b) => b
    case IfLeft(_, b) => b
  }

  function Check(strict: bool, i: Instr, tys: seq<Ty>): Option<StackTy>
    decreases i, 1
  {
    match i
    case Simple(op) => AfterRule(CheckOp(strict, op, tys), tys)
    case Block(body) => CheckSeq(strict, body, tys)
    case Loop(body) =>
      if tys == [] || tys[0] != TBool then None
      else if Unify(CheckSeq(strict, body, tys[1..]), Some(Live(tys))).Some? then Some(Live(tys[1..]))
      else None
    case LoopLeft(body) =>
      if tys == [] || !tys[0].TOr? then None
      else if Unify(CheckSeq(strict, body, [tys[0].left] + tys[1..]), Some(Live(tys))).Some?
      then Some(Live([tys[0].right] + tys[1..]))
      else None
    case Iter(over, body) =>
      if tys == [] || over.OverOption? || ItemTy(over, tys[0]).None? then None
      else
        Unify(Some(Live(tys[1..])), CheckSeq(strict, body, [ItemTy(over, tys[0]).value] + tys[1..]))
    case Map(over, body) =>
      if tys == [] || ItemTy(over, tys[0]).None? then None
      else
        (match CheckSeq(strict, body, [ItemTy(over, tys[0]).value] + tys[1..])
         case Some(Live(u)) =>
           if u != [] && u[1..] == tys[1..] then Some(Live([RebuildTy(over, tys[0], u[0])] + tys[1..])) else None
         case _ => None)
    case Dip(height, body) =>
      if !U10Height(height) || |tys| < Height(height) then None
      else
        (match CheckSeq(strict, body, tys[Height(height)..])
         case Some(Live(u)) => Some(Live(tys[..Height(height)] + u))
         case _ => None)
    case Exec =>
      if |tys| >= 2 && tys[1].TLambda? && tys[1].arg == tys[0] then Some(Live([tys[1].res] + tys[2..])) else None
    case _ =>
      match BranchTys(i, tys)
      case None => None
      case Some((a, b)) => Unify(CheckSeq(strict, FirstCode(i), a), CheckSeq(strict, SecondCode(i), b))
  }

  /** A value that can be written in a program: its lambdas have captured nothing. */
  predicate Written(v: Value)
    decreases v
  {
    match v
    case VPair(x, y) => Written(x) && Written(y)
    case VSome(x) => Written(x)
    case VLeft(x) => Written(x)
    case VRight(x) => Written(x)
    case VList(vs) => forall i :: 0 <= i < |vs| ==> Written(vs[i])
    case VMap(m) => forall i :: 0 <= i < |m| ==> WrittenEntry(m[i])
    case VLambda(c) => !c.Applied?
    case VTicket(t) => Written(t.content)
    case _ => true
  }

  predicate WrittenEntry(e: Entry)
    decreases e
  {
    Written(e.key) && Written(e.val)
  }

  predicate AllHave(strict: bool, vs: seq<Value>, t: Ty)
    decreases vs
  {
    forall i :: 0 <= i < |vs| ==> HasType(strict, vs[i], t)
  }

  predicate EntriesHave(strict: bool, m: seq<Entry>, k: Ty, v: Ty)
    decreases m
  {
    forall i :: 0 <= i < |m| ==> EntryHas(strict, m[i], k, v)
  }

  predicate EntryHas(strict: bool, e: Entry, k: Ty, v: Ty)
    decreases e
  {
    HasType(strict, e.key, k) && HasType(strict, e.val, v)
  }

  predicate HasType(strict: bool, v: Value, t: Ty)
    decreases v
  {
    match v
    case VInt(_) => t == TInt
    case VNat(_) => t == TNat
    case VMutez(m) => t == TMutez && 0 <= m <= MAX_MUTEZ
    case VBool(_) => t == TBool
    case VUnit => t == TUnit
    case VAddress(_) => t == TAddress
    case VPair(x, y) => t.TPair? && HasType(strict, x, t.fst) && HasType(strict, y, t.snd)
    case VNone => t.TOption?
    case VSome(x) => t.TOption? && HasType(strict, x, t.elem)
    case VLeft(x) => t.TOr? && HasType(strict, x, t.left)
    case VRight(x) => t.TOr? && HasType(strict, x, t.right)
    case VList(vs) => t.TList? && AllHave(strict, vs, t.elem)
    case VMap(m) => t.TMap? && Prop(t.key, Comparable) && Sorted(m) && EntriesHave(strict, m, t.key, t.val)
    case VLambda(c) => t.TLambda? && ClosureHas(strict, c, t.arg, t.res)
    case VTicket(x) =>
      t.TTicket? && (strict ==> Prop(t.content, Comparable)) && HasType(strict, x.content, t.content)
  }

  predicate ClosureHas(strict: bool, c: Closure, a: Ty, b: Ty)
    decreases c
  {
    match c
    case Plain(code) => Unify(CheckSeq(strict, code, [a]), Some(Live([b]))).Some?
    case Recursive(code) => Unify(CheckSeq(strict, code, [a, TLambda(a, b)]), Some(Live([b]))).Some?
    case Applied(t, x, inner) =>
      HasType(strict, x, t) && ClosureHas(strict, inner, TPair(t, a), b) && (strict ==> Prop(t, Duplicable))
  }

  predicate StackHas(strict: bool, s: seq<Value>, tys: seq<Ty>) {
    |s| == |tys| && forall i :: 0 <= i < |s| ==> HasType(strict, s[i], tys[i])
  }
}
