/**
 * The interpreter as a function of the state: nested code, loops, lambdas and gas.
 *
 * A state has the stack (listed from the top), the remaining milligas and a log of the tickets made so far.
 * Every recursive call either has less gas or runs a smaller piece of code with no more gas.
 */
module Interpreter {
  import opened Syntax
  import opened Costs
  import opened Ops

  datatype State = State(stack: seq<Value>, gas: nat, minted: seq<Ticket>)

  datatype Outcome = Done(state: State) | Failed(error: Error) | Panicked(panic: Panic)

  const INTERPRET_RET: nat := 15
  const STEP: nat := 10
  const ITER: nat := 20

  /** A price that fits 32 bits and the remaining gas. */
  predicate Affordable(cost: nat, gas: nat) {
    cost <= gas && cost <= MAX_U32
  }

  function Spend(cost: nat, st: State): State
    requires Affordable(cost, st.gas)
  {
    st.(gas := st.gas - cost)
  }

  function Pay(cost: nat, st: State): (o: Outcome)
    ensures o.Done? ==> o.state.gas + cost == st.gas
  {
    if Affordable(cost, st.gas) then Done(Spend(cost, st)) else Failed(OutOfGas)
  }

  function RunOp(ctx: Context, op: Op, st: State): (o: Outcome)
    ensures o.Done? ==> o.state.gas <= st.gas
  {
    var e := OpEffect(op, ctx, st.stack);
    if !Affordable(e.cost, st.gas) then Failed(OutOfGas)
    else
      match e.after
      case Next(take, push, minted) =>
        Done(State(push + st.stack[take..], st.gas - e.cost, st.minted + minted))
      case Raise(error) => Failed(error)
      case Halt(panic) => Panicked(panic)
  }

  /** The code and the stack that a conditional goes on with. */
  datatype Branch = Branch(code: seq<Instr>, stack: seq<Value>)

  predicate IsBranch(i: Instr) {
    i.If? || i.IfNone? || i.IfCons? || i.IfLeft?
  }

  function ChooseBranch(i: Instr, s: seq<Value>): Option<Branch>
    requires IsBranch(i)
  {
    if s == [] then None else
    match i
    case If(yes, no) =>
      if s[0].VBool? then Some(Branch(if s[0].b then yes else no, s[1..])) else None
    case IfNone(none, some) =>
      if s[0].VSome? then Some(Branch(some, [s[0].inner] + s[1..]))
      else if s[0].VNone? then Some(Branch(none, s[1..]))
      else None
    case IfCons(cons, nil) =>
      if !s[0].VList? then None
      else if s[0].elems == [] then Some(Branch(nil, s[1..]))
      else Some(Branch(cons, [s[0].elems[0], VList(s[0].elems[1..])] + s[1..]))
    case IfLeft(left, right) =>
      if s[0].VLeft? then Some(Branch(left, [s[0].inner] + s[1..]))
      else if s[0].VRight? then Some(Branch(right, [s[0].inner] + s[1..]))
      else None
  }

  /** What the head of a loop decides. */
  datatype Turn = Again(stack: seq<Value>) | Leave(stack: seq<Value>)

  function LoopHead(left: bool, s: seq<Value>): Option<Turn> {
    if s == [] then None
    else if left then
      if s[0].VLeft? then Some(Again([s[0].inner] + s[1..]))
      else if s[0].VRight? then Some(Leave([s[0].inner] + s[1..]))
      else None
    else if s[0].VBool? then
      if s[0].b then Some(Again(s[1..])) else Some(Leave(s[1..]))
    else None
  }

  function PairsOf(m: seq<Entry>): (r: seq<Value>)
    ensures |r| == |m|
    ensures forall i :: 0 <= i < |m| ==> r[i] == VPair(m[i].key, m[i].val)
  {
    seq(|m|, i requires 0 <= i < |m| => VPair(m[i].key, m[i].val))
  }

  /** The values that ITER and MAP hand to their body, in order. */
  function Items(over: Container, v: Value): Option<seq<Value>> {
    match over
    case OverList => if v.VList? then Some(v.elems) else None
    case OverOption => if v.VSome? then Some([v.inner]) else if v.VNone? then Some([]) else None
    case OverMap => if v.VMap? then Some(PairsOf(v.entries)) else None
  }

  function WithValues(m: seq<Entry>, vs: seq<Value>): (r: seq<Entry>)
    requires |m| == |vs|
    ensures |r| == |m|
    ensures forall i :: 0 <= i < |m| ==> r[i] == Entry(m[i].key, vs[i])
  {
    seq(|m|, i requires 0 <= i < |m| => Entry(m[i].key, vs[i]))
  }

  /** The container that MAP leaves, given the results for its items. */
  function Rebuild(over: Container, v: Value, results: seq<Value>): Value
    requires Items(over, v).Some? && |Items(over, v).value| == |results|
  {
    match over
    case OverList => VList(results)
    case OverOption => if results == [] then VNone else VSome(results[0])
    case OverMap => VMap(WithValues(v.entries, results))
  }

  function MapEntryCost(over: Container): nat {
    if over.OverMap? then 20 else 10
  }

  /** A sequence of instructions, followed by the fixed price of returning. */
  function InterpSeq(ctx: Context, code: seq<Instr>, st: State): (o: Outcome)
    ensures o.Done? ==> o.state.gas <= st.gas
    decreases st.gas, code, 0
  {
    if code == [] then Pay(INTERPRET_RET, st)
    else
      match Interp(ctx, code[0], st)
      case Done(next) => InterpSeq(ctx, code[1..], next)
      case other => other
  }

  function Interp(ctx: Context, i: Instr, st: State): (o: Outcome)
    ensures o.Done? ==> o.state.gas <= st.gas
    decreases st.gas, i, 1
  {
    match i
    case Simple(op) => RunOp(ctx, op, st)
    case Block(body) => InterpSeq(ctx, body, st)
    case Loop(body) => EnterLoop(ctx, false, body, st)
    case LoopLeft(body) => EnterLoop(ctx, true, body, st)
    case Iter(over, body) =>
      if !Affordable(ITER, st.gas) then Failed(OutOfGas)
      else if st.stack == [] || over.OverOption? || Items(over, st.stack[0]).None? then Panicked(BadState)
      else IterRun(ctx, body, Items(over, st.stack[0]).value, Spend(ITER, st).(stack := st.stack[1..]))
    case Map(over, body) => RunMap(ctx, over, body, st)
    case Dip(height, body) => RunDip(ctx, height, body, st)
    case Exec =>
      if !Affordable(STEP, st.gas) then Failed(OutOfGas)
      else if |st.stack| < 2 || !st.stack[1].VLambda? then Panicked(BadState)
      else ExecRun(ctx, st.stack[1].closure, st.stack[0], Spend(STEP, st).(stack := st.stack[2..]))
    case _ =>
      if !Affordable(STEP, st.gas) then Failed(OutOfGas)
      else
        match ChooseBranch(i, st.stack)
        case None => Panicked(BadState)
        case Some(b) => InterpSeq(ctx, b.code, Spend(STEP, st).(stack := b.stack))
  }

  function EnterLoop(ctx: Context, left: bool, body: seq<Instr>, st: State): (o: Outcome)
    ensures o.Done? ==> o.state.gas <= st.gas
    decreases st.gas, body, 1
  {
    if Affordable(STEP, st.gas) then LoopRun(ctx, left, body, Spend(STEP, st)) else Failed(OutOfGas)
  }

  /** Each turn of a loop is paid for before the top of the stack decides whether the body runs again. */
  function LoopRun(ctx: Context, left: bool, body: seq<Instr>, st: State): (o: Outcome)
    ensures o.Done? ==> o.state.gas <= st.gas
    decreases st.gas, body, 1
  {
    if !Affordable(STEP, st.gas) then Failed(OutOfGas)
    else
      match LoopHead(left, st.stack)
      case None => Panicked(BadState)
      case Some(Leave(s)) => Pay(STEP, Spend(STEP, st).(stack := s))
      case Some(Again(s)) =>
        match InterpSeq(ctx, body, Spend(STEP, st).(stack := s))
        case Done(next) => LoopRun(ctx, left, body, next)
        case other => other
  }

  function IterRun(ctx: Context, body: seq<Instr>, items: seq<Value>, st: State): (o: Outcome)
    ensures o.Done? ==> o.state.gas <= st.gas
    decreases st.gas, body, 1
  {
    if items == [] then Done(st)
    else if !Affordable(STEP, st.gas) then Failed(OutOfGas)
    else
      match InterpSeq(ctx, body, Spend(STEP, st).(stack := [items[0]] + st.stack))
      case Done(next) => IterRun(ctx, body, items[1..], next)
      case other => other
  }

  /** MAP: runs the body on each item and collects the values it leaves on top, as a list above the stack. */
  function MapRun(ctx: Context, body: seq<Instr>, items: seq<Value>, done: seq<Value>, st: State): (o: Outcome)
    ensures o.Done? ==> o.state.gas <= st.gas
    ensures o.Done? ==> o.state.stack != [] && o.state.stack[0].VList?
    ensures o.Done? ==> |o.state.stack[0].elems| == |done| + |items|
    decreases st.gas, body, 1
  {
    if items == [] then Done(st.(stack := [VList(done)] + st.stack))
    else if !Affordable(STEP, st.gas) then Failed(OutOfGas)
    else
      match InterpSeq(ctx, body, Spend(STEP, st).(stack := [items[0]] + st.stack))
      case Done(next) =>
        if next.stack == [] then Panicked(BadState)
        else MapRun(ctx, body, items[1..], done + [next.stack[0]], next.(stack := next.stack[1..]))
      case other => other
  }

  function RunMap(ctx: Context, over: Container, body: seq<Instr>, st: State): (o: Outcome)
    ensures o.Done? ==> o.state.gas <= st.gas
    decreases st.gas, body, 2
  {
    if !Affordable(MapEntryCost(over), st.gas) then Failed(OutOfGas)
    else if st.stack == [] || Items(over, st.stack[0]).None? then Panicked(BadState)
    else
      var items := Items(over, st.stack[0]).value;
      match MapRun(ctx, body, items, [], Spend(MapEntryCost(over), st).(stack := st.stack[1..]))
      case Done(next) =>
        Done(next.(stack := [Rebuild(over, st.stack[0], next.stack[0].elems)] + next.stack[1..]))
      case other => other
  }

  function RunDip(ctx: Context, height: Option<nat>, body: seq<Instr>, st: State): (o: Outcome)
    ensures o.Done? ==> o.state.gas <= st.gas
    decreases st.gas, body, 1
  {
    if !Affordable(DipCost(height), st.gas) then Failed(OutOfGas)
    else if |st.stack| < Height(height) then Panicked(BadState)
    else
      match InterpSeq(ctx, body, Spend(DipCost(height), st).(stack := st.stack[Height(height)..]))
      case Done(next) => Pay(UndipCost(Height(height)), next.(stack := st.stack[..Height(height)] + next.stack))
      case other => other
  }

  /** EXEC: captured arguments are paired in front of the argument; the code then runs on a stack of its own. */
  function ExecRun(ctx: Context, c: Closure, arg: Value, st: State): (o: Outcome)
    ensures o.Done? ==> o.state.gas <= st.gas
    decreases st.gas, c, 0
  {
    match c
    case Applied(_, captured, inner) =>
      if Affordable(STEP, st.gas) then ExecRun(ctx, inner, VPair(captured, arg), Spend(STEP, st))
      else Failed(OutOfGas)
    case _ =>
      match InterpSeq(ctx, c.code, st.(stack := if c.Recursive? then [arg, VLambda(c)] else [arg]))
      case Done(next) =>
        if next.stack == [] then Panicked(BadState)
        else Done(next.(stack := [next.stack[0]] + st.stack))
      case other => other
  }
}
