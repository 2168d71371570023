/**
 * What each instruction without nested code does to the stack.  Stacks are listed from the top.
 * An effect has a price and an outcome; the price is paid before the outcome happens.  Instructions that
 * inspect their operands before paying stop at price 0 when an operand is missing or has the wrong shape.
 */
module Ops {
  import opened Syntax
  import opened Costs

  datatype Error = OutOfGas | MutezOverflow | FailedWith(ty: Ty, value: Value)

  /** Why the interpreter stops abruptly: an operand of the wrong shape, or a comparison that has no price. */
  datatype Panic = BadState | Incomparable

  /** Next: the top `take` elements are replaced by `push`; `minted` lists the tickets made. */
  datatype After = Next(take: nat, push: seq<Value>, minted: seq<Ticket>) | Raise(error: Error) | Halt(panic: Panic)

  datatype Effect = Effect(cost: nat, after: After) {
    predicate Fits(height: nat) {
      after.Next? ==> after.take <= height
    }
  }

  function Go(cost: nat, take: nat, push: seq<Value>): Effect { Effect(cost, Next(take, push, [])) }

  function Bad(cost: nat): Effect { Effect(cost, Halt(BadState)) }

  // ---- maps: bindings in ascending key order ----

  predicate Sorted(m: seq<Entry>) {
    forall i, j :: 0 <= i < j < |m| ==> Cmp(m[i].key, m[j].key) < 0
  }

  /** Every stored key can be compared with the given one. */
  predicate Alike(key: Value, m: seq<Entry>) {
    forall i :: 0 <= i < |m| ==> CompareCost(key, m[i].key).Some?
  }

  function Find(m: seq<Entry>, key: Value): Option<Value> {
    if m == [] || Cmp(key, m[0].key) < 0 then None
    else if Cmp(key, m[0].key) == 0 then Some(m[0].val)
    else Find(m[1..], key)
  }

  function Insert(m: seq<Entry>, key: Value, val: Value): seq<Entry> {
    if m == [] || Cmp(key, m[0].key) < 0 then [Entry(key, val)] + m
    else if Cmp(key, m[0].key) == 0 then [Entry(m[0].key, val)] + m[1..]
    else [m[0]] + Insert(m[1..], key, val)
  }

  function Remove(m: seq<Entry>, key: Value): seq<Entry> {
    if m == [] || Cmp(key, m[0].key) < 0 then m
    else if Cmp(key, m[0].key) == 0 then m[1..]
    else [m[0]] + Remove(m[1..], key)
  }

  /** Binds the key when a value is given, and unbinds it otherwise. */
  function Updated(m: seq<Entry>, key: Value, val: Value): seq<Entry> {
    if val.VSome? then Insert(m, key, val.inner) else Remove(m, key)
  }

  function OptionValue(o: Option<Value>): Value {
    if o.Some? then VSome(o.value) else VNone
  }

  // ---- right combs ----

  function Comb(s: seq<Value>): Value
    requires s != []
  {
    if |s| == 1 then s[0] else VPair(s[0], Comb(s[1..]))
  }

  function Uncomb(n: nat, v: Value): Option<seq<Value>> {
    if n == 0 then Some([v])
    else if v.VPair? then
      match Uncomb(n - 1, v.snd)
      case None => None
      case Some(rest) => Some([v.fst] + rest)
    else None
  }

  /** The n-th node of a right comb: even numbers are tails, odd numbers are heads. */
  function NthField(n: nat, v: Value): Option<Value> {
    if n == 0 then Some(v)
    else if !v.VPair? then None
    else if n == 1 then Some(v.fst)
    else NthField(n - 2, v.snd)
  }

  function WithNthField(n: nat, v: Value, x: Value): Option<Value> {
    if n == 0 then Some(x)
    else if !v.VPair? then None
    else if n == 1 then Some(VPair(x, v.snd))
    else
      match WithNthField(n - 2, v.snd, x)
      case None => None
      case Some(tail) => Some(VPair(v.fst, tail))
  }

  // ---- effects ----

  function StackEffect(op: StackOp, s: seq<Value>): (e: Effect)
    ensures e.Fits(|s|)
  {
    match op
    case Drop(h) =>
      if Height(h) <= |s| then Go(DropCost(h), Height(h), []) else Bad(DropCost(h))
    case Dup(h) =>
      if 1 <= Height(h) <= |s| then Go(DupCost(h), 0, [s[Height(h) - 1]]) else Bad(DupCost(h))
    case Dig(n) =>
      if n == 0 then Go(DigCost(n), 0, [])
      else if n < |s| then Go(DigCost(n), n + 1, [s[n]] + s[..n])
      else Bad(DigCost(n))
    case Dug(n) =>
      if n == 0 then Go(DugCost(n), 0, [])
      else if n < |s| then Go(DugCost(n), n + 1, s[1..n + 1] + [s[0]])
      else Bad(DugCost(n))
    case Swap => if |s| >= 2 then Go(10, 2, [s[1], s[0]]) else Bad(10)
    case Push(_, v) => Go(10, 0, [v])
    case MkUnit => Go(10, 0, [VUnit])
    case Failwith(ty) => if s != [] then Effect(0, Raise(FailedWith(ty, s[0]))) else Bad(0)
    case Never => Bad(0)
  }

  function PairEffect(op: PairOp, s: seq<Value>): (e: Effect)
    ensures e.Fits(|s|)
  {
    match op
    case Car => if s != [] && s[0].VPair? then Go(10, 1, [s[0].fst]) else Bad(10)
    case Cdr => if s != [] && s[0].VPair? then Go(10, 1, [s[0].snd]) else Bad(10)
    case MkPair => if |s| >= 2 then Go(10, 2, [VPair(s[0], s[1])]) else Bad(10)
    case Unpair => if s != [] && s[0].VPair? then Go(10, 1, [s[0].fst, s[0].snd]) else Bad(10)
    case PairN(n) =>
      if 1 <= n <= |s| then Go(PairNCost(n), n, [Comb(s[..n])]) else Bad(PairNCost(n))
    case UnpairN(n) =>
      if n >= 1 && s != [] && Uncomb(n - 1, s[0]).Some?
      then Go(UnpairNCost(n), 1, Uncomb(n - 1, s[0]).value)
      else Bad(UnpairNCost(n))
    case GetN(n) =>
      if s != [] && NthField(n, s[0]).Some?
      then Go(GetNCost(n), 1, [NthField(n, s[0]).value])
      else Bad(GetNCost(n))
    case UpdateN(n) =>
      if |s| >= 2 && WithNthField(n, s[1], s[0]).Some?
      then Go(UpdateNCost(n), 2, [WithNthField(n, s[1], s[0]).value])
      else Bad(UpdateNCost(n))
  }

  function Number(v: Value): int {
    match v
    case VInt(i) => i
    case VNat(n) => n
    case _ => 0
  }

  /** The two operands have the tags that the overload expects. */
  predicate Matches(o: Operands, a: Value, b: Value) {
    match o
    case IntInt => a.VInt? && b.VInt?
    case IntNat => a.VInt? && b.VNat?
    case NatInt => a.VNat? && b.VInt?
    case NatNat => a.VNat? && b.VNat?
  }

  function NumberValue(o: Operands, z: int): Value {
    if o.NatNat? && z >= 0 then VNat(z) else VInt(z)
  }

  /** A checked 64-bit result. */
  function MutezResult(cost: nat, z: int): Effect {
    if -MAX_MUTEZ - 1 <= z <= MAX_MUTEZ then Go(cost, 2, [VMutez(z)]) else Effect(cost, Raise(MutezOverflow))
  }

  predicate Holds(r: Relation, i: int) {
    match r
    case Gt => i > 0
    case Ge => i >= 0
    case Eq => i == 0
    case Neq => i != 0
    case Le => i <= 0
    case Lt => i < 0
  }

  predicate Connect(c: Connective, a: bool, b: bool) {
    match c
    case And => a && b
    case Or => a || b
    case Xor => a != b
  }

  function NumEffect(op: NumOp, ctx: Context, s: seq<Value>): (e: Effect)
    ensures e.Fits(|s|)
  {
    match op
    case Add(o) =>
      if |s| >= 2 && Matches(o, s[0], s[1]) then
        var x, y := Number(s[0]), Number(s[1]);
        Go(AddCost(x, y), 2, [NumberValue(o, x + y)])
      else Bad(0)
    case Mul(o) =>
      if |s| >= 2 && Matches(o, s[0], s[1]) then
        var x, y := Number(s[0]), Number(s[1]);
        Go(MulCost(x, y), 2, [NumberValue(o, x * y)])
      else Bad(0)
    case AddMutez =>
      if |s| >= 2 && s[0].VMutez? && s[1].VMutez?
      then MutezResult(20, s[0].mutez + s[1].mutez)
      else Bad(0)
    case SubMutez =>
      if |s| >= 2 && s[0].VMutez? && s[1].VMutez? then
        if s[0].mutez >= s[1].mutez then Go(15, 2, [VSome(VMutez(s[0].mutez - s[1].mutez))])
        else Go(15, 2, [VNone])
      else Bad(15)
    case MulMutezNat =>
      if |s| >= 2 && s[0].VMutez? && s[1].VNat? then
        if s[1].n > MAX_MUTEZ then Effect(50, Raise(MutezOverflow))
        else MutezResult(50, s[0].mutez * s[1].n)
      else Bad(50)
    case MulNatMutez =>
      if s != [] && s[0].VNat? then
        if s[0].n > MAX_MUTEZ then Effect(50, Raise(MutezOverflow))
        else if |s| >= 2 && s[1].VMutez? then MutezResult(50, s[0].n * s[1].mutez)
        else Bad(50)
      else Bad(50)
    case Neg(ofNat) =>
      if s != [] && (if ofNat then s[0].VNat? else s[0].VInt?)
      then Go(25 + ByteSize(Number(s[0])) / 2, 1, [VInt(-Number(s[0]))])
      else Bad(0)
    case Abs =>
      if s != [] && s[0].VInt?
      then Go(20 + ByteSize(s[0].i) / 2, 1, [VNat(if s[0].i < 0 then -s[0].i else s[0].i)])
      else Bad(0)
    case IsNat =>
      if s != [] && s[0].VInt?
      then Go(10, 1, [if s[0].i >= 0 then VSome(VNat(s[0].i)) else VNone])
      else Bad(0)
    case IntOfNat =>
      if s != [] && s[0].VNat? then Go(10, 1, [VInt(s[0].n)]) else Bad(0)
    case Test(r) =>
      if s != [] && s[0].VInt? then Go(10, 1, [VBool(Holds(r, s[0].i))]) else Bad(10)
    case NotBool =>
      if s != [] && s[0].VBool? then Go(10, 1, [VBool(!s[0].b)]) else Bad(0)
    case Compare =>
      if |s| >= 2 then
        match CompareCost(s[0], s[1])
        case None => Effect(0, Halt(Incomparable))
        case Some(c) => Go(c, 2, [VInt(Cmp(s[0], s[1]))])
      else Bad(0)
    case Amount => Go(10, 0, [VMutez(ctx.amount)])
    case Balance => Go(10, 0, [VMutez(ctx.balance)])
    case Logic(c) =>
      if |s| >= 2 && s[0].VBool? && s[1].VBool?
      then Go(if c.Xor? then 15 else 10, 2, [VBool(Connect(c, s[0].b, s[1].b))])
      else Bad(0)
  }

  /** The price of a map operation that looks for s[0]; None where a comparison has no price. */
  function MapCost(factor: nat, key: Value, m: seq<Entry>): Option<nat> {
    if Alike(key, m) then LookupCost(80, factor, key, |m|) else None
  }

  predicate UpdateReady(s: seq<Value>) {
    |s| >= 3 && (s[1].VNone? || s[1].VSome?) && s[2].VMap?
  }

  function DataEffect(op: DataOp, s: seq<Value>): (e: Effect)
    ensures e.Fits(|s|)
  {
    match op
    case MkSome => if s != [] then Go(10, 1, [VSome(s[0])]) else Bad(10)
    case MkNone(_) => Go(10, 0, [VNone])
    case MkLeft(_) => if s != [] then Go(10, 1, [VLeft(s[0])]) else Bad(10)
    case MkRight(_) => if s != [] then Go(10, 1, [VRight(s[0])]) else Bad(10)
    case Nil(_) => Go(10, 0, [VList([])])
    case Cons =>
      if |s| >= 2 && s[1].VList? then Go(15, 2, [VList([s[0]] + s[1].elems)]) else Bad(15)
    case SizeList => if s != [] && s[0].VList? then Go(10, 1, [VNat(|s[0].elems|)]) else Bad(0)
    case SizeMap => if s != [] && s[0].VMap? then Go(10, 1, [VNat(|s[0].entries|)]) else Bad(0)
    case Mem =>
      if |s| >= 2 && s[1].VMap? then
        match MapCost(1, s[0], s[1].entries)
        case None => Effect(0, Halt(Incomparable))
        case Some(c) => Go(c, 2, [VBool(Find(s[1].entries, s[0]).Some?)])
      else Bad(0)
    case Get =>
      if |s| >= 2 && s[1].VMap? then
        match MapCost(1, s[0], s[1].entries)
        case None => Effect(0, Halt(Incomparable))
        case Some(c) => Go(c, 2, [OptionValue(Find(s[1].entries, s[0]))])
      else Bad(0)
    case Update =>
      if UpdateReady(s) then
        match MapCost(2, s[0], s[2].entries)
        case None => Effect(0, Halt(Incomparable))
        case Some(c) => Go(c, 3, [VMap(Updated(s[2].entries, s[0], s[1]))])
      else Bad(0)
    case GetAndUpdate =>
      if UpdateReady(s) then
        match MapCost(3, s[0], s[2].entries)
        case None => Effect(0, Halt(Incomparable))
        case Some(c) =>
          Go(c, 3, [OptionValue(Find(s[2].entries, s[0])), VMap(Updated(s[2].entries, s[0], s[1]))])
      else Bad(0)
  }

  /** The readable form of a ticket: its ticketer, content and amount. */
  function Unwrapped(t: Ticket): Value {
    VPair(VAddress(t.ticketer), VPair(t.content, VNat(t.amount)))
  }

  function Split(t: Ticket, left: nat, right: nat): Value {
    if left + right == t.amount && left > 0 && right > 0
    then VSome(VPair(VTicket(t.(amount := left)), VTicket(t.(amount := right))))
    else VNone
  }

  function Join(x: Ticket, y: Ticket): Value {
    if x.content == y.content && x.ticketer == y.ticketer
    then VSome(VTicket(x.(amount := x.amount + y.amount)))
    else VNone
  }

  function LinearEffect(op: LinearOp, ctx: Context, s: seq<Value>): (e: Effect)
    ensures e.Fits(|s|)
  {
    match op
    case MkLambda(_, _, c) => Go(10, 0, [VLambda(c)])
    case Apply(ty) =>
      if |s| >= 2 && s[1].VLambda?
      then Go(140, 2, [VLambda(Applied(ty, s[0], s[1].closure))])
      else Bad(0)
    case MkTicket =>
      if |s| >= 2 && s[1].VNat? then
        if s[1].n == 0 then Go(10, 2, [VNone])
        else
          var t := Ticket(ctx.self, s[0], s[1].n);
          Effect(10, Next(2, [VSome(VTicket(t))], [t]))
      else Bad(0)
    case ReadTicket =>
      if s != [] && s[0].VTicket? then Go(10, 0, [Unwrapped(s[0].ticket)]) else Bad(10)
    case SplitTicket =>
      if |s| >= 2 && s[0].VTicket? && s[1].VPair? && s[1].fst.VNat? && s[1].snd.VNat?
      then Go(52, 2, [Split(s[0].ticket, s[1].fst.n, s[1].snd.n)])
      else Bad(0)
    case JoinTickets =>
      if s != [] && s[0].VPair? && s[0].fst.VTicket? && s[0].snd.VTicket? then
        var x, y := s[0].fst.ticket, s[0].snd.ticket;
        match JoinCost(x, y)
        case None => Effect(0, Halt(Incomparable))
        case Some(c) => Go(c, 1, [Join(x, y)])
      else Bad(0)
  }

  function OpEffect(op: Op, ctx: Context, s: seq<Value>): (e: Effect)
    ensures e.Fits(|s|)
  {
    match op
    case OnStack(o) => StackEffect(o, s)
    case OnPair(o) => PairEffect(o, s)
    case OnNum(o) => NumEffect(o, ctx, s)
    case OnData(o) => DataEffect(o, s)
    case OnLinear(o) => LinearEffect(o, ctx, s)
  }
}
