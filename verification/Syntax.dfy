/** Types, values and instructions of the modelled Michelson fragment. */
module Syntax {

  datatype Option<T> = None | Some(value: T)

  datatype Ty =
    | TInt | TNat | TMutez | TBool | TUnit | TAddress | TNever
    | TPair(fst: Ty, snd: Ty)
    | TOption(elem: Ty)
    | TOr(left: Ty, right: Ty)
    | TList(elem: Ty)
    | TMap(key: Ty, val: Ty)
    | TLambda(arg: Ty, res: Ty)
    | TTicket(content: Ty)

  /** Addresses are identified with numbers; only their order and equality matter. */
  datatype Value =
    | VInt(i: int)
    | VNat(n: nat)
    | VMutez(mutez: int)
    | VBool(b: bool)
    | VUnit
    | VAddress(hash: nat)
    | VPair(fst: Value, snd: Value)
    | VNone
    | VSome(inner: Value)
    | VLeft(inner: Value)
    | VRight(inner: Value)
    | VList(elems: seq<Value>)
    | VMap(entries: seq<Entry>)
    | VLambda(closure: Closure)
    | VTicket(ticket: Ticket)

  /** A binding of a map; a map value keeps its bindings in ascending key order. */
  datatype Entry = Entry(key: Value, val: Value)

  datatype Ticket = Ticket(ticketer: nat, content: Value, amount: nat)

  datatype Closure =
    | Plain(code: seq<Instr>)
    | Recursive(code: seq<Instr>)
    | Applied(argTy: Ty, arg: Value, inner: Closure)

  /** Operand shapes of the numeric ADD and MUL overloads, top of the stack first. */
  datatype Operands = IntInt | IntNat | NatInt | NatNat

  datatype Relation = Gt | Ge | Eq | Neq | Le | Lt

  datatype Connective = And | Or | Xor

  datatype StackOp =
    | Drop(height: Option<nat>)
    | Dup(height: Option<nat>)
    | Dig(depth: nat)
    | Dug(depth: nat)
    | Swap
    | Push(ty: Ty, value: Value)
    | MkUnit
    | Failwith(ty: Ty)
    | Never

  datatype PairOp = Car | Cdr | MkPair | Unpair | PairN(n: nat) | UnpairN(n: nat) | GetN(n: nat) | UpdateN(n: nat)

  datatype NumOp =
    | Add(operands: Operands)
    | Mul(operands: Operands)
    | AddMutez
    | SubMutez
    | MulMutezNat
    | MulNatMutez
    | Neg(ofNat: bool)
    | Abs
    | IsNat
    | IntOfNat
    | Test(relation: Relation)
    | Logic(connective: Connective)
    | NotBool
    | Compare
    | Amount
    | Balance

  datatype DataOp =
    | MkSome
    | MkNone(ty: Ty)
    | MkLeft(ty: Ty)
    | MkRight(ty: Ty)
    | Nil(ty: Ty)
    | Cons
    | SizeList
    | SizeMap
    | Mem
    | Get
    | Update
    | GetAndUpdate

  datatype LinearOp =
    | MkLambda(arg: Ty, res: Ty, lambda: Closure)
    | Apply(argTy: Ty)
    | MkTicket
    | ReadTicket
    | SplitTicket
    | JoinTickets

  /** Instructions that run no nested code. */
  datatype Op =
    | OnStack(stackOp: StackOp)
    | OnPair(pairOp: PairOp)
    | OnNum(numOp: NumOp)
    | OnData(dataOp: DataOp)
    | OnLinear(linearOp: LinearOp)

  /** What ITER and MAP walk over. */
  datatype Container = OverList | OverOption | OverMap

  datatype Instr =
    | Simple(op: Op)
    | Block(body: seq<Instr>)
    | If(yes: seq<Instr>, no: seq<Instr>)
    | IfNone(none: seq<Instr>, some: seq<Instr>)
    | IfCons(cons: seq<Instr>, nil: seq<Instr>)
    | IfLeft(left: seq<Instr>, right: seq<Instr>)
    | Loop(body: seq<Instr>)
    | LoopLeft(body: seq<Instr>)
    | Iter(over: Container, body: seq<Instr>)
    | Map(over: Container, body: seq<Instr>)
    | Dip(height: Option<nat>, body: seq<Instr>)
    | Exec

  /** The part of the execution context that the fragment reads. */
  datatype Context = Context(self: nat, amount: int, balance: int)

  const MAX_MUTEZ: int := 0x7FFF_FFFF_FFFF_FFFF

  /** The number of elements DIP, DROP and DUP act on when no number is written. */
  function Height(height: Option<nat>): nat {
    if height.Some? then height.value else 1
  }
}
