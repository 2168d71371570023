# Octez arithmetic and Michelson, modelled in Dafny

This project models four parts of the Octez repository and proves what they promise.

* **Fast Fourier transforms** on coefficient arrays: bit reversal, the butterfly stages, the shortcut that replicates
  coefficients, the naive transform and the prime-factor transform. They are proved over an arbitrary module over a
  commutative ring, so that the scalar, G1 and G2 copies of the code are instances.
* **The Michelson interpreter of MIR** as a stack machine with gas: a functional semantics, the mutating interpreter
  proved against it, and theorems over whole runs - type safety, independence of gas, framing, termination and
  conservation of tickets.
* **Polynomials** as coefficient arrays and as arrays of evaluations.
* **Hash permutations** (Poseidon with batched partial rounds, Anemoi, Rescue, Griffin) and **byte-string** shifts and
  logic.

The modules follow that order:

* algebra: `Algebra`, `Sums`, `Arith`, `Bits`, `ScalarField`;
* transforms: `Dft`, `Fft`, `Crt`, `PrimeFactor`, `Roots`, `RoundTrips`;
* Michelson, functional: `Syntax`, `Costs`, `Ops`, `Interpreter`, `Typechecker`;
* Michelson, theorems: `GasIndependence`, `Framing`, `Ordering`, `Maps`, `OpSafety`, `TypeSafety`, `Tickets`,
  `Conservation`, `Absence`, `Equations`, `Instructions`, `Prices`, `ControlFlow`, `Results`, `Laws`, `Limits`;
* Michelson, mutating: `Stacks`, `Machines`, `Running`, `Contracts`;
* polynomials: `Polynomials`, `PolynomialsCode`, `Evaluations`;
* hashes: `IntLinear`, `AdditionChain`, `Squares`, and the pairs `Poseidon`/`PoseidonCode`, `Anemoi`/`AnemoiCode`, `Rescue`,
  `Griffin`/`GriffinCode`; `Systems`, `AnemoiSystem` and `GriffinSystem` state them as systems of equations;
* bytes: `Bytes`, `Blocks`, `BytesCode`.

`dafny verify dfyconfig.toml` checks all of it.

## How the code is modelled

* A `blst_fr` is an element of any type with the ring laws (`Algebra.IsRing`); `Algebra.IsField` and
  `AdditionChain.Fermat` are hypotheses of the theorems that need inverses or Fermat's little theorem. Curve points are
  elements of any module (`Algebra.IsSpace`). `ScalarField.FrIsRing` shows that the integers modulo the group order
  satisfy the ring laws.
* C arrays are Dafny arrays changed in place; read-only arrays are sequences. Pointers into the middle of an array are
  an offset, and a ghost `end` names where the window stops. C `int` indices are unbounded.
* The byte stubs in C run on the blocks of the OCaml runtime of a 64-bit machine (`Blocks`): whole words, padded with
  zeros, with the amount of padding in the last byte.
* The interpreter works on a fragment: stack operations, pairs, numbers, mutez, booleans, options, ors, lists, maps,
  lambdas, tickets and all control flow over them. A program point that calls `unreachable_state`, unwraps a missing
  value or compares incomparable values is the outcome `Panicked`. `State.minted` is a log of the tickets that TICKET
  made; it does not influence the run.
* The typechecker is parameterised: `strict == false` has the rules of the source, `strict == true` adds two checks that
  the theorems about tickets and panics need (below).

## Where the code and its promises differ

* The interpreter asserts that a typechecked program never reaches an impossible state. The typechecker does not ask
  for comparable ticket contents, so JOIN_TICKETS can compare incomparable values and panic
  (`Limits.ListContentPanics`). `OpSafety.OpSafe` shows that a well-typed instruction stops abruptly if and only if it
  is JOIN_TICKETS on tickets whose contents are incomparable, and `TypeSafety.SeqSafe` that nothing else can go wrong in
  a whole run, and nothing at all under the strict rules.
* The typechecker lets APPLY capture a ticket in a lambda, and lambdas may be duplicated, so a foreign ticket can be
  doubled (`Limits.CapturedTicketDoubles`). `Tickets.ConservesExactly` gives the exact condition for every
  instruction on every stack, `Conservation.SeqLedger` bounds the growth over any run by what was minted and copied, and
  under the strict rules, where APPLY asks for a duplicable type, nothing is copied (`Conservation.SeqUncopied`).
* A ticket of amount 0 is admitted as an input value (`Limits.ZeroTicketAdmitted`). `Results.PositiveExactly` shows that
  nothing else can break the positive amounts: programs keep them if and only if they start from them.
* `blst_fr_pow` returns 0 for 0 to the power 0 when the exponent is written with at least one bit, and the power in all
  other cases (`Evaluations.FrPow`).
* The interface of `TzBytes` promises Invalid_argument for negative shifts. The C stubs store the shift in an unsigned
  word, so that their test for it never succeeds: the right shift returns the empty string and the left shift raises
  Out_of_memory. `BytesCode.LeftExactly` and `BytesCode.RightExactly` say when they keep the promise; the JavaScript
  versions always do.
* For the empty string the C left shift reads a padding byte and writes one byte behind its result. Both lie inside the
  blocks of the OCaml runtime and are 0, so that the result is as promised (`BytesCode.ShiftLeftC`).

## Model

| member | source | states |
|---|---|---|
| Bits.BitReverse | src/lib_bls12_381_polynomial/bls12_381_polynomial_fft.c:29-36 | the loop returns the l low bits of n in reverse order, a number below 2^l |
| Bits.RevInvolution | src/lib_bls12_381_polynomial/bls12_381_polynomial_fft.c:29-36 | reversing l bits twice gives the number back, so the swaps form a permutation of order two |
| Bits.IsPowerOfTwo | src/lib_bls12_381_polynomial/bls12_381_polynomial_fft.c:156-158 | the bit test is true exactly for 0 and the powers of two |
| Bits.Log2 | src/lib_bls12_381_polynomial/bls12_381_polynomial_fft.c:160-166 | the shifts count the floor of the binary logarithm (and 0 for 0) |
| Fft.Reorganize | src/lib_bls12_381_polynomial/bls12_381_polynomial_fft.c:38-50 | swapping each index below its reversal leaves entry k holding the old entry Rev(k), once each; nothing outside the window changes |
| Dft.Butterfly | src/lib_bls12_381_polynomial/bls12_381_polynomial_fft.c:52-80 | a block of 2m values of the transform is the sum and the difference of two blocks of m values, the second scaled by v^(ej); needs only v^(em) = -1 |
| Fft.StageStep | src/lib_bls12_381_polynomial/bls12_381_polynomial_fft.c:64-79 | the invariant of the stages: if the array is cut into 2^k short transforms of the bit-reversed residue classes then one pass of butterflies leaves 2^(k-1) transforms of twice the length |
| Fft.RunStage | src/lib_bls12_381_polynomial/bls12_381_polynomial_fft.c:64-77 | the two inner loops perform exactly the butterflies of one stage, reading the root table forwards or backwards |
| Fft.FftInplaceAux | src/lib_bls12_381_polynomial/bls12_381_polynomial_fft.c:52-80 | from any number of finished stages the loop ends in the direct transform; nothing outside the window changes |
| Fft.Replicate | src/lib_bls12_381_polynomial/bls12_381_polynomial_fft.c:94-99 | copying each coefficient ratio times, from the last to the first over the same array, leaves ratio copies of every reversed coefficient |
| Fft.ReplicatedInBlocks | src/lib_bls12_381_polynomial/bls12_381_polynomial_fft.c:91-100 | the replicated array is what the first log_diff stages would compute from the zero-padded input |
| Fft.FftInplace | src/lib_bls12_381_polynomial/bls12_381_polynomial_fft.c:82-107 | for every log_degree <= log_domain_size the array ends as X_k = sum_j x_j w^(jk) of the input padded with zeros, given w^(N/2) = -1 and a table of the powers of w |
| Fft.IfftInplace | src/lib_bls12_381_polynomial/bls12_381_polynomial_fft.c:109-126 | the array ends as the direct transform with the inverse root, every entry divided by the length |
| Dft.HalfTurnIsPrincipal | src/lib_bls12_381_polynomial/bls12_381_polynomial_fft.c:109-126 | for powers of two w^(N/2) = -1 alone makes all sums of non-trivial powers vanish, in any commutative ring: opposite terms cancel |
| Dft.PrimitiveIsPrincipal | src/lib_bls12_381_polynomial/bls12_381_polynomial_fft.c:128-154 | in a field a root of exact order n has vanishing power sums, for every n |
| Dft.InverseDft | src/lib_bls12_381_polynomial/bls12_381_polynomial_fft.c:109-126 | transforming with w, then with w^(n-1), and dividing by n gives each coefficient back |
| Fft.RoundTrip | src/lib_bls12_381_polynomial/bls12_381_polynomial_fft.c:109-154 | inverse after forward is the identity on every sequence of length n |
| PrimeFactor.DftInplace | src/lib_bls12_381_polynomial/bls12_381_polynomial_fft.c:128-154 | the naive loops with the running index into the root table compute the direct transform or its inverse |
| PrimeFactor.Transpose | src/lib_bls12_381_polynomial/bls12_381_polynomial_fft.c:168-175 | the loops transpose the n1 by n2 matrix from the first half of the buffer to the second and keep the first half |
| PrimeFactor.FftRound | src/lib_bls12_381_polynomial/bls12_381_polynomial_fft.c:179-202 | every row is transformed, whichever of the power-of-two FFT and the naive DFT is chosen, and the DFT buffer is long enough |
| PrimeFactor.GoodThomas | src/lib_bls12_381_polynomial/bls12_381_polynomial_fft.c:204-246 | the short transforms of the columns of the short transforms of the rows are the long transform, at the index of the output map |
| PrimeFactor.SumOverPairs | src/lib_bls12_381_polynomial/bls12_381_polynomial_fft.c:223-225 | summing over all residue pairs is summing over all indices: the input map is a bijection |
| Crt.RemaindersReached | src/lib_bls12_381_polynomial/bls12_381_polynomial_fft.c:223-225 | for coprime lengths every pair of residues is that of an index below the product |
| Crt.SameRemainders | src/lib_bls12_381_polynomial/bls12_381_polynomial_fft.c:223-225 | two indices below the product with the same residues are equal |
| Crt.OutIndexInjective | src/lib_bls12_381_polynomial/bls12_381_polynomial_fft.c:238-243 | the output map n1 j + n2 i mod n1 n2 sends different pairs to different indices |
| Crt.OutIndexReached | src/lib_bls12_381_polynomial/bls12_381_polynomial_fft.c:238-243 | and reaches every index, so each output is written exactly once |
| PrimeFactor.PrimeFactorFft | src/lib_bls12_381_polynomial/bls12_381_polynomial_fft.c:204-246 | for coprime lengths the array ends as the transform of length length1*length2 for W, or its inverse, whatever mix of FFT and DFT the two rounds use |
| PrimeFactor.PrimitiveIsUsable | src/lib_bls12_381_polynomial/bls12_381_polynomial_fft.c:179-202 | in a field a primitive root meets the precondition of the power-of-two FFT: its half power is -1 |
| Roots.ComputeDomain | src/lib_bls12_381_polynomial/caml_bls12_381_polynomial_polynomial_stubs.c:70-90 | filling entries 2i and 2i+1 from entry i leaves root^k at every k < n, for odd and even n >= 2 |
| Roots.ShortRootsUsable | src/lib_bls12_381_polynomial/bls12_381_polynomial_fft.c:204-246 | the powers of a primitive root that generate the two short domains meet the preconditions of the rounds |
| Roots.FieldRoundTrip | src/lib_bls12_381_polynomial/bls12_381_polynomial_fft.c:128-154 | in a field, with a primitive root and an invertible length, the inverse transform undoes the transform |
| Roots.PowerOfTwoRoundTrip | src/lib_bls12_381_polynomial/bls12_381_polynomial_fft.c:109-126 | for powers of two the same in any commutative ring, from w^(N/2) = -1 and an inverse of N |
| RoundTrips.FftAndBack | src/lib_bls12_381_polynomial/bls12_381_polynomial_fft.c:82-126 | running ifft_inplace after fft_inplace leaves the coefficients filled up with zeros, for every log_degree <= log_domain_size, and nothing else changed; for equal sizes the whole array is as it was |
| RoundTrips.DftAndBack | src/lib_bls12_381_polynomial/bls12_381_polynomial_fft.c:128-154 | running dft_inplace with inverse after without leaves the whole array as it was |
| RoundTrips.PrimeFactorAndBack | src/lib_bls12_381_polynomial/bls12_381_polynomial_fft.c:204-246 | from tables filled by compute_domain, the prime-factor transform followed by its inverse leaves the whole array as it was |
| ScalarField.FrIsRing | src/lib_bls12_381_polynomial/bls12_381_polynomial_fft.c:52-80 | the integers modulo the order of the scalar field satisfy the ring laws the transforms are proved from |
| Algebra.SelfSpaceIsSpace | src/lib_bls12_381_polynomial/bls12_381_polynomial_fft.c:52-80 | every ring acts on itself, so the theorems about modules (the G1 and G2 copies) give those about scalars |
| Stacks.Stack.Push | contrib/mir/src/stack.rs:121-123 | the new element is on top; top-first view over a vector that grows at its end |
| Stacks.Stack.TryPop | contrib/mir/src/stack.rs:126-128 | the top is returned and the rest kept in order; nothing on an empty stack |
| Stacks.Stack.Pop | contrib/mir/src/interpreter.rs:155-162 | the forced pop of the interpreter, on a stack that is not empty |
| Stacks.Stack.Get | contrib/mir/src/stack.rs:270-278 | index 0 is the top although the vector stores it last |
| Stacks.Stack.Set | contrib/mir/src/stack.rs:280-286 | one place counted from the top changes and no other |
| Stacks.Stack.Remove | contrib/mir/src/stack.rs:93-105 | the element at depth i leaves and the rest closes up |
| Stacks.Stack.Insert | contrib/mir/src/stack.rs:107-118 | the element ends at depth i |
| Stacks.Stack.DropTop | contrib/mir/src/stack.rs:140-151 | the n topmost elements are gone |
| Stacks.Stack.DrainTop | contrib/mir/src/stack.rs:153-168 | the n topmost elements come out top first |
| Stacks.Stack.SplitOff | contrib/mir/src/stack.rs:181-189 | the n topmost elements become a stack of their own, in the same order |
| Stacks.Stack.Append | contrib/mir/src/stack.rs:191-195 | the other stack goes on top and is emptied |
| Stacks.Stack.Swap | contrib/mir/src/stack.rs:197-201 | two places counted from the top are exchanged |
| Machines.Machine.Consume | contrib/mir/src/gas.rs:49-56 | succeeds exactly when the price fits 32 bits and the remaining milligas, and then subtracts it; otherwise the gas is exhausted, or untouched if the price never was a 32-bit number |
| Machines.Machine.RunStackOp | contrib/mir/src/interpreter.rs:474-497 | DROP, DUP, DIG, DUG, SWAP, PUSH, UNIT and FAILWITH on the mutable stack: the price, the new stack and the error are those of the pure effect |
| Machines.Machine.RunDig | contrib/mir/src/interpreter.rs:484-490 | DIG n by remove and push has the effect of moving the element at depth n to the top |
| Machines.Machine.RunDug | contrib/mir/src/interpreter.rs:491-497 | DUG n by pop and insert has the effect of moving the top to depth n |
| Machines.Machine.RunPairOp | contrib/mir/src/interpreter.rs:743-789 | CAR, CDR, PAIR, UNPAIR and their n-ary forms on the mutable stack agree with the pure effect |
| Machines.Machine.RunPairN | contrib/mir/src/interpreter.rs:759-767 | the reversed drain folds the n topmost values into a right comb |
| Machines.Machine.RunUnpairN | contrib/mir/src/interpreter.rs:774-789 | the loop unrolls a right comb of n values onto the stack |
| Machines.Machine.RunGetN | contrib/mir/src/interpreter.rs:939-944 | GET n reads the n-th field of a right comb, found by walking down the pairs |
| Machines.Machine.RunUpdateN | contrib/mir/src/interpreter.rs:1021-1026 | UPDATE n walks to that field and overwrites it |
| Machines.Machine.RunNumOp | contrib/mir/src/interpreter.rs:165-249 | arithmetic, comparison and logic on the mutable stack agree with the pure effect, with mutez overflow as an error; `Instructions.Additions` to `Instructions.ComparePairs` state the values |
| Machines.Machine.RunSubMutez | contrib/mir/src/interpreter.rs:337-346 | SUB_MUTEZ gives None exactly when the difference is negative |
| Machines.Machine.RunDataOp | contrib/mir/src/interpreter.rs:896-1003 | options, ors, lists and maps on the mutable stack agree with the pure effect; `Instructions.Wrapping` to `Instructions.GetAfterMapUpdate` state the values |
| Machines.Machine.RunLinearOp | contrib/mir/src/interpreter.rs:1192-1270 | lambdas and tickets on the mutable stack agree with the pure effect, and minted tickets are logged; `Instructions.TicketMade` to `Instructions.SplitAndJoin` state the values |
| Machines.Machine.RunSimple | contrib/mir/src/interpreter.rs:133-164 | every instruction without nested code agrees with its pure effect |
| Instructions.YieldsRuns | contrib/mir/src/interpreter.rs:133-164 | replacing the arguments on top of the stack by the results is what a run of the instruction does, for its price, above any stack |
| Instructions.StackMoves | contrib/mir/src/interpreter.rs:474-742 | DROP removes, SWAP exchanges, PUSH and UNIT add the value they name |
| Instructions.DupCopies | contrib/mir/src/interpreter.rs:479-483 | DUP n copies the element below n - 1 others to the top |
| Instructions.DigMoves | contrib/mir/src/interpreter.rs:484-497 | DIG n takes the element below n others to the top, and DUG n the other way round |
| Instructions.FailwithRaises | contrib/mir/src/interpreter.rs:734-738 | FAILWITH ends the run with the value on top |
| Instructions.PairMoves | contrib/mir/src/interpreter.rs:743-773 | PAIR puts the top in front; CAR, CDR and UNPAIR give the components in order |
| Instructions.PairNNests | contrib/mir/src/interpreter.rs:759-767 | PAIR n + 1 is the top paired with what PAIR n makes of the rest |
| Instructions.UnpairNUnnests | contrib/mir/src/interpreter.rs:774-789 | UNPAIR n + 1 is the first component above what UNPAIR n makes of the second |
| Instructions.GetNWalks | contrib/mir/src/interpreter.rs:1429-1446 | GET 0 is the value, GET 1 the first component, GET n + 2 is GET n on the second |
| Instructions.UpdateNWalks | contrib/mir/src/interpreter.rs:1021-1026 | UPDATE n writes there and keeps everything else |
| Instructions.Additions | contrib/mir/src/interpreter.rs:165-219 | ADD leaves the sum for the four pairs of int and nat |
| Instructions.Products | contrib/mir/src/interpreter.rs:220-309 | MUL leaves the product for the four pairs of int and nat |
| Instructions.MutezSums | contrib/mir/src/interpreter.rs:165-309 | on mutez sum and product are left exactly if they fit 63 bits, and are an overflow otherwise |
| Instructions.MutezDifference | contrib/mir/src/interpreter.rs:337-346 | SUB_MUTEZ leaves the amount which added to the subtrahend is the minuend, None if that would be negative |
| Instructions.Signs | contrib/mir/src/interpreter.rs:310-590 | NEG leaves the number that adds to 0; ABS, ISNAT and INT keep the value up to sign and type |
| Instructions.Tests | contrib/mir/src/interpreter.rs:498-527 | GT, GE, EQ, NEQ, LE and LT compare with 0 |
| Instructions.Booleans | contrib/mir/src/interpreter.rs:347-465 | AND, OR, XOR and NOT on booleans |
| Instructions.Queries | contrib/mir/src/interpreter.rs:806-809 | AMOUNT and BALANCE push what the context holds |
| Instructions.CompareYields | contrib/mir/src/interpreter.rs:799-805 | COMPARE leaves -1, 0 or 1 as the first value is below, equal to or above the second in the order of the language |
| Instructions.CompareNumbers | contrib/mir/src/ast/comparable.rs:10-77 | int, nat, mutez and addresses are ordered by size |
| Instructions.CompareOptions | contrib/mir/src/ast/comparable.rs:10-77 | None is below Some; two of the latter are ordered by what they hold |
| Instructions.CompareChoices | contrib/mir/src/ast/comparable.rs:10-77 | false is below true, Left below Right |
| Instructions.ComparePairs | contrib/mir/src/ast/comparable.rs:10-77 | pairs are ordered by the first components, and by the second where these are equal |
| Instructions.Wrapping | contrib/mir/src/interpreter.rs:790-1150 | SOME, NONE, LEFT, RIGHT, NIL and CONS build the value; SIZE counts elements and bindings |
| Instructions.LookupYields | contrib/mir/src/interpreter.rs:896-938 | MEM is true exactly for a bound key; GET leaves Some of the value it is bound to, None otherwise |
| Instructions.UpdateYields | contrib/mir/src/interpreter.rs:945-1003 | UPDATE binds the key to the new value, or unbinds it, and keeps every other binding; GET_AND_UPDATE also leaves what the key was bound to |
| Instructions.GetAfterMapUpdate | contrib/mir/src/interpreter.rs:921-978 | GET after UPDATE leaves the new value, and None after the key was unbound |
| Instructions.TicketMade | contrib/mir/src/interpreter.rs:1207-1223 | TICKET leaves and logs a ticket of the contract itself with the content and amount, None for amount 0 |
| Instructions.TicketRead | contrib/mir/src/interpreter.rs:1224-1229 | READ_TICKET leaves ticketer, content and amount above the ticket itself |
| Instructions.TicketSplit | contrib/mir/src/interpreter.rs:1230-1255 | SPLIT_TICKET leaves the two parts in the order of the amounts if these are positive and make up the whole, None otherwise |
| Instructions.TicketsJoined | contrib/mir/src/interpreter.rs:1256-1270 | JOIN_TICKETS leaves Some ticket with the sum of the amounts for equal ticketer and content, None otherwise |
| Instructions.SplitAndJoin | contrib/mir/src/interpreter.rs:1230-1270 | joining the parts of a successful split gives the ticket back |
| Instructions.Lambdas | contrib/mir/src/interpreter.rs:1151-1206 | LAMBDA pushes the lambda; APPLY captures the value on top of it |
| Prices.BitLengthExactly | contrib/mir/src/gas.rs:256-280 | the number of bits is the least that holds the number |
| Prices.ByteSizeExactly | contrib/mir/src/gas.rs:256-280 | the byte size is the least number of bytes that holds the absolute value |
| Prices.Log2iExactly | contrib/mir/src/gas.rs:93-122 | the logarithm is the least exponent whose power of two is not below the number |
| Prices.AddPrice | contrib/mir/src/gas.rs:450-457 | ADD costs 35 and half the larger size in bytes |
| Prices.MulPrice | contrib/mir/src/gas.rs:501-511 | MUL costs 55 and the three rounded parts of n log n, for n bytes together |
| Prices.ComparePrice | contrib/mir/src/gas.rs:512-540 | COMPARE of integers costs 35 and the two rounded parts of the smaller size |
| Running.InterpretSeq | contrib/mir/src/interpreter.rs:113-124 | the mutating interpreter computes what the functional one does - result, stack, gas - for every program and stack on which that one does not panic, and terminates; ten milligas are paid per loop turn and EXEC |
| Running.Interpret | contrib/mir/src/interpreter.rs:133-1413 | the same for one instruction, including the nested ones |
| Running.RunBranch | contrib/mir/src/interpreter.rs:528-573 | IF, IF_NONE, IF_CONS and IF_LEFT run the branch the top of the stack selects |
| Running.RunLoop | contrib/mir/src/interpreter.rs:626-654 | LOOP and LOOP_LEFT agree with the functional semantics, whose turns `Equations.LoopOnTrue` to `Equations.LoopOnRight` state value by value; the iteration ends because every turn costs gas |
| Running.RunIter | contrib/mir/src/interpreter.rs:655-683 | ITER runs the body once per element in order, on lists and on maps |
| Running.RunMapInstr | contrib/mir/src/interpreter.rs:684-725 | MAP puts the results back in order, under the same keys for a map and inside the option for an option |
| Running.RunDipInstr | contrib/mir/src/interpreter.rs:466-473 | DIP n runs its body on the stack below the n topmost elements and puts them back |
| Running.RunExec | contrib/mir/src/interpreter.rs:1155-1191 | EXEC unwinds the captured arguments, runs the body on a stack of its own and pushes the result; recursive lambdas find themselves below their argument |
| Interpreter.InterpSeq | contrib/mir/src/interpreter.rs:113-124 | a run is defined for all programs, states and gas, by the measure (gas, code), and never raises the gas |
| Equations.Sequence | contrib/mir/src/interpreter.rs:113-124 | a program runs its first instruction and then the rest, ending early on an error |
| Equations.IfTrue | contrib/mir/src/interpreter.rs:528-535 | IF on true runs the first branch on the stack below, for its price |
| Equations.IfFalse | contrib/mir/src/interpreter.rs:528-535 | IF on false runs the second |
| Equations.IfNoneCases | contrib/mir/src/interpreter.rs:536-545 | IF_NONE runs the first branch on None, and the second on the content of Some |
| Equations.IfConsCases | contrib/mir/src/interpreter.rs:546-559 | IF_CONS runs the first branch on head and tail of a list, and the second on the empty list |
| Equations.IfLeftCases | contrib/mir/src/interpreter.rs:560-573 | IF_LEFT runs the first branch on the content of Left, the second on that of Right |
| Equations.LoopOnTrue | contrib/mir/src/interpreter.rs:626-637 | LOOP on true pays ten milligas for the turn, runs its body on the stack below and loops again |
| Equations.LoopOnFalse | contrib/mir/src/interpreter.rs:626-637 | LOOP on false pays the exit and leaves the stack below |
| Equations.LoopOnLeft | contrib/mir/src/interpreter.rs:638-654 | LOOP_LEFT on Left x runs its body on x and the stack below, and loops again |
| Equations.LoopOnRight | contrib/mir/src/interpreter.rs:638-654 | LOOP_LEFT on Right x leaves x above the stack below |
| Equations.IterList | contrib/mir/src/interpreter.rs:655-683 | ITER on a list is its body on the first element and ITER on the others; the empty list leaves the stack below |
| Equations.IterMap | contrib/mir/src/interpreter.rs:655-683 | the same on a map, with key and value paired, in the order of the keys |
| Equations.MapList | contrib/mir/src/interpreter.rs:684-725 | MAP on a list is its body on the first element, its result in front of what MAP on the others leaves |
| Equations.DipBelow | contrib/mir/src/interpreter.rs:466-473 | DIP n leaves the n topmost elements above what the body leaves of the rest |
| Equations.ExecPlain | contrib/mir/src/interpreter.rs:1155-1191 | EXEC runs the code on a stack with the argument only |
| Equations.ExecRecursive | contrib/mir/src/interpreter.rs:1155-1191 | a recursive lambda finds itself below its argument |
| Equations.ExecApplied | contrib/mir/src/interpreter.rs:1155-1206 | a captured value is paired in front of the argument |
| GasIndependence.SeqLowered | contrib/mir/src/gas.rs:49-66 | with k milligas less a run has the same outcome with k less gas left, or ends in OutOfGas; a successful run survives exactly when it had k left over |
| GasIndependence.InstrLowered | contrib/mir/src/interpreter.rs:133-1413 | the same for every instruction |
| Results.MoreGas | contrib/mir/src/gas.rs:49-66 | with k milligas more a successful run has the same stack and k more gas left, every other error stays, and only OutOfGas can change |
| Framing.SeqFramed | contrib/mir/src/interpreter.rs:113-124 | a run that does not panic on s gives on s ++ rest the same result with rest untouched below, and the same gas |
| Framing.EffectFramed | contrib/mir/src/stack.rs:80-201 | every simple instruction looks no deeper than the elements it takes, at the same price |
| Framing.DipFramed | contrib/mir/src/interpreter.rs:466-473 | DIP n on a larger stack leaves what lies below untouched |
| ControlFlow.MapLaw | contrib/mir/src/interpreter.rs:684-725 | if the body leaves f(x) when it runs on x alone then MAP leaves the list, option or map with f applied to every element, above an untouched stack |
| ControlFlow.IterLaw | contrib/mir/src/interpreter.rs:655-683 | if the body leaves g(acc, x) when it runs on x and acc alone then ITER leaves the fold of g over the elements in order |
| ControlFlow.LoopLaw | contrib/mir/src/interpreter.rs:626-654 | a LOOP or LOOP_LEFT that ends has made some number n of turns, each paid with ten milligas or more, and leaves what n applications of the body leave when the top is first false, or Right; that is stated on the values on top of the stack |
| OpSafety.OpSafe | contrib/mir/src/interpreter.rs:126-131 | a well-typed simple instruction delivers a stack of the predicted types (mutez within 63 bits) or an error; it stops abruptly if and only if it is JOIN_TICKETS on tickets of incomparable content, which needs the source's weaker typing |
| TypeSafety.SeqSafe | contrib/mir/src/interpreter.rs:126-131 | a well-typed program on a well-typed stack never reaches an impossible state: it ends in a stack of the predicted types or in an error; under the source's own rules the only panic left is the comparison of incomparable ticket contents, under the strict rules there is none |
| TypeSafety.InstrSafe | contrib/mir/src/typechecker.rs:582-1860 | the same for every instruction against its typing rule |
| TypeSafety.LoopSafe | contrib/mir/src/typechecker.rs:582-1860 | loops keep the types of the stack over any number of turns |
| TypeSafety.MapSafe | contrib/mir/src/typechecker.rs:2350-2375 | MAP keeps the stack below the element and yields elements of the type the body returns |
| TypeSafety.ExecSafe | contrib/mir/src/typechecker.rs:2313-2343 | calling a typed closure, also a recursive or partially applied one, yields a value of its result type |
| Results.StrictSeq | contrib/mir/src/typechecker.rs:554-563 | the strict rules accept fewer programs than the source's and give the same types |
| Limits.ListContentPanics | contrib/mir/src/interpreter.rs:1256-1270 | false under the source's rules: a program that typechecks mints two tickets on lists and panics when it joins them |
| Limits.CapturedTicketDoubles | contrib/mir/src/interpreter.rs:1192-1201 | false under the source's rules: a program that typechecks captures a foreign ticket with APPLY, duplicates the lambda and doubles the ticket |
| Tickets.ConservesExactly | contrib/mir/src/interpreter.rs:133-1413 | on any stack, typed or not, an instruction that goes on conserves a fair weight beyond what it mints if and only if it copies none: the value DUP copies, the value PUSH or LAMBDA takes from the code, the content READ_TICKET and SPLIT_TICKET repeat |
| Tickets.OpLedger | contrib/mir/src/interpreter.rs:133-1413 | and what it adds is never more than what it mints and copies |
| Tickets.NothingCopied | contrib/mir/src/typechecker/type_props.rs:43-140 | under the strict rules no instruction copies a ticket |
| Tickets.SplitTotal | contrib/mir/src/interpreter.rs:1230-1255 | a successful SPLIT_TICKET neither gains nor loses, apart from writing the content a second time |
| Tickets.JoinTotal | contrib/mir/src/interpreter.rs:1256-1270 | JOIN_TICKETS of positive amounts of one kind keeps the total, apart from the content written once instead of twice; of different kinds it leaves nothing; it never raises the total |
| Tickets.NoTickets | contrib/mir/src/typechecker/type_props.rs:43-140 | values of comparable, pushable or duplicable type hold no tickets: those written in a program under either rules, and all values under the strict ones |
| Tickets.NoTicketsCode | contrib/mir/src/typechecker.rs:1259-1266 | a program that typechecks, under either rules, has no tickets in its literals, nested code and lambdas included |
| Conservation.SeqLedger | contrib/mir/src/interpreter.rs:113-124 | over every run of every program, typed or not, loops, lambdas and maps included, the total of a fair weight on the stack grows by no more than the minted tickets and the copies taken weigh, and only the contract's own tickets are minted, with positive amounts |
| Conservation.SeqUncopied | contrib/mir/src/typechecker.rs:554-563 | a run under the strict rules copies no ticket |
| Conservation.SeqAccounted | contrib/mir/src/interpreter.rs:113-124 | so under the strict rules the total grows by no more than the minted tickets weigh |
| Results.ForeignGrowthIsCopied | contrib/mir/src/interpreter.rs:1207-1223 | in any run, typed or not, tickets of other contracts grow by no more than what was copied of them |
| Results.TicketsConserved | contrib/mir/src/interpreter.rs:1207-1270 | the amount per ticketer and content never exceeds the initial amount plus what TICKET minted of it |
| Results.ForeignTicketsNeverGrow | contrib/mir/src/interpreter.rs:1207-1223 | tickets of other contracts never grow |
| Results.AmountsStayPositive | contrib/mir/src/interpreter.rs:1207-1270 | in any run, typed or not, if no ticket of amount 0 is on the stack or written in the program then none is ever copied or appears |
| Results.PositiveUnlessCopied | contrib/mir/src/interpreter.rs:1207-1270 | in any run, typed or not, that starts without tickets of amount 0 and copies none, none appears |
| Results.PositiveExactly | contrib/mir/src/interpreter.rs:1207-1270 | all programs the source's rules accept keep the amounts positive if and only if they are positive on the stack the programs start from |
| Results.ForeignTicketsNeverAppear | contrib/mir/src/interpreter.rs:1207-1223 | under the source's own rules a kind of foreign ticket that is not on the stack never appears there |
| Absence.SeqAbsent | contrib/mir/src/interpreter.rs:113-124 | any fair weight that TICKET does not mint, and that is 0 on the stack and in the program, is never copied and stays 0 in every run, typed or not |
| Limits.ZeroTicketAdmitted | contrib/mir/src/typechecker.rs:2275-2292 | both rules admit a ticket of amount 0 as an input, and a run that ends may keep it |
| Contracts.RunChecked | contrib/mir/src/interpreter.rs:113-124 | the mutating interpreter on a strictly typechecked program: no panic, the predicted types, no growth of foreign tickets, and at most one loop turn or EXEC per ten milligas |
| Laws.DigDug | contrib/mir/src/interpreter.rs:484-497 | DIG n and DUG n undo each other, both ways |
| Laws.UncombComb | contrib/mir/src/interpreter.rs:759-789 | UNPAIR n undoes PAIR n |
| Laws.CombUncomb | contrib/mir/src/interpreter.rs:774-789 | PAIR n undoes UNPAIR n wherever that succeeds |
| Laws.GetAfterUpdate | contrib/mir/src/interpreter.rs:1429-1446 | GET n after UPDATE n reads the new value, fields before it are kept, and writing back the old value changes nothing |
| Ordering.CmpZero | contrib/mir/src/ast/comparable.rs:10-77 | two keys compare equal exactly when they are equal |
| Ordering.CmpAntisymmetric | contrib/mir/src/ast/comparable.rs:10-77 | swapping the operands negates the comparison |
| Ordering.CmpTransitive | contrib/mir/src/ast/comparable.rs:10-77 | the comparison is transitive on keys of one type |
| Ordering.CmpIsLess | contrib/mir/src/ast/comparable.rs:10-77 | the comparison is -1, 0 or 1 exactly as the first key is below, equal to or above the second in an order defined apart from it |
| Ordering.KeysAscend | contrib/mir/src/interpreter.rs:945-978 | the keys of a map ascend in that order |
| Ordering.FindExactly | contrib/mir/src/interpreter.rs:896-938 | lookup finds a value if and only if the map binds the key to it |
| Ordering.CostDefined | contrib/mir/src/gas.rs:512-611 | the price of comparing two values of a comparable type is defined, so the price function does not panic |
| Ordering.InsertOrdered | contrib/mir/src/interpreter.rs:945-978 | UPDATE keeps the keys strictly increasing |
| Ordering.RemoveOrdered | contrib/mir/src/interpreter.rs:945-978 | so does removing a key |
| Ordering.FindInsert | contrib/mir/src/interpreter.rs:945-978 | after an insertion the key finds its value and every other key what it found before |
| Ordering.FindRemove | contrib/mir/src/interpreter.rs:945-978 | after a removal the key finds nothing and every other key what it found before |
| Maps.MapCostDefined | contrib/mir/src/gas.rs:639-705 | the price of a lookup or update in a well-typed map is defined |
| Maps.UpdatedTyped | contrib/mir/src/interpreter.rs:945-1003 | an update keeps a map well typed, with ordered distinct keys |
| PolynomialsCode.Multiply | src/lib_bls12_381_polynomial/bls12_381_polynomial_polynomial.c:68-80 | the double loop over a zeroed result leaves the convolution |
| Polynomials.EvalProduct | src/lib_bls12_381_polynomial/bls12_381_polynomial_polynomial.c:68-80 | evaluating the product at any point gives the product of the evaluations |
| PolynomialsCode.Evaluate | src/lib_bls12_381_polynomial/bls12_381_polynomial_polynomial.c:196-206 | Horner's loop gives the value of the polynomial |
| Polynomials.EvalIsPowerSum | src/lib_bls12_381_polynomial/bls12_381_polynomial_polynomial.c:196-206 | that value is the sum of the coefficients times powers of the point |
| Polynomials.EvalIsSum | src/lib_bls12_381_polynomial/bls12_381_polynomial_polynomial.c:196-206 | the same as a finite sum over the indices |
| PolynomialsCode.DivideXn | src/lib_bls12_381_polynomial/bls12_381_polynomial_polynomial.c:208-330 | quotient and remainder satisfy poly = q (X^n + c) + r with deg r < n, for every c; the fast paths for 1 and -1 give the same |
| Polynomials.DivisionUnique | src/lib_bls12_381_polynomial/bls12_381_polynomial_polynomial.c:276-330 | these equations have only one solution, in any commutative ring |
| PolynomialsCode.MultiplyXn | src/lib_bls12_381_polynomial/bls12_381_polynomial_polynomial.c:331-433 | the result is the product with X^n + c, for every c, in all three overlaps of the two copies |
| Polynomials.DivisionUndoesMul | src/lib_bls12_381_polynomial/bls12_381_polynomial_polynomial.c:208-433 | dividing a product with X^n + c by X^n + c gives the polynomial back with remainder 0 |
| Polynomials.EvalMulXn | src/lib_bls12_381_polynomial/bls12_381_polynomial_polynomial.c:331-433 | evaluating the product with X^n + c gives (x^n + c) p(x) |
| Polynomials.EvalDivides | src/lib_bls12_381_polynomial/bls12_381_polynomial_polynomial.c:208-330 | evaluating a division gives poly(x) = (x^n + c) q(x) + r(x) |
| PolynomialsCode.LinearHorner | src/lib_bls12_381_polynomial/bls12_381_polynomial_polynomial.c:117-141 | the Horner loops give the sum of s^j p_j for polynomials of any lengths |
| PolynomialsCode.LinearNaive | src/lib_bls12_381_polynomial/bls12_381_polynomial_polynomial.c:143-164 | the loops with a running power give the same sum |
| PolynomialsCode.LinearWithPowers | src/lib_bls12_381_polynomial/bls12_381_polynomial_polynomial.c:166-187 | so the choice between them does not matter |
| Polynomials.HornerIsPowers | src/lib_bls12_381_polynomial/bls12_381_polynomial_polynomial.c:117-164 | Horner's form of each coefficient equals the sum of powers |
| Polynomials.EvalLinear | src/lib_bls12_381_polynomial/bls12_381_polynomial_polynomial.c:117-187 | evaluating the combination at any point gives the combination of the evaluations |
| Polynomials.LinearIsSum | src/lib_bls12_381_polynomial/bls12_381_polynomial_polynomial.c:117-187 | that combination is the sum over j of s^j p_j(x) |
| Evaluations.FrPow | src/lib_bls12_381/blst_wrapper.c:50-79 | square-and-multiply over little-endian bits gives the power; status 2 exactly for a base other than 0 and 1 with an unset top bit; otherwise the result is the power if and only if it is not 0 to the power 0 with at least one bit, which gives 0 |
| Evaluations.StridedValue | src/lib_bls12_381_polynomial/bls12_381_polynomial_polynomial.c:473-476 | the entry at (i + gx) step mod len is the value at the (i + gx)-th point of the smaller domain |
| Evaluations.EvaluationsMul | src/lib_bls12_381_polynomial/bls12_381_polynomial_polynomial.c:455-488 | the result holds the product over j of P_j(v^(i+gx_j))^(e_j) on the smaller domain |
| Evaluations.EvaluationsLinear | src/lib_bls12_381_polynomial/bls12_381_polynomial_polynomial.c:490-534 | the result holds const + sum of c_j P_j(v^(i+gx_j)); the paths for 1 and -1 give the same |
| Evaluations.ProductIsProduct | src/lib_bls12_381_polynomial/bls12_381_polynomial_polynomial.c:455-488 | the products in the result are finite products of powers, with the exponents the bits spell |
| Evaluations.SumIsSum | src/lib_bls12_381_polynomial/bls12_381_polynomial_polynomial.c:490-534 | the sums in the result are the constant plus a finite sum |
| PoseidonCode.ApplySbox | src/lib_bls12_381_hash/poseidon.c:45-58 | x^5 on all elements or on the last |
| PoseidonCode.ApplyMatrix | src/lib_bls12_381_hash/poseidon.c:60-79 | the buffered loops multiply the state by the matrix |
| PoseidonCode.ApplyCst | src/lib_bls12_381_hash/poseidon.c:81-89 | adds one key and advances the offset by the width |
| PoseidonCode.ApplyBatchedPartialRound | src/lib_bls12_381_hash/poseidon.c:91-142 | the loops over growing rows compute the batched form and advance the offset by the size of the block |
| Poseidon.BatchedPartialRound | src/lib_bls12_381_hash/poseidon.c:91-142 | for every ring, matrix, state and list of round keys one batched round with the constants constructed from them equals the plain partial rounds |
| Poseidon.BatchIsRounds | src/lib_bls12_381_hash/poseidon_utils.ml:297-426 | the same from any forms of the state in the variables so far: the induction over the rounds of a batch |
| Poseidon.BatchSize | src/lib_bls12_381_hash/poseidon_utils.ml:297-426 | the constructed block has exactly the size the batched round reads |
| PoseidonCode.BatchConstantCount | src/lib_bls12_381_hash/poseidon.c:3-25 | that size is the closed formula of the allocation |
| PoseidonCode.ConstantsAllRead | src/lib_bls12_381_hash/poseidon.c:3-25 | for every width, batch size, partial-round count and even full-round count the sections read exactly the allocated number of constants |
| PoseidonCode.ApplyPermutation | src/lib_bls12_381_hash/poseidon.c:144-167 | the permutation reads its constants in order, each once, and ends at the allocated count |
| PoseidonCode.PermutationIsPlain | src/lib_bls12_381_hash/poseidon_utils.ml:428-473 | with the constants arranged by the preparation the whole batched permutation equals the plain one: full, partial, full rounds |
| Systems.PoseidonExactly | src/lib_bls12_381_hash/poseidon.c:45-167 | a state is the image under the plain permutation if and only if there are states between the rounds with: fifth powers of all elements, or of the last in partial rounds; each element of the next state the sum of matrix entries times these, plus its constant |
| AdditionChain.FifthRoot | src/lib_bls12_381_hash/anemoi.c:201-562 | the chain returns x to the quoted exponent in any commutative ring |
| AdditionChain.RootExponent | src/lib_bls12_381_hash/anemoi.c:564-594 | five times that exponent is one more than twice the order of the group |
| AdditionChain.RootInvertsQuint | src/lib_bls12_381_hash/anemoi.c:564-594 | under Fermat's little theorem as hypothesis it inverts x^5, both ways |
| AnemoiCode.ApplyLinearLayer | src/lib_bls12_381_hash/anemoi.c:681-701 | the in-place additions for l = 1..4, with the rotation of y, compute the linear layer |
| Anemoi.LayerIsMatrix | src/lib_bls12_381_hash/anemoi.ml:130-182 | the additions and multiplications by g are the matrices of the parameter sets |
| Anemoi.MatInvertible | src/lib_bls12_381_hash/anemoi.c:87-199 | each matrix is undone by its adjugate where the determinant is a unit, both ways |
| Anemoi.LinearInvertible | src/lib_bls12_381_hash/anemoi.c:87-199 | so is the whole linear layer with its rotation |
| AnemoiCode.ApplySBox | src/lib_bls12_381_hash/anemoi.c:564-594 | the in-place steps compute the Flystel, which `AnemoiSystem.FlystelExactly` fixes by its equations |
| AnemoiSystem.FlystelExactly | src/lib_bls12_381_hash/anemoi.c:564-594 | (u, v) is the image of (x, y) if and only if (y - v)^5 + beta y^2 = x and (y - v)^5 + beta v^2 + delta = u, with Fermat as hypothesis |
| AnemoiSystem.LinearExactly | src/lib_bls12_381_hash/anemoi.c:681-701 | the linear layer is the sums with the matrix entries, for x in place and for y moved up by one |
| Anemoi.FlystelInvertible | src/lib_bls12_381_hash/anemoi.c:564-594 | the Flystel is a bijection in every ring, with an explicit inverse |
| AnemoiCode.ApplyConstants | src/lib_bls12_381_hash/anemoi.c:59-70 | both halves get the constants of the round from the two halves of the array |
| AnemoiCode.ApplyPermutation | src/lib_bls12_381_hash/anemoi.c:703-715 | for l = 1..4 and any number of rounds the loop computes the permutation |
| AnemoiCode.Apply1 | src/lib_bls12_381_hash/anemoi.c:603-615 | the version written out for l = 1 computes the same permutation |
| AnemoiSystem.KeyConstants | src/lib_bls12_381_hash/anemoi.c:59-70 | round r adds constant r l + i to x_i and the one at the same place in the second half to y_i |
| AnemoiSystem.AnemoiExactly | src/lib_bls12_381_hash/anemoi.c:703-715 | a state is the image if and only if there are states between the rounds that meet these equations: constants, linear layer and Flystel in every round, and a last linear layer |
| Anemoi.InverseOfPermutation | src/lib_bls12_381_hash/anemoi.c:709-715 | the inverse that undoes the rounds in the opposite order undoes the permutation, for any number of rounds |
| Anemoi.PermutationOfInverse | src/lib_bls12_381_hash/anemoi.c:709-715 | and the permutation undoes the inverse: it is a bijection |
| Rescue.ApplyLayer | src/lib_bls12_381_hash/rescue.c:402-438 | one half round: the power or root of every element, the matrix, the constants |
| Rescue.ApplyPermutation | src/lib_bls12_381_hash/rescue.c:440-451 | the loop computes the alternating layers and reads two keys per round |
| Systems.RescueExactly | src/lib_bls12_381_hash/rescue.c:402-451 | a state is the image if and only if there are states between the layers with: fifth powers in the even layers, elements with these fifth powers in the odd ones; then the sums with the matrix entries plus the constants |
| Systems.KeyConstants | src/lib_bls12_381_hash/rescue.c:440-451 | key r holds the constants from r times the width on |
| Rescue.LayersUndone | src/lib_bls12_381_hash/rescue.c:27-451 | with a left inverse of the matrix and Fermat as hypothesis the layers are injective, for any number of rounds |
| Rescue.UnlayersUndone | src/lib_bls12_381_hash/rescue.c:27-451 | with a right inverse they are also onto |
| GriffinCode.ApplyNonLinear | src/lib_bls12_381_hash/griffin.c:399-451 | the loop with its running linear form computes the non-linear layer for every width; `GriffinSystem.NonLinearExactly` fixes that layer by its equations |
| GriffinSystem.InputIsSum | src/lib_bls12_381_hash/griffin.c:399-451 | the running form of element i is (i - 1) y0 + y1 plus the elements from the third to the one before |
| GriffinSystem.NonLinearExactly | src/lib_bls12_381_hash/griffin.c:399-451 | t is the image of s if and only if t0^5 = s0, t1 = s1^5 and t_i = s_i (L_i^2 + alpha_i L_i + beta_i) with that form L_i, Fermat being a hypothesis |
| Griffin.NonLinearInvertible | src/lib_bls12_381_hash/griffin.c:399-451 | it is a bijection where the quadratic factors are units, both ways |
| Griffin.UnitFactorsExactly | src/lib_bls12_381_hash/griffin.c:399-451 | in a field where 2 is not 0 the factors are units if and only if no discriminant alpha^2 - 4 beta is a square |
| Squares.Euler | src/lib_bls12_381_hash/griffin.c:399-451 | in a field of odd order q an element is no square if and only if its power (q-1)/2 is -1, given one element with that power |
| Griffin.UnitFactorsByPower | src/lib_bls12_381_hash/griffin.c:399-451 | so one power per pair (alpha, beta) decides whether the factors are units |
| GriffinCode.ApplyLinear3 | src/lib_bls12_381_hash/griffin.c:453-467 | the additions compute the layer for three elements |
| GriffinCode.ApplyLinear4 | src/lib_bls12_381_hash/griffin.c:469-503 | and for four |
| Griffin.LinIsCirculant | src/lib_bls12_381_hash/griffin.c:453-503 | these additions are the circulant matrices (2,1,1) and (3,2,1,1) |
| GriffinSystem.CirculantRows | src/lib_bls12_381_hash/griffin.c:453-503 | row i of the matrix is its first row (2,1,1) or (3,2,1,1) turned by i |
| Griffin.LinInvertible | src/lib_bls12_381_hash/griffin.c:453-503 | they are undone where their determinants 4 and 35 are units, both ways |
| GriffinCode.ApplyPermutation | src/lib_bls12_381_hash/griffin.c:533-548 | the loop computes the permutation for widths 3 and 4 and reads one key per round |
| GriffinSystem.GriffinExactly | src/lib_bls12_381_hash/griffin.c:533-548 | a state is the image if and only if there are states between the rounds that meet the equations: a first circulant layer, then non-linear layer, circulant layer and constants in every round |
| Griffin.PermutationInvertible | src/lib_bls12_381_hash/griffin.c:533-548 | the permutation is a bijection for any number of rounds |
| BytesCode.ShiftLeftC | src/lib_stdlib/tzBytes_c.c:174-240 | on the block of any string, the empty one included, every access stays inside the blocks and the result is the block of the shifted string, or Out_of_memory where that does not fit |
| BytesCode.ShiftRightC | src/lib_stdlib/tzBytes_c.c:242-295 | the same for the right shift, which never runs out of memory |
| BytesCode.LeftExactly | src/lib_stdlib/tzBytes_c.c:174-240 | the stub keeps the promise of the interface if and only if the shift is not negative and the result fits; for negative shifts it raises Out_of_memory |
| BytesCode.RightExactly | src/lib_stdlib/tzBytes_c.c:242-251 | the stub keeps the promise of the interface if and only if the shift is not negative; for negative shifts it returns the empty string |
| BytesCode.ShiftLeftJs | src/lib_stdlib/tzBytes_js.js:97-129 | the second implementation keeps the promise for every string and shift: Invalid_argument below 0, and otherwise the same bytes |
| BytesCode.ShiftRightJs | src/lib_stdlib/tzBytes_js.js:133-163 | so does its right shift |
| Bytes.ShiftLeftValue | src/lib_stdlib/tzBytes_c.c:174-240 | read as a big-endian number the left shift multiplies by 2^n; the length grows by the number of bytes of n bits rounded up, also from the empty string |
| Bytes.ShiftRightValue | src/lib_stdlib/tzBytes_c.c:242-295 | the right shift divides by 2^n, rounding down; the length shrinks by the whole bytes of n, down to 0 |
| Bytes.ShiftRoundTrip | src/lib_stdlib/tzBytes_c.c:174-295 | shifting left and then right by the same amount keeps the value, for every string |
| BytesCode.ShiftBack | src/lib_stdlib/tzBytes_c.c:174-295 | the same for the two C stubs run one after the other on blocks, wherever the left shift fits |
| BytesCode.LogicalC | src/lib_stdlib/tzBytes_c.c:34-154 | on blocks: AND, OR and XOR aligned at the low end, with the length of the shorter string for AND and of the longer one otherwise |
| BytesCode.LogicalJs | src/lib_stdlib/tzBytes_js.js:45-83 | the second implementation gives the same bytes |
| BytesCode.LogicalMir | contrib/mir/src/interpreter.rs:369-440 | the in-place versions of the interpreter give the same bytes, for all pairs of lengths |
| Bytes.LogicalValue | src/lib_stdlib/tzBytes_c.c:34-154 | read as numbers these are the bitwise operations |
| Bytes.LogicalBits | src/lib_stdlib/tzBytes_c.c:34-154 | bit k of the result is set if and only if both, at least one, or exactly one of the strings have it, for every k |

## Left out

- Instructions outside the fragment: sets, strings, bytes (the loops of their AND, OR and XOR are modelled on their own in
  `BytesCode`), bitwise logic on numbers, big maps, PACK and UNPACK, hashing, signatures, BLS values, operations, CONTRACT
  and the queries of the context other than AMOUNT and BALANCE. They would add more cases of the same kind, or call code
  outside the interpreter.
- DIG and DUG in the typechecker panic when the stack is exactly as long as their depth; the model rejects the program.
- The comparison of strings, bytes, keys, signatures and timestamps; addresses are compared as numbers.
- Maps are ordered sequences searched from the front; the balanced tree behind them is not modelled, and an operation is
  taken to panic if any stored key is incomparable with the one looked up.
- The heap size of a split ticket enters its price as the constant for a 64-bit machine.
- After an error the mutating interpreter's stack and gas are not described (`Running.Agrees`), except by the bound on
  the number of ticks.
- Gas spent by the typechecker, and the parsing of types and values.
- The formal polynomials and the matrix code with which `poseidon_utils.ml` writes the batched constants; the model
  substitutes affine forms in the same order and proves that the constants they give work.
- `anemoi_generic_apply_linear_layer` for l > 4, and Griffin widths other than 3 and 4, which have no linear layer.
- Contexts, allocation and freeing: a context is the arrays it points to, and matrices are given as rows.
- C integer overflow of indices.
- `polynomial_add`, `sub`, `negate`, `derivative`, `evaluations_add` and `evaluations_rescale`, which are single loops.
- Primality of the field order, and Fermat's little theorem, which are hypotheses.
- Pippenger multi-scalar multiplication and the blst primitives.
- Running.InterpretSeq: excludes runs on which the functional semantics panics, because a Rust panic has no result, and
  does not describe the stack after an error, which the source discards.
- Running.Interpret: the same, for one instruction.
- Machines.Machine.RunDataOp: calls the functions on ordered bindings where the source calls the map of the Rust library.
- Griffin.NonLinearInvertible: assumes that the quadratic factors are units; `Griffin.UnitFactorsByPower` reduces this to
  one power per pair, whose numeric value is not computed here.
- Rescue.LayersUndone: assumes an inverse of the matrix, which depends on the numeric values of the parameters.
- Anemoi.InverseOfPermutation: assumes that the determinant of the linear layer is a unit (1, 1, -48 and 7 for l = 1 to 4).
