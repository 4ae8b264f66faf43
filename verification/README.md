# L24, verified

L24 is a compiler for a small C-like language. ANTLR parses the source, a visitor builds a tree of
records, and a generator with a moving insertion point, a stack of scopes and a stack of loops lowers
it to LLVM basic blocks. This project models that compiler and four of the programs kept as its
workloads, and proves what they are for.

- `Ast`, `Source`: the syntax tree and a big-step evaluator over a stack of environments. Every entry
  into a block makes fresh variables; arrays are passed by reference; arithmetic is 64-bit two's
  complement with truncating division; `||` and `&&` evaluate both operands. Fuel bounds loop iterations
  and call depth only. An index out of range and a division without a result are the failure `Trap`; the
  value of a void call, an array used as a number and a number used as an array are `Misuse`; the other
  failures are those the compiler is meant to report.
- `Target`: the emitted instructions and a machine that runs them one at a time over blocks, a frame of
  slots per call and globals. A block runs up to its first terminator.
- `Lowering`, `CodeGen`: code generation as functions from one generator state to the next, and the class
  that does it by mutation, proved to do exactly that. `AstBuilder` is the builder's flattened statement
  record and how code generation takes it apart.
- `Growth`, `Cfg`, `Endings`, `Fallthrough`: what generation does to the blocks and stacks.
- `Matching`, `Progress`, `VarSim`, `OpSim`, `DefSim`, `ControlSim`, `Simulation`, `Compile`: the simulation.
  For every accepted program, a source run that ends is matched by a machine run that halts with the same
  value and globals, a run that traps by a machine that gets stuck, and a run that goes on forever by a
  machine that does; and the other way round for programs that misuse no value.
- `Typing`: a type check on the text that rules misuse out. `Acceptance`: which programs compile, read off
  the text. `Samples`: a program with a loop carried through all of it.
- `Fuel`: a run seen to end at some fuel is the same run at any larger one. `Entry`: the builder, the
  generator and the simulation joined in one statement about the module that is built.
- `ShortCircuit`, `ConstSafety`, `ConstLeak`: when evaluating both operands is the same as stopping early,
  and what `const` protects. Natural claims that are false of the code come with an input that shows it:
  `1 || 1 / 0` traps; an accepted program changes its const array by passing it to a callee that stores
  through its array parameter; and, though the comments promise to prevent two branches in a block
  (src/backend/code_gen.cpp:239-240), `break; continue;` makes two and a return inside an `if` gets a branch
  after it (`Endings`).
- `Grammar`, `StmtGrammar`, `RoundTrip`: the layers of the grammar, the tokens of a tree, and a reader that
  accepts exactly the derived token sequences and gets the one tree back. `Productions`: the expression
  productions one by one, as the grammar file has them.
- `ModArith`, `Poly`, `Fft`: polynomial multiplication by a number-theoretic transform, in place.
- `Brainfuck`, `Interpreter`: the jumping interpreter loop with its return-address stack against a
  semantics in which brackets are loops. `Texts`: what each character does, as facts about texts.
- `Sorting`, `QuickSort`, `CountingSort`: the three-way quicksort and the counting sort.

Where the code and its documentation differ, the code is followed. `dafny verify dfyconfig.toml` checks
the whole project.

## Model

| member | source | states |
|---|---|---|
| Compile.SimMain | src/backend/code_gen.cpp:55-142 | for every accepted program and every fuel: a run that ends is a machine run that halts with the same value and globals; one that is out of fuel k is a machine run of at least k steps; one that traps is a machine run that gets stuck; the only other failure is a misused value |
| Compile.CompiledHalts | src/backend/code_gen.cpp:64-142 | a source run that ends is matched by a machine run that halts with its result |
| Compile.CompiledSticks | src/backend/code_gen.cpp:64-142 | a source run that traps is matched by a machine run that reaches an instruction it cannot make |
| Compile.StopsFromSource | src/backend/code_gen.cpp:64-142 | the converse: a machine that halts shows the result of the source run, one that is stuck shows a run that traps, unless that run misuses a value; any fuel above the step count is enough |
| Compile.CompiledDiverges | src/backend/code_gen.cpp:64-142 | a run still going at fuel n keeps the machine going for n steps, so a program that runs forever keeps it running forever |
| Compile.AcceptedIsSafe | src/backend/code_gen.cpp:64-142 | an accepted program never meets, at run time, an undeclared or redeclared name, a store to a const, a bad call or a stray break/continue |
| Compile.HaltsTogether | src/backend/code_gen.cpp:64-142 | the machine of a program that misuses no value halts in a configuration if and only if the program ends with the result it shows |
| Compile.SticksTogether | src/backend/code_gen.cpp:64-142 | the machine of such a program gets stuck if and only if the program traps |
| Compile.DivergesTogether | src/backend/code_gen.cpp:64-142 | the machine of such a program runs forever if and only if the program does |
| Compile.TypedExactly | src/backend/code_gen.cpp:64-142 | for every accepted and well-typed program: machine and program halt together with the same result, get stuck and trap together, and run forever together |
| Typing.WellTypedRuns | src/backend/code_gen.cpp:167-214 | a type check on the text alone (numbers, arrays, functions that give a value) rules out, at any fuel, every use of an array as a number, of a number as an array and of a missing value |
| Typing.StmtKeeps | src/backend/code_gen.cpp:167-214 | every run of a well-typed statement, however it ends, keeps which names are arrays and misuses no value |
| Typing.InvokeKeeps | src/backend/code_gen.cpp:341-360 | a call with arguments of the right kinds binds every parameter, leaves the callers' names alone and gives a number if its function is taken to give one |
| Typing.ScalarWellTyped | src/backend/code_gen.cpp:167-214 | programs without arrays whose calls have the right arity and whose functions give a value however they are left are well typed, loops, branches, jumps and calls included |
| Acceptance.ChecksProgram | src/backend/code_gen.cpp:64-142 | which programs compile, read off the text: the generator succeeds if and only if every declared name is new in its own block, every used name is in scope or a global, no const is assigned, calls match a function and its arity, break and continue are inside a loop, sizes are positive constants and global initialisers constants; it then knows the functions and initial globals the check finds |
| Acceptance.AcceptsExactly | src/backend/code_gen.cpp:64-142 | and the result can be run if and only if there is a main without parameters |
| Acceptance.ChecksStmt | src/backend/code_gen.cpp:167-315 | the same for one statement in any scopes, inside a loop or not |
| Acceptance.ChecksDef | src/backend/code_gen_ctx.cpp:27-47 | a definition succeeds if and only if its size is a positive constant, its initialisers pass and its name is new in the innermost block: shadowing an outer name is no error |
| Acceptance.ChecksExpr | src/backend/code_gen.cpp:321-453 | an expression is generated if and only if its names are known and its calls match, and its operand is a constant if and only if it has a constant value, which it then is |
| Samples.CompiledCounts | test/lv7/00_while.l24:1-5 | for every n from 0 to 2^63 - 1 the program that counts to n in a loop is accepted and well typed, and its module halts with n |
| Fuel.OneRun | src/backend/code_gen.cpp:64-142 | fuel decides only whether a run is seen to end: two runs of a program that are not out of fuel are the same run, result or failure |
| Entry.CodeGenEntry | src/backend/code_gen.cpp:55-80 | builder, generator and theorem joined: the mutating generator, run on the record of a program, succeeds exactly when the text passes the check of `Acceptance`, with the specification's module, which mirrors every run of the program |
| Compile.ProgramWorld | src/backend/code_gen.cpp:81-142 | every function keeps the code and the calling environment it was generated in, whatever is defined after it |
| Compile.InitialGlobals | src/backend/code_gen_ctx.cpp:186-209 | the initial globals of the module are the values the source initialisers evaluate to, in order |
| Compile.FoldSound | src/backend/code_gen_ctx.cpp:243-257 | an expression outside functions that yields a constant yields the value it evaluates to |
| Simulation.SimStmt | src/backend/code_gen.cpp:167-214 | the emitted blocks follow the source statement for every outcome: normal completion at the new insertion point with matching variables, break/continue at the innermost loop's after/condition block, return at a return instruction with the same value; out of fuel k means at least k steps |
| Simulation.SimIf | src/backend/code_gen.cpp:215-268 | the same for if/else, also when a branch ends in break, continue or return |
| Simulation.SimWhile | src/backend/code_gen.cpp:270-315 | the same for a loop, for any number of iterations |
| Simulation.SimLoop | src/backend/code_gen.cpp:283-307 | from the condition block on: test, body, and back, by induction on fuel |
| Simulation.SimBlock | src/backend/code_gen.cpp:157-166 | a block's layer is pushed and popped on both sides, however its items end |
| Simulation.SimAssign | src/backend/code_gen.cpp:197-213 | a scalar assignment |
| Simulation.SimAssignElem | src/backend/code_gen.cpp:197-213 | an element assignment: right-hand side first, then the index, then the store |
| Simulation.SimReturn | src/backend/code_gen.cpp:191-202 | return stops at a return instruction holding the value of the expression |
| Simulation.SimExpr | src/backend/code_gen.cpp:321-453 | the operand generated for an expression holds its source value when the code after it runs; side effects agree |
| Simulation.SimRest | src/backend/code_gen.cpp:375-453 | left operand before right operand before operator; for || and && the left one is made boolean before the right one is evaluated |
| Simulation.SimCall | src/backend/code_gen.cpp:341-360 | a call has the source call's result and its effect on globals and caller arrays |
| Simulation.SimInvoke | src/backend/code_gen.cpp:111-142 | the callee's frame: arguments copied to slots, body run, return to the caller with its frames matching, at any recursion depth |
| Simulation.SimParams | src/backend/code_gen.cpp:124-129 | scalar arguments are copied and array arguments bound to the caller's array |
| Simulation.SimScalarDef | src/backend/code_gen_ctx.h:41-47 | a scalar declaration makes the variable with its initial value in a slot of its own |
| Simulation.SimArrayDef | src/backend/code_gen_ctx.h:49-64 | an array declaration fills every cell, padding with zeros, each time it is reached |
| Simulation.SimInit | src/backend/code_gen.cpp:520-546 | the initial values: initialisers in order, then zeros |
| ControlSim.StmtThen | src/backend/code_gen.cpp:167-214 | what a statement owes composes over what ran before it, for every outcome |
| ControlSim.SimSeal | src/backend/code_gen.cpp:239-243 | a branch completed normally really ends in the appended branch |
| ControlSim.SimTest | src/backend/code_gen.cpp:221-231 | the conditional branch enters the block the condition selects |
| ControlSim.ExitBlock | src/backend/code_gen.cpp:160-164 | leaving a block by break, continue or return drops its layer too |
| OpSim.SimLogic | src/backend/code_gen.cpp:405-422 | compare, select and cast compute || and && of both operands |
| OpSim.SimBinary | src/backend/code_gen.cpp:375-453 | every binary operator computes the 64-bit source value; where the source traps the machine has no next step |
| Int64.DividesExactly | src/backend/code_gen.cpp:397-400 | a division of words has a result if and only if the divisor is not 0 and the truncated quotient is a word; the remainder then is one too |
| Int64.QuotientRemainder | src/backend/code_gen.cpp:397-400 | truncating division: a = b q + r, |r| < |b|, r has the sign of a |
| Source.ApplyHasResult | src/backend/code_gen.cpp:375-453 | every operator on words has a result, and it is a word, except a division by 0 or whose quotient is no word |
| OpSim.SimUnary | src/backend/code_gen.cpp:325-340 | +, - and ! |
| ShortCircuit.OneOperator | src/backend/code_gen.cpp:405-422 | for any right operand, evaluating both agrees with short-circuit evaluation if and only if the left operand leaves it open or evaluating the right one has an integer value and no effect |
| ShortCircuit.LazyAgrees | src/backend/code_gen.cpp:405-422 | over a whole expression, calls included, the two readings agree when that holds wherever a left operand decides |
| ShortCircuit.GuardedAgrees | src/backend/code_gen.cpp:405-422 | a guard read off the expression: without calls, and with right operands made of literals, numeric variables and operators that always have a result (divisors being literals other than 0 and -1), the two readings agree |
| ShortCircuit.TotalHasValue | src/backend/code_gen.cpp:375-404 | such an operand always has a value |
| ShortCircuit.EagerTraps | src/backend/code_gen.cpp:405-413 | 1 || 1 / 0 separates the two readings |
| Matching.DeclareMatch | src/backend/code_gen_ctx.h:41-64 | a declaration in the top layer adds exactly its own binding to what matches |
| Matching.FreeSlot | src/backend/code_gen_ctx.h:24-39 | initialising the hoisted slot of a name not in scope disturbs no visible variable, whatever the slot held from an earlier entry of its block |
| Matching.PushMatch | src/backend/code_gen_ctx.cpp:19-21 | entering a block keeps source and machine matching, with a fresh layer on the source side and no new slot |
| Matching.PopMatch | src/backend/code_gen_ctx.cpp:23-25 | leaving a block keeps them matching |
| Matching.PutMatch | src/backend/code_gen_ctx.h:66-87 | writing one name changes the matching cell and no other variable |
| Matching.MatchRef | src/backend/code_gen_ctx.h:89-119 | an array reference and the machine pointer reach the same cells |
| Matching.MatchFind | src/backend/code_gen_ctx.cpp:81-92 | compile-time lookup finds the layer that run-time innermost binding does |
| Matching.EnterMatch | src/backend/code_gen.cpp:124-129 | a call's new frame matches and leaves the callers' frames matching |
| Matching.LeaveMatch | src/backend/code_gen.cpp:140-141 | dropping the callee's frame leaves the callers' frames matching |
| VarSim.SimReadVar | src/backend/code_gen_ctx.cpp:81-114 | reading a name gives the innermost binding's value, or the address of an array, or the global |
| VarSim.SimReadElem | src/backend/code_gen_ctx.h:104-118 | an indexed read through any chain of array parameters reads the original array's cell |
| VarSim.SimWriteVar | src/backend/code_gen_ctx.cpp:49-79 | a scalar store reaches the innermost binding or the global |
| VarSim.SimWriteElem | src/backend/code_gen_ctx.h:73-87 | an indexed store through any chain of array parameters writes the original array's cell and nothing else |
| VarSim.SimOutside | src/backend/code_gen_ctx.h:104-118 | the address computed for an index outside the array, through any chain of array parameters, is one that no memory answers |
| DefSim.SimDefineArray | src/backend/code_gen_ctx.h:49-64 | the stores of a declaration leave the slot holding the initial values |
| Scopes.Find | src/backend/code_gen_ctx.cpp:81-92 | the layer found binds the name and no layer above it does |
| ConstSafety.ConstKept | src/backend/code_gen_ctx.cpp:38-46 | from its declaration to any later point of its block, however that is left, a const keeps its initial contents and its name keeps meaning it; for an array, if the rest of the block does not mention its name bare |
| ConstSafety.DeclaredGuarded | src/backend/code_gen_ctx.cpp:38-46 | when a const is declared nothing can be bound to its array |
| ConstSafety.StmtKeeps | src/backend/code_gen_ctx.cpp:64-78 | every run of a statement binds array parameters only to arrays of outer calls, and keeps a const that satisfies what DeclaredGuarded establishes |
| ConstSafety.MatchWellAliased | src/backend/code_gen.cpp:124-129 | in every state that matches a machine state, array parameters are bound to arrays of outer calls |
| ConstSafety.InvokeKeeps | src/backend/code_gen_ctx.cpp:64-78 | the same for a call, whose arguments do not refer to the const |
| ConstSafety.WriteVarKeeps | src/backend/code_gen_ctx.cpp:64-78 | a store to a name never reaches a const |
| ConstSafety.ConstNeedsAlias | src/backend/code_gen_ctx.h:73-87 | an element store that changes a const array is made through a name that is an array parameter bound to it |
| ConstLeak.Poked | src/backend/code_gen_ctx.h:73-87 | the exception: a callee's store through its array parameter changes the caller's const array |
| ConstLeak.PokeAccepted | src/backend/code_gen_ctx.cpp:75-78 | the compiler accepts a program that does so |
| ConstLeak.PokeRuns | src/backend/code_gen_ctx.h:73-87 | and that program returns 2 from its const cell declared as 1 |
| ConstLeak.PokeTyped | src/backend/code_gen.cpp:341-360 | its types are in order: arrays, an array argument, indexed reads and stores |
| ConstLeak.PokeCompiled | src/backend/code_gen_ctx.h:73-87 | and so its module halts with 2 |
| Cfg.FunctionShape | src/backend/code_gen.cpp:121-136 | a function has 1 + 3 (ifs + whiles) blocks, each inserted exactly once, each closed by a terminator, every branch target one of them, dead code included; both stacks are back where they were |
| Cfg.StmtShaped | src/backend/code_gen.cpp:167-315 | every statement keeps: blocks other than the insertion point are closed or not yet inserted, targets exist, block count grows by three per fork |
| Endings.FunctionClean | src/backend/code_gen.cpp:130-136 | where no statement follows a jump, every block of a function has at most one branch, which is its last instruction, at most one return, which at most a branch follows, and the last block is closed by a return |
| Endings.StmtEnding | src/backend/code_gen.cpp:239-243 | every such statement keeps that, and leaves the insertion block closed only if it jumps |
| Endings.BranchAfterReturn | src/backend/code_gen.cpp:239-243 | if (1) then return 1; end: the block of the branch holds a return and then a branch |
| Endings.BranchAfterBranch | src/backend/code_gen.cpp:239-243 | break; continue; in a loop: two branches in a row |
| Growth.GenStmtExtends | src/backend/code_gen.cpp:167-315 | a statement leaves the loop stack and the scope stack's lower layers as it found them, only appends to the insertion block, and touches no other existing block |
| CodeGen.InsideLoop | src/backend/code_gen.cpp:278-306 | at the end of a loop's body the loop stack is the enclosing loops' with this loop's (condition, after) pair on top |
| Growth.GenWhileExtends | src/backend/code_gen.cpp:270-315 | a loop restores the loop stack and the scopes |
| Growth.GenExprExtends | src/backend/code_gen.cpp:321-453 | an expression emits straight-line code into the current block, binds no name and makes no slot |
| Growth.SetValueExtends | src/backend/code_gen_ctx.cpp:49-79 | an assignment binds no name and makes no slot |
| Growth.DefineExtends | src/backend/code_gen_ctx.cpp:27-47 | a definition touches only the top layer, with a name that was not in it |
| Fallthrough.StmtOpen | src/backend/code_gen.cpp:239-243 | a statement that completes normally leaves the insertion block without a terminator, so that the branch appended to it is reached |
| CodeGen.Generator.CodeGenStmt | src/backend/code_gen.cpp:167-214 | the mutating generator, on the flattened record, changes its state as the specification says, or reports an error exactly when that has none |
| CodeGen.Generator.CodeGenIfStmt | src/backend/code_gen.cpp:215-268 | the same for if |
| CodeGen.Generator.CodeGenWhileStmt | src/backend/code_gen.cpp:270-315 | the same for while |
| CodeGen.Generator.CodeGenBlock | src/backend/code_gen.cpp:157-166 | the same for a block |
| CodeGen.Generator.CodeGenExp | src/backend/code_gen.cpp:321-453 | the same for expressions over the functions of the program |
| CodeGen.Generator.CodeGenArgs | src/backend/code_gen.cpp:355-358 | arguments in order |
| CodeGen.Generator.GetInitVals | src/backend/code_gen.cpp:520-546 | initial values cell by cell |
| CodeGen.Generator.CodeGenBody | src/backend/code_gen.cpp:121-136 | entry block, parameters, body and the closing return |
| CodeGen.Generator.FindLayer | src/backend/code_gen_ctx.cpp:52-58 | the decrementing scan finds the innermost layer that binds the name, or -1 |
| CodeGen.Generator.ReadValue | src/backend/code_gen_ctx.cpp:81-114 | lookup and the read it emits |
| CodeGen.Generator.WriteValue | src/backend/code_gen_ctx.cpp:49-79 | lookup and the store it emits; a const is an error |
| CodeGen.Generator.DefineValue | src/backend/code_gen_ctx.cpp:27-47 | a new binding in the top layer, an error if the name is there |
| CodeGen.Generator.CreateDefineValueInst | src/backend/code_gen_ctx.h:41-64 | the slot and its initial stores |
| CodeGen.Generator.CodeGenFunc | src/backend/code_gen.cpp:81-142 | the function is entered into the module as the specification generates it |
| CodeGen.Generator.DefineGlobalValue | src/backend/code_gen_ctx.cpp:186-209 | a global scalar with its constant initial value |
| CodeGen.Generator.CodeGenProgram | src/backend/code_gen.cpp:64-80 | definitions in textual order, stopping at the first error |
| AstBuilder.BuildStmt | src/frontend/ast_builder.cpp:58-98 | the builder's assignments produce the record of the statement |
| AstBuilder.BuildBlock | src/frontend/ast_builder.cpp:49-56 | children are pushed in order |
| AstBuilder.DecodeBuilt | src/backend/code_gen.cpp:167-214 | the field tests of codeGenStmt, in their order, recover the alternative and children visitStmt stored, recursively, if and only if no assignment has an empty name |
| AstBuilder.DecodeBuiltProg | src/frontend/ast_builder.cpp:20-32 | the left-nested program node is visited in textual order |
| Productions.ReadsGrammar | grammar/l24.g4:149-208 | the reader accepts a token sequence with a tree if and only if `exp` derives it, by productions written out one by one with their operators |
| Productions.ExpWritten | grammar/l24.g4:149-208 | what each nonterminal derives, from `lOrExp` down to `lVal`, is what its layer fits, written as it is shown |
| Grammar.ReadShown | grammar/l24.g4:149-208 | reading the tokens of a tree of any layer, before anything that does not continue it, gives the tree back |
| Grammar.ExprLanguage | grammar/l24.g4:149-208 | the reader accepts exactly the token sequences the productions derive, with their tree |
| Grammar.ExprUnambiguous | grammar/l24.g4:149-208 | no token sequence has two expression trees |
| Grammar.ChainMeans | grammar/l24.g4:153-185 | chains of one layer associate to the left |
| Grammar.LiteralKept | src/frontend/ast.h:193-197 | a literal keeps its value in the number node if and only if it is below 2^31; otherwise it becomes the int that differs from it by a multiple of 2^32 |
| RoundTrip.ReadShownStmt | grammar/l24.g4:107-117 | reading the tokens of a statement gives it back |
| RoundTrip.ReadShownDefs | grammar/l24.g4:118-143 | the same for declarations with sizes and initialisers |
| RoundTrip.StmtLanguage | grammar/l24.g4:93-143 | the statement reader accepts exactly the derived token sequences |
| RoundTrip.StmtUnambiguous | grammar/l24.g4:107-117 | no token sequence has two statement trees or two ends: no dangling else |
| RoundTrip.FrontEnd | src/frontend/ast_builder.cpp:58-98 | tokens, tree, record, decoded statement: the tokens are those of the decoded statement |
| Fft.Multiply | test/perf/12_fft0.c:4-11 | a b mod 998244353 in [0, mod) with every intermediate in int range; recursion halves b |
| Fft.Power | test/perf/12_fft0.c:13-19 | a^b mod 998244353 in [0, mod) |
| Fft.Program.MemMove | test/perf/12_fft0.c:23-30 | copies len cells and changes no other |
| Fft.Program.Deinterleave | test/perf/12_fft0.c:34-41 | even-indexed coefficients to the first half, odd-indexed to the second |
| Fft.Program.Combine | test/perf/12_fft0.c:44-53 | the butterflies turn the transforms of the halves into the transform of the whole |
| Fft.Program.Transform | test/perf/12_fft0.c:32-55 | for n a power of two and w^(n/2) = -1 mod p: the segment becomes the values of its polynomial at w^0..w^(n-1), in [0, mod), every other cell is unchanged, and it terminates |
| Fft.Program.Size | test/perf/12_fft0.c:60-64 | the least power of two that holds the product |
| Fft.Program.Convolve | test/perf/12_fft0.c:57-82 | a[0..n+m-2] ends up with the coefficients of the product modulo 998244353 |
| Fft.Butterfly | test/perf/12_fft0.c:46-53 | one butterfly, at w^i and w^(i+n/2) |
| Fft.Roots | test/perf/12_fft0.c:65-73 | the two roots the program computes are inverse to each other and primitive of order d |
| Fft.Recovered | test/perf/12_fft0.c:68-73 | the inverse transform of the pointwise product is d times the product |
| Fft.Unscale | test/perf/12_fft0.c:74-78 | multiplying by d^(mod-2) divides by d |
| Poly.Inversion | test/perf/12_fft0.c:73-73 | transforming values back with the inverse root gives n times the coefficients |
| Poly.GeoRoot | test/perf/12_fft0.c:73-73 | powers of a nontrivial root of unity sum to zero, for powers of two, without using that the modulus is prime |
| Poly.EvProduct | test/perf/12_fft0.c:68-72 | the value of the product polynomial is the product of the values |
| Poly.EvSplit | test/perf/12_fft0.c:35-43 | P(x) = E(x^2) + x O(x^2) |
| ModArith.MinusOne | test/perf/12_fft0.c:65-66 | 3^((mod-1)/2) = -1 mod p |
| ModArith.TwoOrder | test/perf/12_fft0.c:76-76 | 2^(mod-1) = 1 mod p |
| Brainfuck.Simulates | test/perf/18_brainfuck-bootstrap.c:49-104 | for every balanced text nested at most 512 deep and every fuel: the jumping loop ends in the same tape, heads and output as the structured run, or faults where it faults, or makes at least as many iterations as the fuel it ran out of |
| Brainfuck.HaltsAsMeant | test/perf/18_brainfuck-bootstrap.c:49-104 | the converse: whatever the loop halts with, the structured run ends with, and the stack is empty |
| Brainfuck.FaultsAsMeant | test/perf/18_brainfuck-bootstrap.c:49-104 | wherever the loop faults, the structured run faults |
| Brainfuck.RunsForever | test/perf/18_brainfuck-bootstrap.c:49-104 | the loop runs forever if and only if no fuel is enough for the structured run |
| Brainfuck.SimInside | test/perf/18_brainfuck-bootstrap.c:66-90 | an entered loop: body, `]`, and back to just after its own `[` |
| Brainfuck.BalancedIsTree | test/perf/18_brainfuck-bootstrap.c:66-90 | bracket counts are balanced if and only if the text is that of a tree; its nesting is the largest count |
| Brainfuck.AlwaysOpens | test/perf/18_brainfuck-bootstrap.c:66-90 | at every head of the loop the return stack is exactly the positions of the brackets open at ip, outermost first |
| Brainfuck.StepKeepsOpens | test/perf/18_brainfuck-bootstrap.c:66-90 | one iteration keeps it, through the skip and through the jump back |
| Brainfuck.Partner | test/perf/18_brainfuck-bootstrap.c:84-90 | the `[` on top of the stack at a `]` is the one whose scan ends there |
| Brainfuck.ScanFindsClose | test/perf/18_brainfuck-bootstrap.c:71-82 | the skip loop ends inside the program at the first `]` that brings the bracket count back |
| Brainfuck.SkipText | test/perf/18_brainfuck-bootstrap.c:71-82 | the skip loop passes over every closed piece of text |
| Interpreter.Interpreter.RunProgram | test/perf/18_brainfuck-bootstrap.c:49-104 | the loop over the arrays leaves the tape, heads and output of the structured semantics |
| Interpreter.Interpreter.Iterate | test/perf/18_brainfuck-bootstrap.c:56-103 | one iteration over the arrays, as the step function |
| Interpreter.Interpreter.FindClose | test/perf/18_brainfuck-bootstrap.c:71-82 | the skip loop, as the scan function |
| Interpreter.Interpreter.Execute | test/perf/18_brainfuck-bootstrap.c:58-101 | the effect of a character that is not a bracket, by its code: the new cell, heads and output, and that no other cell changes |
| Texts.Adds | test/perf/18_brainfuck-bootstrap.c:62-63 | n `+` and a `.`: the cell grows by n and the sum is written |
| Texts.Subtracts | test/perf/18_brainfuck-bootstrap.c:64-65 | n `-` and a `.`: the cell shrinks by n and the difference is written |
| Texts.WalksRight | test/perf/18_brainfuck-bootstrap.c:58-59 | n `>` and a `.`: the cell n to the right is written, wherever the head started |
| Texts.WalksLeft | test/perf/18_brainfuck-bootstrap.c:60-61 | n `<` and a `.`: the cell n to the left is written |
| Texts.Ignores | test/perf/18_brainfuck-bootstrap.c:56-103 | any other character does nothing |
| Texts.Clears | test/perf/18_brainfuck-bootstrap.c:66-90 | `[-]` clears every cell that is not negative |
| Texts.Transfers | test/perf/18_brainfuck-bootstrap.c:66-90 | `[->+<]` adds the cell to the next one and clears it |
| Texts.Copies | test/perf/18_brainfuck-bootstrap.c:91-101 | `,[.,]` writes the input up to its first 0 or its end and leaves a 0 |
| Texts.ParseShown | test/perf/18_brainfuck-bootstrap.c:66-90 | parsing the text of a tree gives the tree back, whatever closing bracket follows |
| QuickSort.Partition | test/final/quick_sort.l24:5-23 | three zones (below, equal, above the pivot) kept through the double swap, their boundaries in res, a permutation of the segment, the rest untouched |
| QuickSort.ZoneBoundaries | test/final/quick_sort.l24:20-22 | the boundaries returned count the values below, and up to, the pivot |
| QuickSort.Sort | test/final/quick_sort.l24:25-32 | terminates; the segment ends up ordered and a permutation of itself, the rest untouched |
| CountingSort.AgreesWithQuickSort | test/final/quick_sort.l24:25-32 | on the same values, what quickSort promises of its result is one sequence only, the one the counting sort leaves |
| CountingSort.Sort | test/lv9/20_sort6.l24:3-32 | values 0..9: each value lands at its stable rank, so that the output is an ordered permutation; all indices in range; the rest of the output untouched |
| CountingSort.Accumulate | test/lv9/20_sort6.l24:20-24 | running sums: count_arr[v] becomes the number of values up to v |
| CountingSort.Distribute | test/lv9/20_sort6.l24:25-30 | the backward pass puts every value at its rank |
| Sorting.RankOrder | test/lv9/20_sort6.l24:25-30 | ranks are positions that order values by size and equal values by where they stood: the sort is stable |
| Sorting.StablySortedOrdered | test/lv9/20_sort6.l24:3-32 | values at their ranks are an ordered permutation of the input |
| Sorting.Unrank | test/lv9/20_sort6.l24:25-30 | every position is the rank of some value |

## Left out

- LLVM's own algorithms (the verifier, whose answer the compiler ignores, the constant folder, instruction selection) and ANTLR's; the folder is taken to evaluate instructions whose operands are all constants.
- The allocas as instructions: they always stand at the front of the entry block, and are kept as the function's slot table instead. Where an alloca stands among the others is not modelled.
- The driver, `asmGen`, printing, and the library functions (`getint`, `putarray`, ...): input and output; a call to one of them is a call to an unknown function.
- Arrays at global scope: the index constant and the load are made with the array type (src/backend/code_gen_ctx.cpp:236-263), so there is no clean meaning to state; such programs are rejected by the model.
- Array sizes below zero and sizes or global initialisers that do not fold to a constant: the code dereferences a null cast or wraps; the model rejects them.
- A function and a global of the same name: LLVM renames one of them; the model rejects the program.
- Function return types: whether a call's value may be used is decided by how the function's body ends, not by its declared type; `char` parameters and `char` functions are not told apart from what their lowering makes of them.
- Typing.WellTypedRuns: sound, not complete; a program may misuse no value and not pass the check.
- Compile.StopsFromSource: what the machine of a program that misuses a value does is not stated; the emitted code uses a pointer or an undefined value as an integer there.
- Undefined behaviour of LLVM: an access outside a slot and a division without a result stop the machine of the model, whatever a processor would do.
- Constness of globals: it is not recorded (src/backend/code_gen_ctx.cpp:211-232), so nothing is claimed for it.
- The empty block: `back()` of an empty block (src/backend/code_gen.cpp:241) is taken to say that it does not end in a branch or a return.
- Stack and memory limits of the machine.
- The lexer: tokens are given, identifiers are not empty, and a literal too large for 64 bits, which throws, has no token. `int` and `char` are one token, as in the grammar. Chains of single-child expression nodes are one node.
- The nodes `{}` and `""` build for an initialiser are the same node (src/frontend/ast_builder.cpp:292-305); the tree keeps them apart and both initialise with zeros.
- Functions and parameters in the grammar round trip: they add only easy cases.
- ConstSafety.ConstKept: one direction for arrays; that a const array whose name is handed over does change depends on what the callee does.
- ShortCircuit.GuardedAgrees: one direction; calls are covered by LazyAgrees, whose guard follows the evaluation.
- CodeGen.Generator.CodeGenExp: a call to a library function is an error of the model; the source declares those functions first (src/backend/code_gen_ctx.cpp:120-185).
- CodeGen.Generator.CodeGenFunc: for the same reason library names are not reserved, and the return type is not recorded.
- CodeGen.Generator.DefineGlobalValue: global arrays are errors of the model.
- Entry.CodeGenEntry: the library declarations and the printing of the module; the tokens-to-tree half stops at statements.
- ShortCircuit.LazyAgrees: a callee's body is run by the evaluator itself, not by the short-circuit reading.
- Fft.Program.Convolve: reading the two arrays and printing the result; the loop's arithmetic is the 32-bit C type's, with overflow excluded by proof, and the second transform, the unused array `c` and the timing calls are as in the program.
- Interpreter.Interpreter.RunProgram: reading the program and its input. The loop may run forever; the method is given the fuel of a structured run that ends (Brainfuck.HaltsAsMeant gives one for every loop that halts).
- A `]` with an empty stack and a `[` without partner are faults of the interpreter model; in an accepted text they do not occur.
- The other sorts, the numbered duplicates, the transpose, matrix and bitset programs: easier members of the same kind.
