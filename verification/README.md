# SQLinked: compiler, stack machine, collector and block generator

SQLinked compiles a small statement language to the code of a stack machine and runs it; statements inside
`${ ... }` become a stored procedure of a database. This project models the parts that carry the language
and proves what they promise.

**Language and meaning.** `Values`, `Arrays` and `Source` give run-time values, the cell discipline of
arrays, and a fuel-indexed interpreter. Operands, elements and arguments are evaluated right to left; storing
undef is a no-op; an assignment's value is the variable read back; `if`, `while` and falling off a function
yield 0; functions are found by name at run time and shadow natives. A program is its definitions followed by
its main statements. What the C standard leaves undefined (signed overflow, division by zero, negative
indices) is one outcome, `Undefined`, in the interpreter and the machine alike.

`ValueLaws` says what each value operation does to numbers, strings and arrays, `Meaning` what whole arithmetic
expressions and single opcodes compute, as mathematical integers. Interpreter and machine share the operations,
so their agreement alone would not say it.

**Code.** `Bytecode` has the encoding of cells, `Codegen` a relocatable generator for both lowerings of `if`
and `while` (the scheme is a parameter: `METHOD1` is `Jumps`), `Compiler` the one-pass emitter that appends,
backpatches and grows its tables, `Stability` and `JumpTargets` what emitted code keeps.

**Machine.** `Machine` has one step as a function, `Exec` the machine that updates its fields in place.
`Simulation`, `BracketMatching`, `ControlFlow`, `Correctness`, `CompilerCorrectness` and `Linking` lead to the
whole-program results in `Theorems`. `Layouts` and `CodeLayouts` describe every cell of compiled code by a
static layout and show that every reachable state follows it; `LoopNesting` shows that the loop stacks hold the
loops around the active cells. `Fragments` covers `repeat` and the code around a database block, which do not
leave exactly one operand. `Variables` is the slot table.

**Heap.** `Heap` is the mark-sweep collector over the intrusive list and a graph that may be cyclic.
`Transparency` compares steps on stores of which one has lost garbage, and `Collection` runs with collections
and runs without. `Objects` says which objects, with their payloads and cells, are a machine state, `Tables`
loads constants, functions and code into objects, and `LiveArrays` says what marking from the machine's roots
keeps. `ObjectMachine` is the machine on these objects: its opcodes allocate with `val_new`, share objects and
write array cells in place, and `vals_gc` runs after every step. `WholeProgram` puts compiler, object machine
and collector together.

**Boundary.** `Trees`, `Serial` and `Containers` are maps, arrays and the binary form of values and programs,
`ProgramFile` the way of a compiled program through its file.
`Grammar` has the lexer and the parser the precedence table resolves to, `SourceText` what lines of source text
are read as, `Printer` the parenthesis-free printer. `Procedures` generates a block's parameter list, declarations
and body; `ControlText` and `ProcedureText` read the generated text back and say what it does.

The main results, with where they hold and fail:

- Compiled programs compute what the interpreter says, in both directions and for non-terminating runs too
  (`ResultsAgree`, `DivergenceAgrees`); the two lowerings are interchangeable (`LoweringsAgree`).
- Every reachable state's operand stack and frames are those of the static layouts (`StatesFollowLayouts`), and
  each frame's loop stack is the list of loops around its cell (`LoopStacksAreEnclosing`).
- Marking is exact, the sweep keeps exactly the marked values in order, and the heap is bounded after every
  collector call (`Mark`, `Sweep`, `Gc`).
- Collections are invisible: n steps on heap objects with `vals_gc` after each come to what n steps without
  collections come to (`Vm.Run`), each collection leaves exactly the arrays the state reaches
  (`Vm.CollectGarbage`), and so a compiled program ends on the object machine as the interpreter says
  (`CompileAndRun`).
- Arguments reach their parameters if and only if the parameter names are distinct (`CallingConvention`): a
  repeated name is not allocated again, so the parameters after it read the arguments before theirs.
- Values survive serialization if and only if the array and map operations can build them (`RoundTrip`), and a
  compiled program comes back from its file as the image it was (`LoadedBack`).
- The printer is faithful exactly on expressions without `==` (`SourceSurvives`): `==` is printed as ` = `.
- A line of operands and operators of any length is read by the rows of the precedence table (`LineReads`) and
  evaluates to the integer of that tree, or is undefined (`LineEvaluates`).
- Generated procedures are closed (`Closed`), and their text, read back, declares exactly the block's own
  variables and does what the block does (`ProcedureMeansBlock`), for blocks without `==`, and only those are
  read back as they were (`BodyReads`).

## Model

| member | source | states |
|---|---|---|
| Theorems.ProgramCorrect | sqlinked.y:245-525 | for every well-formed program, both lowerings and every fuel, running the compiled code from the start gives what the interpreter gives: the final variables and store, a halt, an undefined outcome, or still running after that many steps; what the shared value operations compute is stated by the rows of ValueLaws |
| Theorems.ResultsAgree | vm/prog.c:762-802 | both directions: the machine comes to a final result exactly when some fuel lets the interpreter come to it |
| Theorems.DivergenceAgrees | vm/prog.c:794-802 | the run loop never stops exactly when no fuel suffices |
| Theorems.NeverFaults | vm/prog.h:57 | in every run, ending or not, no operand-count or operand-type assertion fires and no unknown opcode is met; main ends with an empty operand stack, one frame, no loop |
| Theorems.LoweringsAgree | sqlinked.y:407-449 | whatever result a program reaches from a store under one lowering of `if` and `while`, it reaches under the other |
| Theorems.FuelIrrelevant | sqlinked.y:245-525 | the interpreter's result does not depend on its fuel: two evaluations that both finish come to the same result |
| WholeProgram.CompileAndRun | vm/prog.c:762-802 | source to collector: the compiler's output, loaded and run for n steps on heap objects with a collection after each, ends only with the interpreter's result (up to dropped arrays nothing refers to), goes on while the interpreter needs more fuel, and never fails an assertion |
| WholeProgram.CollectedRunsAgree | vm/prog.c:788-789 | the same for any run of a compiled program in which a collection follows every step: its next step is final only if the interpreter finishes with that much fuel, and then with its result |
| WholeProgram.InterpretedEnds | vm/prog.c:794-802 | a program the interpreter finishes has come to that result after some number of steps and stays there |
| CompilerCorrectness.ExprCorrect | sqlinked.y:280-525 | started at a node's first cell on any operand stack, callers and loop stack, the machine delivers the node's value on top of that stack, with the slots holding the new variables, or returns from the activation, halts, gets stuck or keeps running as the interpreter does, recursion included |
| CompilerCorrectness.CallCorrect | sqlinked.y:451-467 | the same for calls, of compiled functions and of natives: the caller's frame and pending operands are unchanged but for the pushed result |
| CompilerCorrectness.LoopCorrect | sqlinked.y:430-449 | the same for loops under both lowerings, by induction on fuel |
| Correctness.ArgumentsBecomeSlots | vm/prog.c:528-533 | the argument array built by CALL is the callee's frame for its parameters bound to the arguments, later locals undefined |
| Linking.CompiledIsLinked | sqlinked.y:493-505 | run-time lookup by name finds the code of the last definition of that name and nothing else |
| CodeLayouts.StatesFollowLayouts | vm/prog.c:762-792 | in every state any run reaches, the operand stack is exactly as high as the static layouts of the active cells add up to, ends with the constants they name, each frame's loop stack is exactly the loops its cell lies in, and functions run only above the first frame |
| LoopNesting.LoopStacksAreEnclosing | vm/prog.c:464-488 | in every state any run reaches, each frame's loop stack holds exactly the LOOPBEGINs of the loops around the cell the frame stands at, outermost first, so every entry is a LOOPBEGIN and the top is the innermost loop's |
| LoopNesting.OpenIsEnclosing | vm/prog.c:490-507 | in any code, the brackets still open at a cell are exactly those whose own forward scan ends at or after it |
| Layouts.StepKeeps | vm/prog.c:762-792 | one step of any opcode, including jumps, scans, calls and returns, keeps the state in step with the layouts and fails no assertion |
| CodeLayouts.NodeFlows | sqlinked.y:255-525 | every cell of a node's code has one layout that agrees with those of all cells control can go to from it, under both lowerings |
| BracketMatching.CodeBalanced | sqlinked.y:419-427 | no bracket scan that starts outside a node's code stops inside it |
| BracketMatching.CondScans | vm/prog.c:424-459 | the scan from CONDBEGIN stops exactly at its own CONDELSE and the one from CONDELSE at its own CONDEND, for arbitrary nesting |
| BracketMatching.LoopScan | vm/prog.c:490-501 | the scan from LOOPBODY stops exactly at its own LOOPEND |
| ControlFlow.RunLoopExit | vm/prog.c:472-507 | leaving a structured loop restores the frame's loop stack and pushes 0 |
| CompilerPass.Compiler.CompileExpr | sqlinked.y:245-525 | the one-pass emitter only appends, changes no earlier cell, and leaves exactly the cells of the relocatable generator at that address and the tables after the node's first uses |
| CompilerPass.Compiler.CompileIfJumps | sqlinked.y:408-418 | emitting 0 and backpatching both targets gives the generator's code |
| CompilerPass.Compiler.CompileIfBrackets | sqlinked.y:419-427 | the structured lowering gives the generator's code |
| CompilerPass.Compiler.CompileWhile | sqlinked.y:430-448 | both loop lowerings give the generator's code |
| CompilerPass.Compiler.CompileFunc | sqlinked.y:493-505 | a definition: variable table reset to the parameters, entry registered, jump over the body patched |
| CompilerPass.Compiler.CompileProgram | sqlinked.y:255-259 | the whole tree: definitions, then main statements with the table the last definition left |
| CompilerPass.CompileToImage | vm/prog.c:768-775 | decoding the emitted ints gives the image the theorems are about, and no number was refused |
| CompilerPass.Compiler.AddNum | vm/prog.c:109-114 | refuses exactly the numbers that read as opcodes, appends others |
| CompilerPass.Compiler.AddOp | vm/prog.c:102-107 | appends the cell of any entry of the opcode table, entry 0 reading as the number INT_MIN, and refuses what is beyond the table |
| CompilerPass.Compiler.SetNum | vm/prog.c:95-100 | changes one cell and no other |
| CompilerPass.Compiler.NewConstant | vm/prog.c:120-130 | an equal constant is shared, a new one appended |
| CompilerPass.Compiler.CompileRepeat | sqlinked.y:391-405 | the counted loop's code with its patched exit |
| CompilerPass.Compiler.PushOuter | sqlinked.y:913-919 | the outer variables' values and names are pushed last variable first, and the tables cover them |
| CompilerPass.Compiler.StoreOuter | sqlinked.y:968-971 | the results are stored first variable first |
| Stability.CodeStable | vm/vars.c:50-58 | growing the tables does not change code already emitted from them |
| JumpTargets.TargetsInside | sqlinked.y:407-449 | every jump of a node's code takes its target from the cell before it, and the target lies between the node's first cell and the cell just after it |
| Bytecode.DecodeEncode | vm/prog.h:54-55 | opcodes and pushed numbers never collide: every accepted cell decodes to what it was built from |
| Bytecode.OpCellIs | vm/prog.h:54-55 | every entry of the opcode table makes a C int that decodes to one instruction: entry 0 to the number INT_MIN, the others to opcodes |
| Bytecode.RawComparison | vm/prog.c:436-440 | comparing raw cells with an encoded opcode is comparing instructions |
| Bytecode.RefusedNumbers | vm/prog.c:109-111 | the refused numbers are exactly INT_MIN + 1 .. INT_MIN + 255 |
| Variables.CallingConvention | vm/vars.c:19-40 | each argument is read through the slot of its own parameter, whatever the arguments, if and only if no parameter name is repeated |
| Variables.FreshLocals | vm/prog.c:528-538 | a callee's other variables start undefined, whatever the arguments, if and only if no more arguments than parameters are passed (or it has no other variables) |
| Variables.BlockLeavesNoTrace | vm/vars.c:68-81 | entering a block, any work in it with nested blocks, and leaving it restores the table |
| Variables.DistinctSlots | vm/vars.c:8-58 | after any work different visible names have different slots |
| Variables.VarAlloc.Lookup | vm/vars.c:8-17 | the newest entry of a name, optionally of the innermost block |
| Variables.VarAlloc.GetOrAddLocal | vm/vars.c:50-58 | a visible name keeps its slot, another gets the next one |
| Variables.VarAlloc.LeaveBlock | vm/vars.c:72-81 | drops entries down to and including the newest border |
| Executor.Exec.ExecStep | vm/prog.c:762-792 | the in-place machine makes exactly the step of the step function; what that step computes is stated by the rows of Meaning |
| Executor.Exec.ExecRun | vm/prog.c:794-802 | and its loop exactly the run |
| Executor.Exec.ScanForward | vm/prog.c:490-501 | the scanning loop moves the program counter to where the scan function stops |
| Executor.Exec.OpCall | vm/prog.c:517-549 | pops name, count and arguments; enters the function or pushes the native's result |
| Executor.Exec.OpDblock | vm/custom.c:188-317 | the pop and push order around a stored procedure |
| Fragments.RepeatCorrect | sqlinked.y:391-405 | the code runs a stack-neutral body exactly n times for every n, counting down under the body's operands by 0 - (1 - n), and ends with the entry stack |
| Fragments.PopPairsPushed | vm/custom.c:195-199 | what DBLOCK pops is what was pushed, variable i first with its name |
| Fragments.BlockCorrect | sqlinked.y:912-971 | the procedure gets the outer variables' names and values in order, its columns go back into the same variables, and the operand stack is as before |
| Fragments.StoredColumns | sqlinked.y:968-971 | afterwards variable i holds column i and every other variable what it held |
| Heap.Values.New | vm/val/val.c:30-43 | a new value is linked in front; undef is shared and never listed |
| Heap.MarkVal | vm/val/val.c:348-357 | marks what is reachable through unmarked values, counts exactly what it marks, ends on cyclic graphs because the set of unmarked values shrinks |
| Heap.MarkKids | vm/val/arr.c:76-83 | marks every cell of an array, or key and value of a map |
| Heap.Values.Count | vm/val/val.c:359-366 | the walk from the head counts every listed value once |
| Heap.Values.Unmark | vm/val/val.c:368-378 | clears every mark on the list and counts those there were |
| Heap.Values.Mark | vm/val/val.c:380-396 | after unmarking, a listed value is marked exactly when it is reachable from the roots, and the result is the number of those |
| Heap.Values.SweepRest | vm/val/val.c:408-418 | unlinking behind the current value keeps exactly the marked values in order |
| Heap.Values.Sweep | vm/val/val.c:398-421 | the list becomes exactly the marked values in their order, and removed plus kept is what there was |
| Heap.Values.Gc | vm/val/val.c:423-435 | afterwards the list is shorter than the last live count plus the threshold; below the threshold nothing changes, else the list is exactly the live values and no contents change |
| Collection.CollectorIsTransparent | vm/prog.c:788-789 | a run with a collection after every step stays in step, to any length, with a run that never collects, up to dropped arrays nothing refers to |
| Transparency.StepSame | vm/prog.c:762-792 | from related states one step gives related results |
| Collection.ExactCollection | vm/val/val.c:380-421 | keeping exactly what is reachable is such a collection |
| Collection.GcCollects | vm/val/val.c:423-435 | `vals_gc`, run on the objects behind a machine state, drops exactly the arrays whose objects it unlinks, is a collection of that state, and leaves objects that represent the state left, payloads, return addresses and loop stacks included |
| Collection.KeepingCollects | vm/val/val.c:380-396 | keeping any set of objects that contains the operand stack and the frames and is closed under array cells is a collection of the state, and what is kept represents what is left of it |
| LiveArrays.LeftIsLiveOnly | vm/val/val.c:380-421 | what marking from the machine's six kinds of roots leaves of the store is exactly the arrays reachable from the operand stack and the frames by array cells |
| Objects.RepresentsOne | vm/val/val.h:36-48 | objects with their payloads and cells are one state: they determine the operand stack, the frames with return addresses and loop stacks, and the store |
| ObjectMachine.Vm.Run | vm/prog.c:794-802 | from any represented state, n steps on heap objects with `vals_gc` after each, and any number of other values made and dropped in between, come to what n steps of the step function come to without collections, up to dropped arrays nothing refers to |
| ObjectMachine.Vm.ExecStep | vm/prog.c:762-792 | one step on objects is the step function's, followed by a collection that leaves fewer values than the last live count plus the threshold |
| ObjectMachine.Vm.CollectGarbage | vm/val/val.c:423-435 | below the threshold the state is unchanged, otherwise exactly the arrays it can reach are left; the objects represent it either way |
| ObjectMachine.Vm.constructor | vm/prog.c:144-161 | a loaded program starts with objects for its constants, functions, code and one frame that represent the initial state of any store |
| ObjectMachine.Vm.OpCall | vm/prog.c:517-549 | the frame is one new array of return address, loop stack and popped arguments; it becomes the newest frame of a function found in the table, or the argument array of a native |
| ObjectMachine.Vm.OpMkArray | vm/prog.c:580-591 | a new array whose cells are the popped objects themselves |
| ObjectMachine.Vm.OpIndexAssign | vm/prog.c:602-610 | the array is changed in place, so every reference to it sees the store |
| ObjectMachine.Vm.OpSetVar | vm/prog.c:342-351 | the newest frame's array is changed in place, behind its first two cells |
| ObjectMachine.Vm.OpLoopBody | vm/prog.c:472-507 | a false condition moves the program counter by scanning raw cells and pops the loop stack in place |
| ObjectMachine.Vm.OpDblock | vm/custom.c:188-317 | names and values are popped, the procedure's columns pushed as new objects from the last to the first |
| ObjectMachine.Vm.Add | vm/val/val.c:161-195 | sums and joined strings are new values; an array on the left is copied cell by cell and extended by the other's defined cells or by one value |
| ObjectMachine.Vm.Lookup | vm/val/map.c:51-58 | the scan of the function table finds a name's entry exactly when it has one |
| Tables.MakeTables | vm/prog.c:54-62 | the tables of a loaded program hold its constants, functions and code cells, and no array a program could reach |
| Arrays.CanonicalUnique | vm/val/arr.c:42-51 | two arrays that never end in undef and read the same at every index are the same |
| Arrays.ArrSetGet | vm/val/arr.c:53-67 | a store changes one index, storing undef none; the last cell stays defined, so trimming removes nothing |
| Arrays.ArrDupIsIdentity | vm/val/arr.c:89-96 | copying cell by cell gives the same array, holes included |
| Arrays.ArrAddIsConcat | vm/val/arr.c:98-102 | concatenation is the first array followed by the second's defined cells in order |
| Containers.Arr.Set | vm/val/arr.c:53-67 | the loop that grows and the trim, in place |
| Containers.Arr.AddAll | vm/val/arr.c:98-102 | in-place concatenation |
| Trees.Dictionary | vm/val/map.c:23-58 | after any store on any map, reading a key gives the stored value if the keys compare equal and what it gave before otherwise |
| Trees.MapSetOk | vm/val/map.c:23-49 | stores keep keys distinct and undef at most in the last position |
| Trees.RebuiltExactly | vm/val/map.c:88-95 | re-inserting entries in order reproduces them if and only if they satisfy that invariant |
| Containers.Map.Set | vm/val/map.c:23-49 | the scan with slot reuse, in place, read back at every key |
| Serial.RoundTrip | vm/val/val.c:74-87 | a value comes back equal, with any bytes after it untouched, if and only if it is one the array and map operations can build |
| Serial.ProgRoundTrip | vm/prog.c:731-758 | a program file gives back constants, functions and code if and only if the three are such values |
| Serial.CompiledRoundTrip | vm/prog.c:731-758 | every compiled program does |
| ProgramFile.LoadedBack | vm/prog.c:731-758 | the file of a compiled program, read back and loaded, is the image it was compiled to: same code, constants and function table |
| ProgramFile.CompileWriteLoad | vm/prog.c:731-758 | compiling, writing, reading and loading gives the image the theorems about compiled programs are about |
| Serial.LastDefinitionWins | vm/prog.c:140-142 | looking a function up in the table finds its last registration |
| Serial.TypeTag | vm/val/val.h:18-27 | every value begins with its type as the enumeration numbers it |
| Serial.BytePlaces | vm/val/val.c:63-72 | the byte at place k of a number counts 256^k, the last one signed |
| ProgramFile.KeysCompare | vm/val/map.c:51-58 | map keys are the same exactly when comparing them as values gives 0 |
| Serial.IntRoundTrip | vm/val/val.c:63-72 | ints of either sign survive their four bytes |
| Serial.File.Serialize | vm/val/val.c:74-79 | the writer's loops append the value's bytes |
| Serial.File.Deserialize | vm/val/val.c:81-87 | the reader's loops consume what the reading function does, and fail where it fails |
| ValueLaws.SumIsCounting | vm/val/val.c:161-175 | adding is counting up or down by one, as often as the second number says; 0 is neutral; undefined exactly when counting leaves the C ints |
| ValueLaws.DifferenceAddsBack | vm/val/val.c:200-207 | a difference is defined exactly when it is a C int, and adding back what was subtracted gives the first operand |
| ValueLaws.OppositeCancels | vm/val/val.c:300-303 | a number and its negation add to 0; only INT_MIN has none |
| ValueLaws.ProductSteps | vm/val/val.c:241-245 | a product is a repeated sum, in both directions from 0, defined exactly when it is a C int |
| ValueLaws.QuotientLeaves | vm/val/val.c:265-273 | the first operand is divided by the second: the rest is smaller than the divisor and has the dividend's sign; undefined exactly for divisor 0 and for INT_MIN by -1 |
| ValueLaws.ConcatIs | vm/val/val.c:165-170 | joined strings have the first's characters, then the second's |
| ValueLaws.CopiesStep | vm/val/val.c:227-235 | a string times n is n copies joined |
| ValueLaws.StringElements | vm/val/str.c:74-85 | the one-character results at 0 .. length - 1, one after the other, are the string; beyond it the result is empty |
| ValueLaws.JoinSeparates | vm/val/val.c:247-257 | an array times a string: for any split of the cells in two, the joined parts with the string between them |
| ValueLaws.JoinFew | vm/val/str.c:154-175 | the text of a single cell: a string itself, a number's decimal digits behind any minus sign, else N/A |
| ValueLaws.ComparisonsAre | vm/prog.c:236-261 | less, equal and not equal on numbers are those of the integers; on strings, less is being a proper prefix or having the smaller character at the first difference |
| ValueLaws.Incomparable | vm/val/val.c:104-114 | values of different types, arrays and undef are less than and unequal to each other in both directions |
| ValueLaws.Trichotomy | vm/val/val.c:104-114 | of comparable values exactly one of less, equal and greater holds, and unequal is the opposite of equal |
| ValueLaws.ArrayElements | vm/prog.c:580-600 | a new array, indexed at k, gives its k-th element from 0 on, undef beyond; no other array changes |
| ValueLaws.StoredElement | vm/prog.c:602-610 | after a store, indexing gives the stored value at that index of that array and what it gave before everywhere else; storing undef changes nothing; the result is the value |
| ValueLaws.IndexReads | vm/val/val.c:124-130 | indexing changes nothing; only arrays and strings have elements, only at numbers, and a negative index is undefined |
| ValueLaws.ArraySum | vm/val/val.c:185-192 | adding to an array makes a new one: the old elements, then another array's defined ones or the value itself; the operands stay as they were |
| ValueLaws.TruthIs | vm/val/val.c:116-121 | false are exactly undef, 0, the empty string and an array that shows only undef |
| ValueLaws.OperationsTrim | vm/val/arr.c:42-51 | no operation leaves an array that ends in undef |
| ValueLaws.UndefExactly | vm/val/val.c:161-283 | a binary operation gives undef exactly on operand types it has no meaning for, and only sums with an array on the left change the store |
| Meaning.EvalIsIntOf | sqlinked.y:287-364 | an expression of numbers, variables holding numbers, operators and minus signs evaluates to the mathematical integer it stands for, or is undefined if some step is no C int or divides by 0 |
| Meaning.LineEvaluates | sqlinked.y:61-90 | the same from source text: a line of operands and operators of any length |
| Meaning.OpcodeSteps | vm/prog.c:169-261 | one step of each arithmetic and comparison opcode: the number on top is the left operand, both are replaced by the result |
| Meaning.MakeArraySteps | vm/prog.c:580-591 | one step of MKARRAY: the pushed values are the elements, the first from the top at 0 |
| Meaning.IndexSteps | vm/prog.c:593-600 | one step of INDEX1: array on top, index below, replaced by the element |
| Meaning.IndexAssignSteps | vm/prog.c:602-610 | one step of INDEXAS: array, index and value popped, one element changed, the value pushed |
| SourceText.LineReads | sqlinked.y:61-90 | a line of operands and operators of any length is read as the tree whose top is the last of its loosest operators, by the rows `== !=`, `<`, `+ -`, `* /`, and so on down both sides |
| SourceText.ThreeOperands | sqlinked.y:63-66 | a op1 b op2 c is right-nested exactly when op2 is in a later row than op1, left-nested otherwise |
| SourceText.MinusReads | sqlinked.y:84 | - a op b is (-a) op b |
| SourceText.AssignmentReads | sqlinked.y:90 | x = line is x = (line) |
| SourceText.LexWord | sqlinked.l:10-36 | a lower-case word is a keyword if it is one of the seven, an identifier otherwise |
| SourceText.LexString | sqlinked.l:37 | a string is what stands between its quotes |
| SourceText.LexComment | sqlinked.l:38-39 | a comment reaches to the end of its line |
| Grammar.ParseInverse | sqlinked.y:61-90 | the precedence-resolved parser returns a tree if and only if the tree is canonical under the table and its tokens are the tokens read; which table is stated by SourceText.LineReads |
| Printer.PrintedReadsBack | sqlinked.y:706-835 | parenthesis-free text read back under the table is the same tree if and only if the tree is canonical and has no `==` |
| Printer.SourceSurvives | sqlinked.y:706-835 | any expression parsed from source text that the printer takes (it stops at `!=`) survives being printed if and only if it does not use `==` |
| Printer.EqualIsPrintedAsAssignment | sqlinked.y:793-801 | `a == b` comes back as an assignment |
| Printer.PrintedNames | sqlinked.y:612-889 | the names in the generated text are the tree's variables in order |
| Printer.DecimalDigits | sqlinked.y:637-641 | a printed number is digits without a leading zero that read as the number |
| Grammar.LexNames | sqlinked.l:17-39 | every identifier the lexer reports is a lower-case name that is no keyword |
| Procedures.Closed | sqlinked.y:553-607 | parameter and declaration lists have no duplicates and nothing in common, together are exactly the block's identifiers that resolve afterwards, declarations are exactly the names the block added, and every name in the body is in one of them, as is every name in the whole assembled text but the word `int` |
| Procedures.PickedInOrder | sqlinked.y:572-607 | both lists are in the order of first occurrence in the block |
| Procedures.ProcedureNames | sqlinked.y:925-961 | the names in the whole text are, in order, each declared name with `int`, then the body's |
| ProcedureText.ProcedureReads | sqlinked.y:925-961 | reading a procedure line by line gives back exactly its declarations, in order and with their type, and exactly its body, whatever the body |
| ControlText.BodyReads | sqlinked.y:859-896 | a reader that knows only IF, ELSE, LOOP, EXIT WHEN NOT and expressions reads the printed statements back as the block's own commands if and only if the block has no `==` |
| ControlText.TextMeansBlock | sqlinked.y:859-896 | and running those commands, EXIT leaving the innermost LOOP, does to variables and store what the block's statements do, for any number of iterations |
| ProcedureText.ProcedureMeansBlock | sqlinked.y:907-961 | the whole generated text: declarations exactly the block's own variables, body with the block's meaning |
| Procedures.Block.IdentifyExt | sqlinked.y:575-590 | the recursive walk with linear search collects the resolving names in order of first occurrence |
| Procedures.Block.IdentifyInt | sqlinked.y:592-607 | the same after generation, leaving out parameters |
| Procedures.Block.Create | sqlinked.y:612-896 | the buffers grown in place hold the printed text, and the names printed have slots |
| Procedures.Block.DblockParse | sqlinked.y:907-972 | the whole block: its code is the block code for exactly those parameters, that name and the text of exactly those declarations and the printed body (ProcedureText.ProcedureReads reads both back), and the table gains exactly the names the text mentions; the code is as Fragments.BlockCorrect asks |
| Variables.BlockFreeTable | vm/vars.c:19-58 | without blocks the table is a list of distinct names whose positions are the slots, and both ways of adding append a name unless it is there |
| Values.TruncDivIs | vm/val/val.c:265-273 | the quotient is the exact one rounded toward zero |
| Values.StrCmpZero | vm/val/str.c:65-72 | comparison is 0 exactly on equal strings and antisymmetric |

The comment above `op_dblock` (vm/custom.c:179-187) lists one stack entry for each variable; the code pops a
name and a value for each, and the model follows the code. `vals_gc` marks and sweeps inside the arguments of
its debug messages; they are evaluated whatever the debug level, and the model does the same.

## Left out

- Theorems.ProgramCorrect: does not cover the statement forms `hello` and `repeat` (no operand left), plain and database blocks (two left), `return` outside a function or under pending operands, and definitions that are nested or come after main statements; calls of compiled functions pass at most as many arguments as there are parameters, and parameter names are distinct.
- CompilerPass.Compiler.CompileExpr: assumes that code, tables and literals fit in C ints; the type annotations `dt` and `sdt`, whose check only rejects programs at compile time, are not modelled.
- Executor.Exec.ExecRun: takes the number of steps to make, because the C loop need not end.
- CompilerPass.Compiler.SetNum: only addresses inside the code, the only ones the compiler patches; past the end `arr_set` would grow the code with undef cells.
- CompilerPass.Compiler.NewConstant: string constants, the only ones the compiler makes without reals.
- Variables.VarAlloc.GetOrAddLocal: the lookup in the globals between the two steps finds nothing, because no compiled program allocates a global.
- Collection.CollectorIsTransparent: is about the states of the step function, in which only arrays have addresses; ObjectMachine.Vm.Run is the run of `vals_gc` itself, over all objects.
- Collection.ExactCollection: is about the store as a map; LiveArrays.LeftIsLiveOnly ties it to the marking.
- ObjectMachine.Vm.Run: takes the number of steps. Natives are functions of the store that see only what their arguments lead to and free nothing, and their effect on the store is written back into the objects; procedures return numbers and strings. The strings `getvar` and `setvar` make for debug messages whatever the level, and those a joined array's cells are converted to, are any number of strings per step; printing an array that contains itself, which does not end in C, is not modelled.
- ObjectMachine.Vm.OpLoopBody: the scan keeps its position in a local variable; Executor.Exec.ScanForward moves the program counter cell by cell.
- Fragments.BlockCorrect: the procedure is any function from names, values and the outside world to as many columns as variables; what PostgreSQL returns for a block without outer variables is not modelled.
- Serial.RoundTrip: reals are not modelled, and reading one is a failure here; sharing and cycles are outside the finite trees it is about.
- Serial.File.Serialize: reals are not written.
- Serial.File.Deserialize: reals are not read.
- ProgramFile.LoadedBack: for constants and names whose characters are bytes, as they are in C.
- Grammar.ParseInverse: numbers, variables, binary operators, unary minus and assignment to a variable.
- Printer.PrintedReadsBack: the same expressions.
- Printer.PrintedNames: numeric variables; strings, calls, cursors and records are not printed here.
- ControlText.BodyReads: the same expressions, with `if`, `while` and lists of statements in statement position; conditions of unknown type, printed with IS NOT NULL, are not read.
- ControlText.TextMeansBlock: the commands evaluate expressions, right to left, and test conditions as the source language does; how PostgreSQL does is not modelled.
- SourceText.LineReads: parentheses are no part of the language; calls, strings, indexing and `++` as operands are not parsed here.
- ValueLaws.TruthIs: for an array whose last cell is defined, as every operation leaves it (ValueLaws.OperationsTrim).
- ValueLaws.ArraySum: the same arrays.
- Procedures.Block.Create: the branches for strings, calls, cursors, records and unknown types are left out.
- Printer.SourceSurvives: expressions of numbers, variables, the binary operators, unary minus and assignment to a variable; calls, strings, cursors, records, indexing and `++` are not parsed here.
- Procedures.Closed: the body's text is covered for numeric variables (numbers, variables, operators, assignment, `if`, `while`); the identifier walks cover every node. A declared variable whose type is never found stops the C generator; here all are numeric.
- Procedures.Block.DblockParse: the block's name is given, not numbered, and every declaration is `int`.
- Reals and refs, with their inverted truth value and missing registration.
- Strings are sequences of characters with plain order; reads past the shorter string in `str_cmp` and string index assignment (an undefined outcome here) are not modelled byte by byte.
- Global variables, which no compiled program allocates, and the opcodes the compiler never emits; meeting one is the result `Outside`.
- Maps as run-time values of programs: no statement builds one; they appear as function tables and in files. Reclaimed memory: a value that is swept is unlinked, and nothing reached from the machine leads to it.
- Connecting to the database, SQL execution, notices, timings around blocks, console natives, printing of values, graph output and the command line.
- Compile-time memory: reallocation and freeing of buffers, and the 100- and 1000-byte name buffers of the generator.
