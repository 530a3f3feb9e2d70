# Script engine proofs

A model in Dafny of the script engine: the one-pass compiler that turns script functions into chunks of
bytecode, the stack machine that runs them, the linker and the index of functions around them, and the
list of effects of an object, with proofs of what they keep and what they mean.

`dafny verify dfyconfig.toml` checks everything.

## How the parts fit

- **Programs and chunks.** `bytecode.dfy` has values, memory with references, chunks and what one chunk
  does inside one call. `source.dfy` has programs as trees and an evaluator for them: literals, variables,
  operators, assignment, short-circuit operators, calls, `if`, `while`, `for`, `for ... in`, `break`,
  `continue`, `return`. Operators, conversions and called functions are arbitrary functions of strictness, values
  and memory; every result holds for all of them.
- **Meaning.** `compile.dfy` gives the code of a tree when stack chunks are never joined;
  `simulate.dfy`, `simulate_stmt.dfy`, `fold.dfy` and `meaning.dfy` prove that it does what the evaluator
  says; `variables.dfy` says without either what variables, assignments, conditions and operators do. `peephole.dfy` proves that joining stack chunks changes nothing, unless a join reaches across a
  jump target.
- **The compiler.** `emitter.dfy` is the compiler as a trace: beside the code, the jump flag and the stack
  count it records the chunks asked for and where they went. `emitter_plain.dfy` and `emitter_stmt.dfy`
  prove that they are the unjoined code, `emitter_joined.dfy`, `emitter_calm.dfy` and
  `emitter_calm_stmt.dfy` that the code is their joined form. `compiled.dfy` puts this together,
  `compiled_limits.dfy` has the programs for which it fails, and `crossing.dfy` tells from the text which
  these can be. `function_end.dfy` is about the final return, `moments.dfy` about every moment of writing,
  `led_out.dfy` about the jumps that are led to the error chunk when the parser has stopped.
  `compiler.dfy` is the compiler with its fields, changed step by step, proved against the trace.
  `heights.dfy` is about the stack count.
- **The machine.** `machine.dfy` is the whole engine with one value stack and one context stack: script
  functions call each other and built-in functions, which run script functions again. Built-in functions
  are arbitrary plans of writes and runs. `machine_safe.dfy` has the invariant of every step,
  `machine_frames.dfy` what it means for calls and for runs from outside, `machine_parsed.dfy` that all the
  parser leaves meets it, functions with errors included; `engine_facts.dfy` tells single steps.
  `exec.dfy` is the engine on arrays.
- **Whole programs.** `engine_runs.dfy` is the way from one function to the engine. `programs.dfy` says what
  calls mean by evaluating the bodies of the functions called; `relocate.dfy` has that a call does the same
  wherever on the stack it is made; `program_runs.dfy` proves that the engine runs whole programs as the
  evaluator says. `program_names.dfy` tells from the text what is supposed of functions,
  `program_example.dfy` has a program that meets all of it. `text.dfy` begins with text.
- **Text.** `grammar.dfy` is the operator table, the parser and a printer, `priorities.dfy` how operators group;
  `access.dfy` is the way back over written code that turns references into values, `clear_text.dfy` tells
  from the text where it is found, and `access_written.dfy` that the code is that of `emitter.dfy`.
- **Linking.** `funcmap.dfy` is the index of functions, `includes.dfy` the resolution of includes,
  `rings.dfy` the rings of functions of the same name.
- **Effects.** `effects.dfy`; `sweep.dfy` is about what a sweep and a new effect do.

Where the source breaks the obvious statement, the model keeps what the source does, and the condition
under which the statement holds is part of it:

- A join that removes an empty stack chunk forgets that the place is a jump target.
  `CrossingText.CrossesFromText` tells from the text whether that happens in a function;
  `Compiled.CalmNeverCrosses` proves that it takes a call of a function that does not exist.
- The minus sign is folded into the last chunk even if that is only the end of the operand:
  `Folding.FoldedMeaning` has the exact condition.
- The final return is left out where the code ends with a return chunk and the jump flag is not set, also
  if the flag was lost: `FunctionEnd.EndMarkFromText`, `CompiledLimits.EndlessMissesReturn`.
- An error leads the jumps with offset 0 to the error chunk, filled in or not: `LedOut.LedOutExactly` tells
  from the text where that leads a finished loop out of itself.
- Going back over code gets stuck at nil, at short-circuit operators and at parameters that are dropped,
  and goes too far where nulls for two takers are pushed at once: `Access.SkipExact`, `Access.SetNoRefExact`.
  `ClearText.PlainUndone` tells from the text where none of this can happen.
- A script that is handed to itself never comes to the end of its list: `Includes.HangsExactly`.
- An overflow while a run from outside is set up goes to the caller even if errors are not to be passed
  on: `MachineFrames.RunBegins`.
- The parameter of the index's insertion is named for the start of the chain and given "at end of the
  list"; the chains therefore run in the reverse of the lists, which is what the look-up relies on.

## Model

| member | source | states |
|---|---|---|
| ExprCorrect.RunE | src/C4AulParse.cpp:2693-3051 | the unjoined chunks of any expression, run from any place in any code, memory and stack, leave exactly the value (or reference, or error) and memory that the evaluator gives, on top of an untouched stack |
| StmtCorrect.RunS | src/C4AulParse.cpp:1907-2253 | the unjoined chunks of any statement come to where the evaluator comes: the end, the target of a `break` or `continue`, a return value, an error; while the evaluator is still busy after `fuel` rounds, the run is still going on after `fuel` steps |
| Variables.JumpDecides | src/C4AulExec.cpp:982-1039 | for each kind of jump and whatever value is on top, directly or through references: whether it is taken, and what stays on the stack; nil, 0 and false are false, all else is true |
| Variables.ConditionDecides | src/C4AulParse.cpp:2502-2534 | the evaluator of `if`, `else` and `while` decides by the same values |
| Variables.ShortDecides | src/C4AulParse.cpp:2994-3019 | so do `&&` and `or`, from strict 2 on, and `??`, which asks for nil only |
| Variables.VariablesApart | src/C4AulExec.cpp:394-436 | what is written through the reference one variable's chunk gives is read by that variable's chunk, and by that of no parameter, variable, local or global of another kind or number |
| Variables.NoLocals | src/C4AulExec.cpp:406-409 | without an object, reading a local or referring to it is an error |
| Variables.SetDoes | src/C4AulExec.cpp:846-853 | `=` changes the slot in which the references of its left side end, and no other; below strict 3 what is false becomes nil; the left side stays as a reference to it |
| Variables.SetFails | src/C4AulExec.cpp:846-853 | what is no reference cannot be assigned to |
| Variables.AssignmentDoes | src/C4AulExec.cpp:846-853 | for every variable `x` and every right side that has a value, `x = e` succeeds, leaves the reference to `x`, `x` has the value afterwards, and nothing else has changed since `e` was evaluated |
| Variables.ArrayHolds | src/C4AulExec.cpp:854-872 | an array has the values its elements lead to, in their order |
| Variables.ReturnHolds | src/C4AulExec.cpp:1041-1046 | a returned value is no reference, unless the function is declared to return one |
| Variables.NumbersWrap | src/C4AulExec.cpp:456-459 | numbers keep 32 bits; the minus sign leaves only the smallest one as it is |
| Variables.AssigningWritten | src/C4AulParse.cpp:464-478 | the twelve compound operators and `=` are written as their own chunk behind a reference to the left side and the value of the right one |
| Variables.ComputingWritten | src/C4AulParse.cpp:440-463 | the operators that compute are written as their own chunk behind two values |
| Variables.EqualityWritten | src/C4AulParse.cpp:3040-3047 | `==` and `!=` have chunks of their own below strict 2 |
| Variables.LogicWritten | src/C4AulParse.cpp:2994-3019 | `&&` and `or` are operators below strict 2 and jumps over the right side from then on; `??` always is a jump, and `??=` jumps over right side and assignment |
| Variables.OneOperandWritten | src/C4AulParse.cpp:424-436 | increment and decrement keep the reference of their operand, the other prefix operators take its value, plus is nothing |
| Variables.CallsWritten | src/C4AulParse.cpp:2768-2825 | missing parameters are pushed as nulls, extra ones dropped, a place for the result is pushed before a global call, and `->~` is the call that may find nobody |
| Folding.FoldCode | src/C4AulParse.cpp:2909-2914 | compiling with the minus sign folded into the last chunk gives the code of another, explicitly given expression |
| Folding.FoldedMeaning | src/C4AulParse.cpp:2909-2914 | folding a minus sign into the number an operand ends in keeps the meaning exactly when evaluation gets to that number, or ends early with a value that negating does not change |
| Folding.FoldChangesMeaning | src/C4AulParse.cpp:2909-2914 | minus before the parenthesised short-circuit "or" of 3 and 5 is compiled to code with value 3 instead of -3 |
| Folding.FoldKeepsMeaning | src/C4AulParse.cpp:2909-2914 | expressions whose minus signs stand before plain numbers, or before operands that do not end in one, keep their meaning |
| Meaning.CallMeaning | src/C4AulParse.cpp:1850-1888 | for every function body, memory and meaning of operators and calls, the unjoined code stops with an outcome if and only if the evaluator comes to it, so endless runs correspond too; a body that ends without a final return runs into the end mark |
| Meaning.CallMeaningClean | src/C4AulParse.cpp:1850-1888 | the same without mention of folding, for bodies whose minus signs stand before plain numbers |
| Peephole.RunStacks | src/C4AulExec.cpp:975-980 | any run of stack chunks does what its joint effect says, and fails exactly if the joint effect pops too much |
| Peephole.Forward | src/C4AulParse.cpp:1109-1127 | whatever unjoined code comes to, the joined code comes to |
| Peephole.SameBehaviour | src/C4AulParse.cpp:1102-1133 | code with neighbouring stack chunks joined and jumps renumbered stops with an outcome if and only if the unjoined code does, if no join reached across a jump target |
| EmitterPlain.GenEWrites | src/C4AulParse.cpp:2693-3051 | writing an expression chunk by chunk, with jumps filled in later and the last chunk changed from reference to value, asks for exactly its unjoined code and raises the stack count by one |
| EmitterStmt.GenSWrites | src/C4AulParse.cpp:2467-2691 | writing a statement asks for exactly its unjoined code, leaves the stack count as it was, and leaves as waiting jumps exactly its `break`s and `continue`s |
| EmitterStmt.PatchedCode | src/C4AulParse.cpp:2493-2499 | filling in the waiting jumps of a loop body gives the code with those targets and changes no other chunk |
| EmitterJoined.PutSound | src/C4AulParse.cpp:1102-1133 | adding one chunk, joined or not, keeps the code a joined form of the chunks asked for |
| EmitterJoined.RedirectSound | src/C4AulParse.cpp:1272-1290 | so does filling in a jump |
| EmitterCalm.GenEGood | src/C4AulParse.cpp:2693-3051 | so does any expression; and unless it calls a function that does not exist, no join reaches across a jump target |
| EmitterCalmStmt.GenSSafe | src/C4AulParse.cpp:1907-2253 | so does any statement, and then the code between statements never ends by pushing nulls |
| Compiled.FunctionWritten | src/C4AulParse.cpp:1850-1888 | the chunks asked for are the function's code with a return added where the compiler saw the need, and the stack count ends at 0 |
| Compiled.CompiledMeaning | src/C4AulParse.cpp:1850-1888 | the finished code of every function stops with an outcome if and only if the evaluator comes to it, if no join reached across a jump target |
| Compiled.CalmNeverCrosses | src/C4AulParse.cpp:1119-1125 | only calls of functions that do not exist can make a join reach across a jump target, in any strictness |
| CrossingText.CrossesFromText | src/C4AulParse.cpp:1109-1127 | whether a join reaches across a jump target can be told from the text, expression by expression, for every function and strictness: exactly if in one of its expressions the stack chunks behind a jump target come to nothing and the next stack chunk is joined to one before it |
| CrossingText.MeaningFromText | src/C4AulParse.cpp:1850-1888 | so for every text in which that does not happen, the finished code stops with an outcome if and only if the evaluator comes to it, with the final return as the text says |
| Compiled.CleanFaithful | src/C4AulParse.cpp:1850-1888 | without such calls and with minus signs only before plain numbers the finished code does what the program says |
| Compiled.ControlStaysInside | src/C4AulParse.cpp:1272-1295 | no run of a finished function leaves its code |
| FunctionEnd.EndMarkReached | src/C4AulParse.cpp:1863-1867 | a call comes to the end mark of its function if and only if no final return was added and the evaluator ends the body normally; with the same memory |
| FunctionEnd.FinalReturnFromText | src/C4AulParse.cpp:1863-1867 | in every strictness, whether the final return is left out can be told from the text: it ends with a return, apart from statements that only push and drop nulls, which also make the compiler forget that a jump leads there |
| FunctionEnd.EndMarkFromText | src/C4AulParse.cpp:1863-1888 | so whether a call comes to the end mark is a matter of text and evaluator alone |
| Compiled.ModernFunctionsReturn | src/C4AulParse.cpp:1863-1867 | from strict 3 on, a function that calls no missing function never comes to its end mark |
| Moments.ErrorStaysInside | src/C4AulParse.cpp:3554-3569 | at whatever moment of writing a function the parser stops with an error, the code written so far, with its open jumps led to the error chunk, keeps control inside and before the end mark, in functions in which no join reaches across a jump target |
| Moments.ErrorLoose | src/C4AulParse.cpp:3554-3569 | and that code takes no more values than it has pushed: every chunk finds the height counted for it, and every jump arrives with the height of its target, or at the error chunk |
| Moments.BetweenE | src/C4AulParse.cpp:2693-3051 | at every moment of writing an expression the code is a joined form of the chunks asked for, every chunk asked for before stays where it is, and a join across a jump target is not undone |
| Moments.BetweenS | src/C4AulParse.cpp:1907-2253 | the same for statements, through loops whose jumps are still open |
| LedOut.LedOutExactly | src/C4AulParse.cpp:3554-3563 | at every moment of writing a function the patch after an error changes open jumps only, if and only if the text has no `for` without condition, and with at most nulls in its increment, whose body writes nothing, or writes nothing before a `continue`: such a loop is led out of itself |
| Compiled.PatchAfterError | src/C4AulParse.cpp:3556-3562 | the loop that leads open jumps to the error chunk changes those jumps and nothing else |
| CompiledLimits.CrossingIsWritten | src/C4AulParse.cpp:1119-1125 | in strict 2, `f(a && 0, 0->~NoSuchFunction())` is compiled with two nulls joined across the target of `&&` |
| CompiledLimits.CrossingChangesMeaning | src/C4AulParse.cpp:1119-1125 | with nil for `a` that code finds one value too few, though the program means a call with two nils |
| CompiledLimits.EndlessIsWritten | src/C4AulParse.cpp:1863-1867 | in strict 2, `if (a) return 1; 0;` gets no final return |
| CompiledLimits.EndlessMissesReturn | src/C4AulParse.cpp:1863-1867 | called with nil it runs into its end mark |
| CompilerState.Compiler.AddBCC | src/C4AulParse.cpp:977-1134 | buffer, jump flag and stack count after a chunk are those of the trace: literal 0 becomes a null below strict 3, stack chunks are joined, empty ones removed |
| CompilerState.Compiler.SetNoRef | src/C4AulParse.cpp:1228-1255 | the last chunk leaves a value instead of a reference (chains of accesses: `Access.Chunks.NoRef`) |
| CompilerState.Compiler.JumpHere | src/C4AulParse.cpp:1257-1262 | the next chunk is kept apart from those before |
| CompilerState.Compiler.SetJumpHere | src/C4AulParse.cpp:1272-1281 | the jump at a place leads to the end of the code, which becomes a jump target |
| CompilerState.Compiler.SetJump | src/C4AulParse.cpp:1283-1290 | the jump at a place leads to another place |
| CompilerState.Compiler.AddJump | src/C4AulParse.cpp:1292-1295 | a jump back |
| CompilerState.Compiler.PushLoop | src/C4AulParse.cpp:1297-1305 | a new innermost loop remembers the stack count |
| CompilerState.Compiler.AddLoopControl | src/C4AulParse.cpp:1325-1333 | a `break` or `continue` belongs to the innermost loop, newest first |
| CompilerState.Compiler.PopLoop | src/C4AulParse.cpp:2486-2500 | the jump back, the exit and all controls of the innermost loop lead where they should |
| CompilerState.Compiler.SetControls | src/C4AulParse.cpp:2493-2499 | breaks lead behind the loop, continues to where its rounds end |
| CompilerState.Compiler.ParseExpression | src/C4AulParse.cpp:2693-2957 | the buffer after an expression is the trace's |
| CompilerState.Compiler.ParsePrefix | src/C4AulParse.cpp:2893-2923 | prefix operators: plus is dropped, minus folded into a number, references kept where the operator changes its operand |
| CompilerState.Compiler.ParseShort | src/C4AulParse.cpp:2994-3019 | short-circuit operators jump over their second operand |
| CompilerState.Compiler.ParseNilAssign | src/C4AulParse.cpp:2994-3019 | `??=` jumps over second operand and assignment |
| CompilerState.Compiler.ParseBinary | src/C4AulParse.cpp:3021-3050 | other operators: both operands, then the chunk |
| CompilerState.Compiler.ParseArgs | src/C4AulParse.cpp:2255-2331 | parameters one after the other, as references only where the function takes them |
| CompilerState.Compiler.ParseParams | src/C4AulParse.cpp:2332-2337 | parameters are brought to the number the function takes |
| CompilerState.Compiler.ParseCall | src/C4AulParse.cpp:2768-2825 | calls of functions, of the overloaded function, of none |
| CompilerState.Compiler.ParseMethod | src/C4AulParse.cpp:3144-3235 | calls with a target |
| CompilerState.Compiler.ParseStatement | src/C4AulParse.cpp:1907-2253 | the buffer after a statement is the trace's; its open controls have joined those of the loop around it; the stack count is as before |
| CompilerState.Compiler.ParseControl | src/C4AulParse.cpp:2085-2123 | `break` and `continue`: at a statement the stack is never higher than the loop's, so nothing has to be popped |
| CompilerState.Compiler.ParseIf | src/C4AulParse.cpp:2502-2534 | `if` |
| CompilerState.Compiler.ParseIfElse | src/C4AulParse.cpp:2502-2534 | `if` and `else` |
| CompilerState.Compiler.ParseWhile | src/C4AulParse.cpp:2467-2500 | `while` |
| CompilerState.Compiler.ParseFor | src/C4AulParse.cpp:2536-2611 | `for` |
| CompilerState.Compiler.ParseRounds | src/C4AulParse.cpp:2549-2611 | its condition, increment and body, each of the first two possibly missing |
| CompilerState.Compiler.ParseForEach | src/C4AulParse.cpp:2613-2691 | `for (var x in array)` |
| CompilerState.Compiler.ParseFunction | src/C4AulParse.cpp:1850-1888 | a whole function with its final return and end mark |
| CompilerState.CompileFunction | src/C4AulParse.cpp:1391-1418 | what the imperative compiler returns does what the program says, under the conditions of `Compiled.CleanFaithful` |
| Heights.ExprEven | src/C4AulParse.cpp:979-1100 | in the code of an expression every chunk finds what it takes, every jump arrives with the height counted at its target, and the height grows by one |
| Heights.StmtEven | src/C4AulParse.cpp:979-1100 | the same for statements, with `break` and `continue` arriving at the height of the loop |
| Moments.HeightAtEveryChunk | src/C4AulParse.cpp:979-1100 | the number the compiler has counted when it asks for a chunk is the height of the stack whenever a run comes to the place of that chunk |
| Heights.JoinedEven | src/C4AulParse.cpp:1109-1127 | joining stack chunks keeps all this |
| Heights.StepCounted | src/C4AulExec.cpp:354-1304 | one step of any chunk keeps the counted height, on every way a jump can go |
| Heights.StepLevel | src/C4AulExec.cpp:354-1304 | the same for the code of a function with an error, up to the error chunk, which is reached with what has been pushed |
| Heights.CompiledEven | src/C4AulParse.cpp:979-1100 | the finished code of every function has the property, if no join reached across a jump target |
| Heights.HeightsKept | src/C4AulParse.cpp:979-1100 | in every run of every such function, whenever a chunk is reached the stack has the height counted for it and holds what the chunk takes |
| MachineSafe.CallKeeps | src/C4AulExec.cpp:1405-1511 | a call, of a script or built-in function, keeps the order of both stacks |
| MachineSafe.LeaveKeeps | src/C4AulExec.cpp:1041-1081 | so does a return, which never fails |
| MachineSafe.ErrorKeeps | src/C4AulExec.cpp:1306-1331 | so does an error, passed on or stopped |
| MachineSafe.StepKeeps | src/C4AulExec.cpp:318-1330 | so does every step of the engine, in functions with errors too, through any nesting of script calls, built-in functions and runs from outside |
| MachineFrames.CallHandsOver | src/C4AulExec.cpp:1429-1455 | a script function that is entered finds its converted parameters where its frame says, everything below as it was, and its variables nil |
| MachineFrames.CallFramed | src/C4AulExec.cpp:1041-1103 | when a called script function returns, however deeply it called, its caller is current again behind the call chunk, with the height counted there and the returned value in the call's slot; otherwise an error has ended the run the caller belongs to |
| MachineFrames.RunBegins | src/C4AulExec.cpp:318-352 | exactly when a run from outside gets under way; otherwise its overflow error goes to the caller although errors were not to be passed on |
| MachineFrames.RunIsNeutral | src/C4AulExec.cpp:1306-1331 | a run from outside whose errors are not passed on ends with both stacks as they were, by return or by an error at any depth, also one passed up through nested runs |
| MachineFrames.EngineIsSafe | src/C4AulExec.cpp:130-251 | whatever scripts with or without errors and built-in functions there are, in every reachable state the bounds of 1024 values and 512 calls hold, and the topmost call holds what its next chunk takes, with exactly the height counted for it except at an error chunk |
| EngineFacts.RoomForValues | src/C4AulExec.cpp:194-198 | there is room for 1024 values and no more |
| EngineFacts.SlotsOfCall | src/C4AulExec.cpp:394-436 | in a running call, parameters and variables are the slots of its own frame, and locals are there if the call has an object |
| EngineFacts.DirectCall | src/C4AulExec.cpp:1405-1511 | a direct call whose parameters could be converted enters the function exactly if there is room for its variables and fewer than 512 calls are running; it gets the converted parameters, nil variables and the object of its caller |
| EngineFacts.ObjectCall | src/C4AulExec.cpp:1204-1294 | a call with a target enters the function that is found, with the object it is found for, gives nil where nobody need be found, and raises the error otherwise |
| EngineFacts.NativeCall | src/C4AulExec.cpp:1494-1510 | a built-in function gets the converted parameters |
| EngineFacts.NativeEnds | src/C4AulExec.cpp:1494-1510 | its result takes the place of the parameters and the script goes on behind the call; its error is an error of the call |
| EngineFacts.WritesFirst | src/C4AulExec.cpp:1494-1510 | what a built-in function writes is written before anything else it does, and each slot has the last value written to it |
| EngineFacts.RunStarts | src/C4AulExec.cpp:318-352 | a run from outside has the parameters, the object and the variables it is given; what is no script function gives nil |
| EngineFacts.ErrorGoes | src/C4AulExec.cpp:1306-1331 | an error ends its run with nil and takes all its calls and values away; if errors are passed on, it becomes an error of the call in the script below, or leaves the engine |
| MachineParsed.ParsedWorldOk | src/C4AulParse.cpp:3537-3573 | what the parser leaves is all that the engine needs: finished functions, and functions at which it has stopped with an error at any moment, if no join reached across a jump target |
| MachineParsed.ParsedIsSafe | src/C4AulExec.cpp:130-251 | so with every such set of scripts every reachable state is safe |
| MachineParsed.ErrorUneven | src/C4AulParse.cpp:3554-3569 | the code left for `if (a) b` and an error comes to the error chunk with one value and with none: there, and only there, the height is not fixed |
| EngineRuns.RunFrame | src/C4AulExec.cpp:354-1304 | a call on the shared stacks goes through the configurations of the code run on its own, and never falls below its frame, as far as the calls it really makes do what is said of them; nothing is supposed of other functions |
| EngineRuns.CallFreeAgrees | src/C4AulExec.cpp:1083-1103 | for functions that make no calls nothing has to be supposed about calls |
| EngineRuns.EngineRunsFunction | src/C4AulExec.cpp:318-352 | a compiled function that is run from outside gives the evaluator's result and memory, nil where the evaluator comes to an error, and leaves both stacks as they were, for any meaning of the calls it makes on the way that the engine agrees with; nothing is supposed of functions it does not call |
| EngineRuns.EngineComesBack | src/C4AulExec.cpp:318-352 | the other way round, a run of it that comes back had an outcome of the evaluator, so it is endless where the evaluator is |
| Relocate.StepsMoved | src/C4AulExec.cpp:354-1304 | any number of steps of a call do the same when more values lie below its frame, with references moved along, and leave the memory tidy: references lead downwards from the stack only |
| Programs.InvokeMoved | src/C4AulExec.cpp:1405-1511 | what the evaluator says of a call of a program's function, through calls inside calls, does not depend on how high on the stack it is made |
| ProgramRuns.InvokeEnds | src/C4AulExec.cpp:1041-1103 | a call of any function of a program, whatever other functions there are, with conversion, variables, nested calls and return or error, ends on the engine's stacks with what the evaluator says, which evaluates the bodies of the functions called |
| ProgramRuns.ProgramAgrees | src/C4AulExec.cpp:1041-1294 | so the calls that functions of a program make mean what the evaluator says, direct, global and object calls, up to any depth for which there is room |
| ProgramRuns.EngineRunsProgram | src/C4AulExec.cpp:318-352 | the whole way from program to engine: whatever functions of the program call each other, a built-in function that runs one of them goes on with the evaluator's result and memory, with nothing supposed about calls but room for them, nor about functions outside the program, in any mix of strictness levels |
| ProgramRuns.EngineIsEvaluator | src/C4AulExec.cpp:318-352 | so, unless the evaluator gives up at a call that leads out of the program or too deep, the engine comes back if and only if the evaluator comes to an outcome, and then with that value and memory |
| ProgramNames.WrittenFromText | src/C4AulParse.cpp:2693-2716 | that a function names only its own parameters and variables, calls script functions with ten parameters, and has nothing joined across a jump target, can be told from its text |
| ProgramExample.EngineGivesSeven | src/C4AulExec.cpp:1041-1103 | `return Seven();` with `Seven` being `return 7;` meets all that is supposed, beside any other functions, and the engine gives 7 |
| Text.TextMeaning | src/C4AulParse.cpp:2693-3051 | an expression written out, read by the parser, compiled and run stops with an outcome if and only if the evaluator of that expression comes to it |
| Text.OneOperandNames | src/C4AulParse.cpp:424-436 | what the names of operators stand for, in front of an operand and behind it |
| Text.ComputingNames | src/C4AulParse.cpp:440-447 | between two operands: arithmetic and shifts |
| Text.ComparingNames | src/C4AulParse.cpp:448-455 | comparisons and joining |
| Text.LogicNames | src/C4AulParse.cpp:456-463 | comparisons of strings, bits, and the operators that jump |
| Text.AssigningNames | src/C4AulParse.cpp:464-470 | compound assignments |
| Text.SettingNames | src/C4AulParse.cpp:471-477 | the other assignments |
| Execution.Exec.PushValue | src/C4AulExec.cpp:194-198 | one value more, unless the stack is full |
| Execution.Exec.PushNullVals | src/C4AulExec.cpp:206-210 | moving the top really pushes nils, as everything above the top is nil |
| Execution.Exec.PopValues | src/C4AulExec.cpp:220-226 | popped slots are cleared |
| Execution.Exec.PopValuesUntil | src/C4AulExec.cpp:228-234 | popping down to a slot |
| Execution.Exec.PushContext | src/C4AulExec.cpp:130-145 | one call more, unless there are 512 |
| Execution.Exec.PopContext | src/C4AulExec.cpp:146-168 | one call less |
| Execution.Exec.RunOperator | src/C4AulExec.cpp:438-853 | operators replace their operands on the stack, in place |
| Execution.Exec.RunJump | src/C4AulExec.cpp:982-1039 | conditional jumps leave or pop the value on top as their kind says |
| Execution.Exec.RunForEach | src/C4AulExec.cpp:1130-1154 | the next element goes into the variable, the position is counted up, or the loop ends |
| Execution.Exec.RunChunk | src/C4AulExec.cpp:354-1304 | every chunk that is neither call nor return does on the arrays what the machine says |
| Execution.Exec.ReturnFrom | src/C4AulExec.cpp:1041-1081 | return |
| Execution.Exec.CallFunction | src/C4AulExec.cpp:1405-1511 | call: parameters are converted in place, variables pushed, a context pushed |
| Execution.Exec.CallObject | src/C4AulExec.cpp:1204-1294 | call with a target |
| Execution.Exec.BeginRun | src/C4AulExec.cpp:318-352 | run from outside: parameters are pushed one by one, which can fail half way |
| Execution.Exec.EndNative | src/C4AulExec.cpp:1494-1510 | the result of a built-in function takes the place of its parameters |
| Execution.Exec.Unwind | src/C4AulExec.cpp:1318-1326 | all calls from a context on are taken away, and all values from its parameters on |
| Execution.Exec.HandleError | src/C4AulExec.cpp:1306-1331 | an error is passed on or unwinds the run |
| Execution.Exec.RunFor | src/C4AulExec.cpp:354-1330 | any number of steps on the arrays are the machine's steps, keep its invariant, and keep every slot above the top nil |
| Grammar.Shared | src/C4AulParse.cpp:2966-2984 | operators that share a name are told apart by where they stand |
| Grammar.ShowParses | src/C4AulParse.cpp:2893-2999 | printed text is read back up to the point where the expression ends, in any context whose priority admits it |
| Grammar.RoundTrip | src/C4AulParse.cpp:2693-3051 | for every expression with operators of the table, calls, accesses and parameters: reading what was printed gives it back |
| Priorities.TwoOperators | src/C4AulParse.cpp:439-477 | for every two operators and all operands without parentheses, which one takes the operand between them: the tiers are ranges of the operator table, and only the assigning ones group from the right |
| Priorities.PrefixFirst | src/C4AulParse.cpp:2893-2923 | a prefix operator takes the operand it stands at, whatever operator goes before or follows |
| Priorities.PostfixFirst | src/C4AulParse.cpp:2959-2990 | a postfix operator comes before prefix operators and before the operators around |
| Priorities.CallRead | src/C4AulParse.cpp:2255-2331 | parameters that are left out are nil; `F()` has none, `F(,)` two |
| Priorities.Refused | src/C4AulParse.cpp:2893-2957 | an operator with nothing behind it, a postfix operator at the beginning, a prefix operator behind an operand and brackets that are not closed are errors |
| Grammar.LeftParenthesesNeeded | src/C4AulParse.cpp:2986-2990 | leaving away parentheses the printer writes left of an operator gives another expression |
| Grammar.RightParenthesesNeeded | src/C4AulParse.cpp:2986-2990 | the same right of an operator |
| Grammar.Parser.ParseExpression | src/C4AulParse.cpp:2693-2957 | the reading parser with its position comes to what the parser as a function comes to, errors included |
| Grammar.Parser.ParseExpression2 | src/C4AulParse.cpp:2959-3058 | so does its loop over operators and accesses |
| Grammar.Parser.ParseItems | src/C4AulParse.cpp:2255-2331 | so does its reading of parameters, missing ones being nil |
| Grammar.PrintAndParse | src/C4AulParse.cpp:2693-3051 | printing and reading back, carried out |
| Access.SkipExact | src/C4AulParse.cpp:1138-1218 | over any joined code, going back over `n` values finds the chunk before them if and only if every STACK on the way pushes, none pushes at once for two that take from it, every chunk is known, and the jump of `??=` is taken for an operator of one operand; where no object call ends with a global call |
| Access.MiscountsCancel | src/C4AulParse.cpp:1198-1202 | in `a[0->f(0, 1, ..., 8, global->g())]` below strict 3 the value too few of the call and the two nulls pushed at once cancel out: for such calls the way can be found without being clear |
| Access.ClearLeads | src/C4AulParse.cpp:1138-1218 | the if part, for all code, whatever calls it has |
| Access.SkipUndoesWrite | src/C4AulParse.cpp:1138-1218 | for every expression as it is written and joined in any strictness: going back over one value undoes the writing exactly then |
| Access.WriteTotal | src/C4AulParse.cpp:977-1133 | every expression pushes one value, joined or not |
| Access.WriteBehind | src/C4AulParse.cpp:1102-1133 | an expression is written the same way behind any chunk that is neither a stack chunk nor a number |
| Access.SetNoRefExact | src/C4AulParse.cpp:1228-1255 | a chain of accesses to a variable, in joined code of any strictness, is turned from references into values, with no other chunk changed, if and only if the way back over every index is clear in this sense |
| Access.ClearSetsNoRef | src/C4AulParse.cpp:1228-1255 | the if part for the whole chain, whatever calls its indices have |
| ClearText.PlainUndone | src/C4AulParse.cpp:1138-1218 | told from the text: going back over one value undoes the writing of every expression without nil, jumping operators, calls of nobody, dropped parameters, undercounted calls, and nulls next to those of another taker; for variables, operators, members, indices, append, arrays, maps, `Var` and `Par`, and all calls |
| ClearText.PlainSetsNoRef | src/C4AulParse.cpp:1228-1255 | so every chain of accesses whose indices are of this kind becomes the chain of values, and nothing before it changes |
| AccessWritten.SameCode | src/C4AulParse.cpp:2693-3051 | where there are no accesses, this model of the compiler writes the chunks of the other one, for every expression, joined as there |
| AccessWritten.AccessesWritten | src/C4AulParse.cpp:3060-3142 | what elements, members, append and maps add |
| AccessWritten.SpaceCallWritten | src/C4AulParse.cpp:3144-3235 | a call in a namespace has the namespace before and behind the parameters |
| Access.ZeroBeforeCall | src/C4AulParse.cpp:1102-1127 | below strict 3, in `b = a[0 + f()]` the 0 and the parameters of `f` are pushed at once: `b`, the target, becomes a value, and `a` stays a reference |
| Access.NilAssignSkipped | src/C4AulParse.cpp:1206-1214 | the distance of the jump of `??=` is taken for the number of an operator: exactly what is skipped for it, for every distance |
| Access.GlobalCallLast | src/C4AulParse.cpp:1198-1202 | an object call whose last parameter is a global call is skipped with one value too few |
| Access.TooManyParametersHang | src/C4AulParse.cpp:1144-1146 | on `a[f(1, 2)]`, where `f` takes one parameter, the compiler never comes back |
| Access.Chunks.SkipExpressions | src/C4AulParse.cpp:1138-1218 | the loop over the chunks does this or tells that it would not end |
| Access.Chunks.NoRef | src/C4AulParse.cpp:1228-1255 | so does the loop that changes the chunks in place |
| FuncIndex.GrowKeeps | src/C4Aul.cpp:578-602 | growing the table keeps the order of all functions of one name, whoever owns them |
| FuncIndex.AddAgrees | src/C4Aul.cpp:42-78 | a new function at either end of its owner's list keeps every chain the reverse of the lists |
| FuncIndex.RemoveAgrees | src/C4Aul.cpp:97-106 | so does removing one |
| FuncIndex.LookUpIsWalk | src/C4Aul.cpp:256-271 | the look-up in the index, from the start or behind a function, finds what walking the owner's list backwards finds |
| FuncIndex.AlwaysAgrees | src/C4Aul.cpp:560-632 | index and lists agree after any sequence of changes |
| FuncIndex.IndexIsList | src/C4Aul.cpp:256-271 | so looking up is walking the list, after any sequence of insertions, growths and removals |
| FuncIndex.AddedFound | src/C4Aul.cpp:37-78 | a function added at the end is the one found from then on, and behind it what was found before; one added at the start is found only where there was none; other names and owners are left alone |
| FuncIndex.RemovedFound | src/C4Aul.cpp:97-106 | a function taken away is found no more, but what was found behind it |
| FuncIndex.TableGrows | src/C4Aul.cpp:576-602 | the table grows by 1024 places, exactly when there would be more functions than places |
| FuncIndex.NeverFuller | src/C4Aul.cpp:576-632 | so it never has fewer places than functions, through any sequence of changes |
| FuncIndex.HashIsFnv1a | src/C4Aul.cpp:534-541 | the hash has the published values |
| FuncIndex.OnOneChain | src/C4Aul.cpp:576-632 | every registered function hangs on exactly one chain, that of its hash value, once |
| FuncIndex.Registry.Grow | src/C4Aul.cpp:578-602 | function by function to the end of its new chain |
| FuncIndex.Registry.Add | src/C4Aul.cpp:576-620 | at the start or the end of its chain, growing first if needed |
| FuncIndex.Registry.NewFunc | src/C4Aul.cpp:37-78 | a function is registered in list and index |
| FuncIndex.Registry.DeleteFunc | src/C4Aul.cpp:97-106 | and taken out of both |
| FuncIndex.Registry.Find | src/C4Aul.cpp:560-574 | the chain is followed to the function the list walk would find |
| Effects.RemoveFlips | src/C4Effect.cpp:455-474 | everything active above an effect steps aside, nothing else changes |
| Effects.RemoveCalls | src/C4Effect.cpp:455-474 | the stop calls come from high to low |
| Effects.ReaddDoes | src/C4Effect.cpp:476-492 | what has stepped aside up to the last one is back |
| Effects.ReaddCalls | src/C4Effect.cpp:476-492 | the start calls come from low to high |
| Effects.KillActiveDoes | src/C4Effect.cpp:365-384 | what killing an active effect does to every other effect |
| Effects.KillLeavesOthers | src/C4Effect.cpp:365-384 | on a sorted list all others keep priority and activity if and only if the effect has priority 1 or none had stepped aside between it and the last active one above |
| Effects.KillCalls | src/C4Effect.cpp:365-384 | its calls: stops from high to low, its own stop, starts from low to high |
| Effects.KillInactive | src/C4Effect.cpp:365-384 | killing an effect that has stepped aside touches no other |
| Effects.InsertSorted | src/C4Effect.cpp:74-94 | a new effect is put where the list stays sorted, with a number no other has, dead effects in between included |
| Effects.CreateKeeps | src/C4Effect.cpp:59-153 | creating an effect keeps order and numbers, however its calls are answered: agreed to, refused, added to another effect, started, denied, or taken out by an error |
| Sweeps.CreateDoes | src/C4Effect.cpp:59-153 | where those above agree and the start call does not throw, the new effect stands at its place, live with its priority unless its start call denies, those that were active above it are active again, and what had stepped aside below one of them is, too |
| Sweeps.CreateRefused | src/C4Effect.cpp:59-153 | where an effect above refuses, a dead entry is left and nothing is called |
| Sweeps.CreateThrown | src/C4Effect.cpp:59-153 | where its start call throws, the new effect is out again, and those above have stepped aside |
| Sweeps.CreateAnnulled | src/C4Effect.cpp:59-153 | where an effect above takes the new one up, the new one stays dead at its place and all others are as before, but for what had stepped aside below an active one |
| Sweeps.AddToDoes | src/C4Effect.cpp:271-317 | an effect that takes up a new one leaves all others as creating one does |
| Sweeps.AddToCalls | src/C4Effect.cpp:271-317 | it is told between the stop calls, from high to low, and the start calls, from low to high, of those above |
| Effects.KillKeeps | src/C4Effect.cpp:365-384 | so does killing any |
| Effects.SweepKeeps | src/C4Effect.cpp:319-363 | so does a sweep, which removes the dead and kills on demand |
| Sweeps.SweepDoes | src/C4Effect.cpp:319-363 | where no kill disturbs another effect, exactly the live effects stay in their order, each one step older; those with a timer are called, once and in that order, exactly when their interval divides the new time; an effect is dead afterwards exactly if its time had come, it has no timer or the timer asked for it, and its stop call did not refuse |
| Effects.AlwaysSorted | src/C4Effect.cpp:74-94 | so does any sequence of these |
| Effects.EffectList.Insert | src/C4Effect.cpp:74-94 | the walk to the place of a new effect |
| Effects.EffectList.TempRemoveUpperEffects | src/C4Effect.cpp:455-474 | the recursion from effect to effect |
| Effects.EffectList.TempReaddUpperEffects | src/C4Effect.cpp:476-492 | the loop from effect to effect |
| Effects.EffectList.KillEffect | src/C4Effect.cpp:365-384 | kill, on the list in place |
| Effects.EffectList.CreateEffect | src/C4Effect.cpp:59-153 | creation, on the list in place |
| Effects.EffectList.ExecuteAll | src/C4Effect.cpp:319-363 | the sweep, on the list in place |
| Includes.HangsExactly | src/C4AulLink.cpp:66-141 | whatever scripts include each other, linking does not end if and only if some script meets its own include when it is already marked as resolved and has functions to hand on by then, told from who includes whom |
| Includes.EveryScriptLinkedOnce | src/C4AulLink.cpp:66-111 | otherwise, circles or not, every preparsed script is linked, resolved and no longer being resolved, and went through its includes once |
| Includes.CarefulEnds | src/C4AulLink.cpp:84-95 | linking ends wherever no script includes itself behind an include that leads back to it |
| Includes.NoSelfCareful | src/C4AulLink.cpp:84-95 | that condition holds wherever no script includes itself |
| Includes.TreeIsList | src/C4AulLink.cpp:66-69 | the recursion through the tree of scripts comes to what resolving them one after the other comes to |
| Includes.AcyclicLists | src/C4AulLink.cpp:66-141 | without circles linking ends, and every script has its final list |
| Includes.SourceOrder | src/C4AulParse.cpp:1446-1447 | the lists of the includes come in the order of the source, the script's own functions last |
| Includes.OwnOverrides | src/C4AulLink.cpp:84-95 | so own functions override included ones, and later includes earlier ones |
| Includes.SelfIncludeHangs | src/C4AulLink.cpp:113-141 | every script that includes itself twice and has functions of its own to hand on makes linking hang |
| Includes.Linker.Append | src/C4AulLink.cpp:113-140 | copies of the script functions that are not global go before the others, in their order |
| Includes.Linker.ResolveIncludes | src/C4AulLink.cpp:66-111 | the recursion through the includes, circular ones too |
| Includes.Linker.ResolveEach | src/C4AulLink.cpp:84-105 | its loop over the includes of one script |
| Rings.WalkIsPreorder | src/C4AulLink.cpp:219-232 | going down to the first child, or else up to a next sibling, meets every script behind exactly once, in the order of the tree |
| Rings.TreeIsWalk | src/C4AulLink.cpp:246-247 | the calls of the linking for the scripts below come in the order of the walk |
| Rings.RingsComplete | src/C4AulLink.cpp:205-247 | the topmost functions of every name form one ring with one member for each script that has the name, and nothing else is linked |
| Rings.FindIsRight | src/C4Aul.cpp:128-146 | from whatever member it starts, the search finds the definition's own function, else the global one, else none |
| Rings.CacheNeverMatters | src/C4AulExec.cpp:1241-1279 | remembering the function found at a call chunk never changes what later calls find |
| Rings.Linker.AfterLink | src/C4AulLink.cpp:205-247 | the loops over scripts and functions |
| Rings.Linker.MakeRing | src/C4AulLink.cpp:209-244 | one ring |
| Rings.Linker.Find | src/C4Aul.cpp:128-146 | the way around the ring |

## Left out

- Compiled.CompiledMeaning: one way only where a join reached across a jump target, because such code may still happen to do the right thing, depending on values and on what can be reached.
- MachineFrames.EngineIsSafe: leaves out functions in which a join reached across a jump target, as their code can take more values than it has pushed (`CompiledLimits.CrossingChangesMeaning`).
- Moments.ErrorStaysInside: supposes that up to the error no join reached across a jump target, for the same reason.
- LedOut.LedOutExactly: for functions in which no join reached across a jump target.
- EngineRuns.EngineRunsFunction: takes the meaning of calls from a hypothesis; `ProgramRuns.EngineRunsProgram` discharges it.
- ProgramRuns.EngineRunsProgram: a call that leads to a script function outside the program, as one with an error, makes the evaluator give up, as does one that is too deep; it supposes that built-in functions run no scripts and that operators, conversions and built-in functions do not depend on where on the stack values lie (`Programs.Gentle`), that script functions return no references, and that the memory is tidy when the run begins.
- Access.SkipExact: the only-if part supposes that no object call in what is skipped has ten parameters the last of which is a global call; for such a call one value too few is skipped, which a STACK that pushes for two can make up for (`Access.MiscountsCancel`).
- Access.SkipUndoesWrite: the only-if part supposes the same of the expression.
- Access.SetNoRefExact: the only-if part supposes the same of the indices; it needs a chunk before the chain, as the loop stops at the first chunk of the code wherever that is.
- ClearText.PlainUndone: one way only, as a dropped parameter can be a null that cancels out with one that is missing.
- Sweeps.SweepDoes: where a kill does disturb other effects, `Effects.KillActiveDoes` has what one kill does to them.
- Text.TextMeaning: the text is a sequence of tokens as the printer writes them; accesses and calls of functions that do not exist are not among its expressions.
- CompilerState.Compiler.SetNoRef: changes only the last chunk, as the programs of that module have no accesses; accesses are in `access.dfy`.
- ExprCorrect.RunE: accesses to elements and members, map literals and safe navigation are not among its expressions.
- StmtCorrect.RunS: iteration over maps with two variables, `goto` and `return` with several parameters are not among its statements.
- EmitterPlain.GenEWrites: accesses, map literals and safe navigation are not among its expressions.
- CompilerState.Compiler.ParseExpression: works on what was read, not on tokens, and without accesses; tokens are in `grammar.dfy` and `text.dfy`.
- CompilerState.Compiler.ParseArgs: without `...`; an omitted parameter is the constant nil.
- CompilerState.Compiler.ParseMethod: without namespace calls, which are in `access.dfy` only.
- CompilerState.Compiler.ParseForEach: without the form for maps.
- Execution.Exec.RunOperator: what an operator computes is an arbitrary function of the strictness of the running function, the operands and the memory.
- Execution.Exec.RunChunk: without the chunks for accesses and maps.
- Includes.Linker.Append: without the way for `#appendto` with high priority.
- CompilerState.Compiler.ParseStatement: `break` and `continue` stand inside loops only; below strict 2 the source drops others after a warning.
- Grammar.RoundTrip: works on tokens; from strict 2 on a missing second operand is an error, below it the source puts 0.
- The way from characters to tokens, the string table, descriptions, warnings, traces, profiling and dumps.
- Safe navigation with `?`, accesses, map literals and their iteration with two variables in the compiled programs; accesses and map literals appear in `access.dfy` only.
- `return` with several parameters, `goto`, labels of old-style functions, `inherited` errors, access levels, checks after a change of definition, scripts compiled for one execution.
- Conversions, reference counting, powers and arrays beyond sequences: they are arbitrary functions here. A cyclic chain of references, which the engine does not build, reads as nil.
- Numbered variables of a call (`Var(n)`) as storage: the operator that reaches them is arbitrary.
- Linked lists, chains and rings are sequences and maps of the objects that own them, not pointers between nodes.
- The nesting of the engine's own calls is a list of frames in the machine's state instead of recursion; exceptions are results.
- `#appendto` with high priority, definitions that include each other's other data, and unlinking.
- What each higher effect says of a new one is put together to one answer; damage calls, clearing all effects and saving are not modelled; calls of effects leave the list alone and the object alive.
- Scripts below a definition's script, which would be resolved with it when it is included.
- The fire, smoke and explosion effects, commands, clients, sound, display and network.
