# Models of the Lua 5.1 core and of the master server

Dafny models of the parts of the repository whose correctness is hardest to see by reading:

- the code generator for boolean expressions (`lcode.c`): short-circuit operators, jump lists and their patching,
  compiled over a real code array and proved against what the bytecode does when it runs;
- the bytecode checker (`ldebug.c`): what its verdict is worth over all runs, and exactly what it rejects;
- the incremental collector (`lgc.c`) with the structures it keeps consistent: the string table (`lstring.c`), the
  open upvalues (`lfunc.c`) and the barriers of every store (`lapi.c`, `lvm.c`);
- the call stack (`ldo.c`): frames, varargs, returns, tail calls and protected calls on one shared, growing stack;
- references, string buffers and the floating-point byte (`lauxlib.c`, `lobject.c`);
- the master server: the mirror a client keeps, the sort of its list and the dropping of silent servers.

`dafny verify dfyconfig.toml` checks everything. Code that changes state is a class with the fields of the source
(`FuncState`, `GlobalState`, `LuaThread`, `Ring`, `Buffer`, `RefTable`, `MasterClient`, `GameServerList`,
`MasterServer`); pure parts are functions. Errors that the source raises are `Status` values.

How the parts fit together:

- **Compilation.** A snapshot of unfinished code has completions: the finished programs it can still become. A
  descriptor *means* an expression if, in every completion and from all registers, the code leaves with the value of
  the expression where the descriptor says, or through one of its lists (`Meaning`, `Descriptors`). Every operation
  narrows the completions and keeps the meaning, so `CompileFunction` speaks of the finished code. The checker accepts
  that code, and `CompiledRunsSafely` joins the two.
- **Checker.** `CheckAt` are the rules for one instruction, `Safe` is what the interpreter needs of it, and `IsRun` are
  all paths through the code, whatever the values. `Faults` names the reasons for which a function is rejected.
- **Collector.** `Inv` is the invariant in every phase, `Effect` what each operation of a program does to what the
  program can see. `Run` interleaves them with collector steps in every possible way, and
  `Observation` says what a program reads after each of them.
- **Calls.** `CallMeaning` runs each function on registers of its own. `RunBody` and `Call` show that the shared stack
  gives every function this picture.

## Model

| member | source | states |
|---|---|---|
| `JumpLists.ListAcyclic` | CPP_0_1/src/lib/lua/lcode.c:75-101 | A list threaded through the sBx fields of jumps never visits a jump twice, so every loop along it ends. |
| `JumpLists.ListUnique` | CPP_0_1/src/lib/lua/lcode.c:95-101 | A head determines the sequence of jumps on its list. |
| `JumpLists.ListConcat` | CPP_0_1/src/lib/lua/lcode.c:180-191 | Linking the last jump of one list to the head of a disjoint one gives exactly the concatenation of the two sequences. |
| `JumpLists.PatchedTarget` | CPP_0_1/src/lib/lua/lcode.c:145-155 | A patched jump goes to vtarget if its controlling test carries the tested value, and to dtarget otherwise. |
| `JumpLists.PatchKeepsList` | CPP_0_1/src/lib/lua/lcode.c:145-155 | Patching one list leaves every list that shares no jump with it intact. |
| `JumpLists.DropKeepsList` | CPP_0_1/src/lib/lua/lcode.c:139-142 | Dropping the values of tests leaves every list intact. |
| `CodeGenerator.FuncState.NeedValue` | CPP_0_1/src/lib/lua/lcode.c:117-123 | True exactly when some jump on the list does not carry the tested value. |
| `CodeGenerator.FuncState.RemoveValues` | CPP_0_1/src/lib/lua/lcode.c:139-142 | Every TESTSET that controls a jump of the list becomes a TEST and no other word changes. |
| `CodeGenerator.FuncState.PatchListAux` | CPP_0_1/src/lib/lua/lcode.c:145-155 | The loop along the list ends; each jump goes to the target its test calls for, each controlling TESTSET is resolved, and no other word changes. It fails only when a jump would be too long. |
| `CodeGenerator.FuncState.Concat` | CPP_0_1/src/lib/lua/lcode.c:180-191 | The new head denotes the concatenation of the two lists; only the last jump of the first list changes. |
| `CodeGenerator.FuncState.Jump` | CPP_0_1/src/lib/lua/lcode.c:54-61 | The new jump heads a list of itself and all jumps that were waiting for this position; nothing is pending any more. |
| `CodeGenerator.FuncState.PatchToHere` | CPP_0_1/src/lib/lua/lcode.c:174-177 | The jumps of the list join those that will go to the next instruction. |
| `CodeGenerator.FuncState.DischargeVars` | CPP_0_1/src/lib/lua/lcode.c:299-330 | A local or upvalue becomes a value in a register or an instruction without target that still denotes the same expression. |
| `CodeGenerator.FuncState.Discharge2Reg` | CPP_0_1/src/lib/lua/lcode.c:338-374 | The descriptor denotes the same expression, now in the given register (a test is left as it is); earlier code and unrelated registers keep their meaning. |
| `CodeGenerator.FuncState.Discharge2AnyReg` | CPP_0_1/src/lib/lua/lcode.c:377-382 | The same with the next free register when the value has none. |
| `CodeGenerator.FuncState.Exp2Reg` | CPP_0_1/src/lib/lua/lcode.c:385-406 | After both lists are patched, every completion of the code puts the short-circuit value of the expression into the register on every path, and no list is open. |
| `CodeGenerator.FuncState.Exp2NextReg` | CPP_0_1/src/lib/lua/lcode.c:409-414 | The same for the next free register, which is reserved. |
| `CodeGenerator.FuncState.Exp2AnyReg` | CPP_0_1/src/lib/lua/lcode.c:417-428 | The same for a register the value already has, unless that is a local it must not overwrite. |
| `CodeGenerator.FuncState.Exp2Val` | CPP_0_1/src/lib/lua/lcode.c:431-436 | A descriptor with open lists is put into a register; one without keeps denoting its expression. |
| `CodeGenerator.FuncState.Exp2RK` | CPP_0_1/src/lib/lua/lcode.c:439-464 | The operand is in a register and denotes its expression. |
| `CodeGenerator.FuncState.JumpOnCond` | CPP_0_1/src/lib/lua/lcode.c:519-531 | The added jump is taken exactly when the value of the expression has the truth value cond; a pending NOT is folded into the test. |
| `CodeGenerator.FuncState.GoIfTrue` | CPP_0_1/src/lib/lua/lcode.c:534-559 | Control falls through exactly when the expression is true; on the false list its value is still the value of the expression. |
| `CodeGenerator.FuncState.GoIfFalse` | CPP_0_1/src/lib/lua/lcode.c:562-586 | Control falls through exactly when the expression is false; the true list carries the value. |
| `CodeGenerator.FuncState.CodeNot` | CPP_0_1/src/lib/lua/lcode.c:589-621 | The descriptor denotes the negation; the true and false lists change places and no longer promise a value. |
| `CodeGenerator.FuncState.CodeComp` | CPP_0_1/src/lib/lua/lcode.c:670-683 | The descriptor denotes the comparison of the two operands, whatever their order in the instruction. |
| `CodeGenerator.FuncState.PosfixLogical` | CPP_0_1/src/lib/lua/lcode.c:729-745 | The descriptor of the second operand with the joined lists denotes the `and` or `or` of both operands. |
| `CodeGenerator.FuncState.Logical` | CPP_0_1/src/lib/lua/lcode.c:707-746 | `and` and `or` with their operands compiled left to right denote the short-circuit operator. |
| `CodeGenerator.FuncState.Comparison` | CPP_0_1/src/lib/lua/lcode.c:721-775 | A comparison with both operands compiled denotes the relation of their values. |
| `CodeGenerator.FuncState.Subexpr` | CPP_0_1/src/lib/lua/lparser.c:827-852 | For every expression over locals, upvalues, parentheses, `not`, `and`, `or` and comparisons the emitted code denotes its value. Compilation fails only for a jump that is too long or too many registers. |
| `CommitLemmas.CommitTestSet` | CPP_0_1/src/lib/lua/lcode.c:519-531 | A TESTSET and its jump leave with the tested value in the register exactly on the jumping path. |
| `ExpressionLemmas.SequenceSem` | CPP_0_1/src/lib/lua/lcode.c:729-746 | Code that decides by the first operand, followed by code for the second, computes the short-circuit value of both. |
| `ExpressionLemmas.ValuesSem` | CPP_0_1/src/lib/lua/lcode.c:385-406 | If every jump carries its value, patching both lists to the end puts the value of the expression into the register. |
| `ExpressionLemmas.LabelsSem` | CPP_0_1/src/lib/lua/lcode.c:390-404 | If some jump carries no value, the two LOADBOOLs and the jump over them produce the boolean it stands for, for every run. |
| `Meaning.Truth` | CPP_0_1/src/lib/lua/lvm.c:504-508 | Only nil and false count as false: the values of `not`, `and` and `or` in these terms. |
| `Operators.NeedsFew` | CPP_0_1/src/lib/lua/lcode.c:194-207 | An expression needs at most one register more than it has comparisons, so that the bound on failures is a real one. |
| `Compiler.StoreVar` | CPP_0_1/src/lib/lua/lcode.c:467-474 | The local holds the value of the expression and no other local changed. |
| `Compiler.Assign` | CPP_0_1/src/lib/lua/lparser.c:930-959 | After the code of an assignment the locals are as after executing the assignment, in every run. |
| `Compiler.CompileFunction` | CPP_0_1/src/lib/lua/lparser.c:327-379 | For every function body of assignments and a return over the fragment: every run of the whole code, from any registers, arrives at a RETURN of one register that holds the value of the result in the state after the assignments; and the code passes the bytecode checker. It fails only beyond the jump range or MAXSTACK registers. |
| `Compiler.FinishedIsAccepted` | CPP_0_1/src/lib/lua/ldebug.c:276-457 | Code in which no TESTSET is without register, every test is followed by a jump, every jump lands inside and the last word is a RETURN passes the checker. |
| `Compiler.CompiledRunsSafely` | CPP_0_1/src/lib/lua/ldebug.c:357-457 | Every run of accepted code without long SETLISTs stays inside the code and on operands inside the frame. |
| `Checker.CheckCode` | CPP_0_1/src/lib/lua/ldebug.c:466-468 | Accepts exactly the functions whose header and instructions pass; by `Faults.AcceptedExactly` these are the functions with a right header and no fault. |
| `Faults.AcceptedExactly` | CPP_0_1/src/lib/lua/ldebug.c:317-468 | A function is accepted if and only if its header is right and no instruction has one of thirteen faults, said in terms of the registers, constants, upvalues, words and successors the interpreter uses. |
| `LastWrites.ChangesExactly` | CPP_0_1/src/lib/lua/ldebug.c:329-455 | The search for the last change of a register counts exactly the instructions that write it, but of five opcodes it knows register A only. |
| `LastWrites.StepWrites` | CPP_0_1/src/lib/lua/lopcodes.h:150-208 | What a step of the machine changes is among the registers its instruction writes. |
| `Checker.Symbexec` | CPP_0_1/src/lib/lua/ldebug.c:317-457 | The pass visits instructions in order, skipping counts and, when a register is asked for, jumping forward; it fails exactly at the first word that breaks a rule and otherwise yields the last change of the register on its path. |
| `Checker.LastChange` | CPP_0_1/src/lib/lua/ldebug.c:317-457 | In an accepted function the pass for a register reaches lastpc, and yields the last instruction on its path that changes the register, or the final return. |
| `Checker.OneLastChange` | CPP_0_1/src/lib/lua/ldebug.c:317-457 | There is one such instruction: the code, lastpc and the register determine it. |
| `Checker.PassCovers` | CPP_0_1/src/lib/lua/ldebug.c:317-457 | The full pass visits exactly the words that are not counts of a SETLIST. |
| `CheckedSteps.CallAllowed` | CPP_0_1/src/lib/lua/ldebug.c:411-423 | A checked CALL whose operands hold values is a step that the model of the call stack allows. |
| `CheckedSteps.ReturnAllowed` | CPP_0_1/src/lib/lua/ldebug.c:424-428 | The same for a RETURN. |
| `CheckedSteps.VarargAllowed` | CPP_0_1/src/lib/lua/ldebug.c:445-453 | The same for a VARARG. |
| `Paths.PassesWords` | CPP_0_1/src/lib/lua/lvm.c:692-737 | Control passes over exactly the words an instruction reads: the count of a SETLIST, the upvalues of a CLOSURE. |
| `Paths.TestGoesWithJump` | CPP_0_1/src/lib/lua/lvm.c:540-580 | A test goes past its jump, or where the jump goes. |
| `Soundness.OperandsInFrame` | CPP_0_1/src/lib/lua/ldebug.c:329-332 | Every register that a checked instruction reads or writes is below maxstacksize. |
| `Soundness.ConstantsInTable` | CPP_0_1/src/lib/lua/ldebug.c:304-314 | Every constant that a checked instruction names exists. |
| `Soundness.AcceptedIsSafe` | CPP_0_1/src/lib/lua/ldebug.c:317-457 | At a checked instruction all registers, constants, upvalues, prototypes and following words it uses exist. |
| `Soundness.MoveStays` | CPP_0_1/src/lib/lua/ldebug.c:343-409 | From a checked and guarded instruction every possible successor is again a checked instruction inside the code. |
| `Soundness.CheckerSound` | CPP_0_1/src/lib/lua/ldebug.c:317-468 | A run of an accepted function that meets only guarded instructions is inside the code and safe at every step. |
| `Soundness.CheckerSoundShort` | CPP_0_1/src/lib/lua/ldebug.c:317-468 | Without a SETLIST whose count is in the next word, every run of an accepted function is safe at every step. |
| `Soundness.ConfinedExactly` | CPP_0_1/src/lib/lua/ldebug.c:365-432 | All runs of an accepted function stay on checked instructions if and only if all instructions they reach are guarded. |
| `Soundness.SoundExactly` | CPP_0_1/src/lib/lua/ldebug.c:317-468 | All runs of an accepted function are confined and safe if and only if all instructions they reach are guarded. |
| `Soundness.DisciplineExactly` | CPP_0_1/src/lib/lua/ldebug.c:290-301 | An instruction that leaves an open list is always followed by one that consumes it, if and only if every TAILCALL that promises a fixed count is followed by such a consumer. |
| `Collector.GlobalState.constructor` | CPP_0_1/src/lib/lua/lstate.c:143-190 | The new state satisfies the whole invariant of the collector. |
| `Collector.GlobalState.ReallyMark` | CPP_0_1/src/lib/lua/lgc.c:69-112 | A white object turns gray or black with what it must mark at once; nothing loses colour, and everything newly marked is reachable from it. |
| `Collector.GlobalState.TraverseStack` | CPP_0_1/src/lib/lua/lgc.c:256-270 | All values of a thread in use are marked and the slots beyond the top are cleared. |
| `Collector.GlobalState.PropagateMark` | CPP_0_1/src/lib/lua/lgc.c:277-320 | One gray object is traversed: no black object refers to a white one afterwards, nothing is unmarked, and the number of white or gray objects falls. |
| `Collector.GlobalState.PropagateAll` | CPP_0_1/src/lib/lua/lgc.c:323-329 | Propagation ends with no gray object and no black-to-white edge. |
| `Collector.GlobalState.MarkRoot` | CPP_0_1/src/lib/lua/lgc.c:499-510 | From an all-white heap the roots are marked and the propagation invariant holds; only reachable objects are marked. |
| `Collector.GlobalState.RemarkUpvals` | CPP_0_1/src/lib/lua/lgc.c:513-520 | The values of all open upvalues that are gray are marked. |
| `Collector.GlobalState.FinishMarking` | CPP_0_1/src/lib/lua/lgc.c:523-541 | After the second propagation every marked object refers only to marked objects and all roots are marked. |
| `Collector.GlobalState.Flip` | CPP_0_1/src/lib/lua/lgc.c:542-551 | Changing the current white makes exactly the unmarked objects dead, and the invariant holds. |
| `Collector.GlobalState.Atomic` | CPP_0_1/src/lib/lua/lgc.c:523-551 | A last propagation leaves no marked object that refers to an unmarked one; then the whites change, so that exactly the unmarked objects are dead. |
| `Collector.GlobalState.SweepList` | CPP_0_1/src/lib/lua/lgc.c:405-426 | Up to count objects are swept: dead ones are freed, live ones turn white, no live object refers to a freed one; the step makes progress. |
| `Collector.GlobalState.SweepBucket` | CPP_0_1/src/lib/lua/lgc.c:570-577 | A bucket of the string table is swept: dead unfixed strings are freed and nuse counts the rest. |
| `Collector.GlobalState.CloseDying` | CPP_0_1/src/lib/lua/lstate.c:134-139 | A dying thread closes all its open upvalues, whose values stay as they were. |
| `Collector.GlobalState.SingleStep` | CPP_0_1/src/lib/lua/lgc.c:554-603 | In every phase a step keeps the invariant and everything reachable as the program sees it, and moves to the next phase or decreases a lexicographic measure. |
| `Collector.GlobalState.FullGC` | CPP_0_1/src/lib/lua/lgc.c:632-655 | From any phase it ends in a pause with an all-white heap that holds exactly the objects that were reachable or fixed, and what is reachable looks as before. |
| `Collector.GlobalState.Resize` | CPP_0_1/src/lib/lua/lstring.c:22-47 | Unless strings are being swept the table has the new size; each string is in the bucket of its hash, once, and the invariant is kept. |
| `Collector.GlobalState.CheckSizes` | CPP_0_1/src/lib/lua/lgc.c:429-433 | The string table is halved exactly when it is large and less than a quarter full, unless strings are being swept. |
| `Collector.GlobalState.CloseUpval` | CPP_0_1/src/lib/lua/lfunc.c:98-111 | The highest open upvalue of a thread is freed if dead and otherwise closed with its value unchanged, and with the barrier it needs. |
| `Collector.GlobalState.Close` | CPP_0_1/src/lib/lua/lfunc.c:96-112 | Exactly the open upvalues at or above the level are gone from the list; those alive are closed with the values their slots had, and every other upvalue keeps its value. |
| `Collection.Survivors` | CPP_0_1/src/lib/lua/lgc.c:632-655 | When reachable objects are preserved and everything left is justified, the heap is exactly the reachable and the fixed objects. |
| `StringTable.RehashEnd` | CPP_0_1/src/lib/lua/lstring.c:22-47 | When all buckets have been moved the new table holds the same strings, each in the bucket of its hash. |
| `Interpreter.NewString` | CPP_0_1/src/lib/lua/lstring.c:75-93 | The result is the one string object with the content: the one that was there, revived if it was dead, or else a new one; the table stays consistent. |
| `Interpreter.FindString` | CPP_0_1/src/lib/lua/lstring.c:81-91 | Finds the object with the content exactly when the table has one. |
| `Interpreter.Revive` | CPP_0_1/src/lib/lua/lstring.c:87-90 | A dead string that has not been swept yet is alive again and nothing else changes. |
| `Interpreter.FindUpval` | CPP_0_1/src/lib/lua/lfunc.c:53-79 | The result is the only open upvalue of the slot, alive; all others stay, and the list stays strictly descending. |
| `Interpreter.SetTop` | CPP_0_1/src/lib/lua/lapi.c:160-172 | Slots that come into use hold nil, those below stay, and upvalues above a lowered top are closed first. |
| `Interpreter.NewObject` | CPP_0_1/src/lib/lua/lgc.c:682-688 | The new object is alive and linked; nothing else changes. |
| `Interpreter.NewThread` | CPP_0_1/src/lib/lua/lstate.c:119-131 | A new thread shares the globals of the running one. |
| `Interpreter.SetField` | CPP_0_1/src/lib/lua/lapi.c:664-687 | A store with its barrier changes exactly the one field and keeps the invariant in every phase. |
| `Interpreter.SetUpvalue` | CPP_0_1/src/lib/lua/lvm.c:446-451 | An assignment to an upvalue writes the stack slot while it is open and its own cell when closed; no other upvalue changes its value. |
| `Interpreter.UpvalueSetValue` | CPP_0_1/src/lib/lua/lvm.c:446-451 | After the assignment the upvalue has the new value and every other upvalue the value it had. |
| `Interpreter.TableBarrier` | CPP_0_1/src/lib/lua/lgc.c:671-679 | A black table that was stored into turns gray again; the invariant holds although a white value was stored. |
| `Interpreter.ForwardBarrier` | CPP_0_1/src/lib/lua/lgc.c:658-668 | A black object that was stored into has its value marked during propagation and is itself whitened during the sweep; the invariant holds. |
| `Interpreter.NewClosure` | CPP_0_1/src/lib/lua/lvm.c:718-737 | The closure captures exactly the given slots, each by the one upvalue of that slot. |
| `Program.DoWriteField` | CPP_0_1/src/lib/lua/lapi.c:664-687 | Exactly the field changes, and nothing alive is lost. |
| `Program.DoWriteUpvalue` | CPP_0_1/src/lib/lua/lvm.c:446-451 | Exactly the upvalue, and through it possibly its slot, changes. |
| `Program.DoWriteGlobals` | CPP_0_1/src/lib/lua/lapi.c:199-218 | The running thread has the new globals table and nothing else changes. |
| `Program.DoWriteMetatable` | CPP_0_1/src/lib/lua/lapi.c:690-725 | Exactly the metatable of the basic type changes. |
| `Program.DoMakeString` | CPP_0_1/src/lib/lua/lstring.c:75-93 | The slot holds the one string with the content. |
| `Program.DoMakeClosure` | CPP_0_1/src/lib/lua/lvm.c:718-737 | The slot holds a closure over exactly the given slots. |
| `Program.DoClose` | CPP_0_1/src/lib/lua/lfunc.c:96-112 | Closing from a level has exactly the effect of `Close`. |
| `Program.Collect` | CPP_0_1/src/lib/lua/lgc.c:554-655 | A step or a full collection preserves everything reachable as the program sees it; a full one leaves nothing else but fixed objects. |
| `Program.Perform` | CPP_0_1/src/lib/lua/lapi.c:160-725 | Each of the 22 operations, in every phase, has exactly its effect on what the program sees, loses nothing reachable and keeps the invariant. |
| `Program.Run` | CPP_0_1/src/lib/lua/lgc.c:554-706 | For every sequence of operations, with collector steps anywhere between them: the invariant holds in every state and every step has exactly its effect. |
| `Program.NeverFreed` | CPP_0_1/src/lib/lua/lgc.c:405-426 | In every such run an object that can be reached is not freed by the next step. |
| `Observation.FieldWritten` | CPP_0_1/src/lib/lua/lapi.c:664-687 | The field reads back as the value stored, whatever its index; every other field and every other object is as before. |
| `Observation.MetatableWritten` | CPP_0_1/src/lib/lua/lapi.c:690-725 | Exactly the entry of the basic type changes, to the value stored. |
| `Observation.MetatableRead` | CPP_0_1/src/lib/lua/lapi.c:580-606 | The metatable of the type is pushed, and nothing where there is none. |
| `Observation.SlotCopied` | CPP_0_1/src/lib/lua/lvm.c:402-405 | Exactly the one slot changes, to the value copied. |
| `Observation.FieldRead` | CPP_0_1/src/lib/lua/lapi.c:550-568 | Exactly the one slot changes, to the value of the field, or nil where there is none. |
| `Observation.GlobalsWritten` | CPP_0_1/src/lib/lua/lapi.c:199-218 | Exactly the globals of the running thread change. |
| `Observation.TopMovedTo` | CPP_0_1/src/lib/lua/lapi.c:160-172 | Slots in use below the new top keep their values, and all others read as nil. |
| `Observation.OpenUpvalueIsSlot` | CPP_0_1/src/lib/lua/lvm.c:422-426 | An open upvalue of the running thread has the value of its slot. |
| `Observation.UpvalueWritten` | CPP_0_1/src/lib/lua/lvm.c:446-451 | The upvalue reads back as the value stored, and every other upvalue as before. |
| `Observation.UpvaluesClosed` | CPP_0_1/src/lib/lua/lfunc.c:96-112 | No upvalue and no slot changes its value, and what is still open is below the level. |
| `Observation.ThreadResumed` | CPP_0_1/src/lib/lua/ldo.c:416-437 | The thread in the slot runs next, and nothing else changes. |
| `Observation.ObjectMade` | CPP_0_1/src/lib/lua/lapi.c:571-577 | One new object with exactly the given field, in the given slot. |
| `Observation.ThreadMade` | CPP_0_1/src/lib/lua/lstate.c:119-131 | One new thread with the globals of the running one and a stack of nils. |
| `Observation.StringMade` | CPP_0_1/src/lib/lua/lstring.c:75-93 | The slot holds the only string object with the content. |
| `Observation.ClosureMade` | CPP_0_1/src/lib/lua/lvm.c:718-737 | One new closure whose upvalues are open on the captured slots, in order. |
| `UpvalueRing.Ring.Link` | CPP_0_1/src/lib/lua/lfunc.c:70-78 | The new upvalue is first on the doubly linked list, and prev and next agree at every node. |
| `UpvalueRing.Ring.Unlink` | CPP_0_1/src/lib/lua/lfunc.c:82-86 | Exactly the one node is gone, its neighbours are joined, and no other link changes. |
| `UpvalueRing.Ring.Walk` | CPP_0_1/src/lib/lua/lgc.c:513-520 | Following next from the head visits the open upvalues in order and ends. |
| `CallStack.LuaThread.CheckStack` | CPP_0_1/src/lib/lua/ldo.c:141-166 | Afterwards n more values fit below the limit; the array grows by its rule and only when it must, and every slot keeps its value at its offset. |
| `CallStack.LuaThread.AdjustVarargs` | CPP_0_1/src/lib/lua/ldo.c:208-240 | The parameters stand above all arguments and leave nil behind, missing ones are nil, and the rest stay below as varargs or become the arg table. |
| `CallStack.LuaThread.EnterLua` | CPP_0_1/src/lib/lua/ldo.c:264-306 | The callee finds its parameters, padded with nil, and nil in every other register; extra arguments are dropped or stay below base; it fails exactly when the frame does not fit or the array of CallInfos is at its limit. |
| `CallStack.LuaThread.EnterC` | CPP_0_1/src/lib/lua/ldo.c:306-316 | The callee finds exactly its arguments and room for LUA_MINSTACK more. |
| `CallStack.LuaThread.Poscall` | CPP_0_1/src/lib/lua/ldo.c:342-360 | The results, cut or padded with nil to the wanted number, are where the function was; lower slots stay and base and ci are those of the caller. |
| `CallStack.LuaThread.PushVarargs` | CPP_0_1/src/lib/lua/lvm.c:738-760 | The wanted number of varargs, or all of them, are copied from below base. |
| `CallStack.LuaThread.TailCall` | CPP_0_1/src/lib/lua/lvm.c:602-633 | A tail call ends as a call of the callee with the same arguments would, in the CallInfo of the caller. |
| `CallStack.LuaThread.MoveFrame` | CPP_0_1/src/lib/lua/lvm.c:610-627 | The new frame stands in the place of the old one with the same registers and varargs. |
| `CallStack.LuaThread.RunBody` | CPP_0_1/src/lib/lua/ldo.c:264-380 | A function running on the shared stack, with nested calls, protected calls, tail calls and growth in between, ends as it does on registers of its own, and everything below its function slot stays. It fails for want of room only beyond the stated bounds on depth and missing arguments. |
| `CallStack.LuaThread.Call` | CPP_0_1/src/lib/lua/ldo.c:264-360 | Call and return: the outcome is the one the callee has on registers of its own, base, ci and lower slots are restored, and exactly the wanted results are at the function slot. |
| `CallStack.LuaThread.CCall` | CPP_0_1/src/lib/lua/ldo.c:369-380 | The same with the count of nested C calls, which is restored on success and fails at its limits. |
| `CallStack.LuaThread.PCall` | CPP_0_1/src/lib/lua/ldo.c:452-474 | After any failure ci, base, nCcalls and all lower slots are as before; in place of the function is the value that was in the last register of the frame that raised it, or a message that names the failure. |
| `CallMeaning.StartsWith` | CPP_0_1/src/lib/lua/ldo.c:208-304 | A Lua function starts with its arguments in its parameters, nil for those missing and in every other register, and the other arguments as varargs or in the arg table. |
| `CallMeaning.RaisedValue` | CPP_0_1/src/lib/lua/lapi.c:954-960 | A run ends with the error v exactly when it comes to a raise with v in the last register of the raising frame and no protected call around it. |
| `CallMeaning.Caught` | CPP_0_1/src/lib/lua/ldo.c:51-68 | After a protected call in which v is raised the caller goes on with v in place of the function and nothing above it. |
| `CallMeaning.FailuresDiffer` | CPP_0_1/src/lib/lua/ldo.c:51-68 | Failures other than raised values leave values that tell them apart. |
| `CallMeaning.OneOutcome` | CPP_0_1/src/lib/lua/ldo.c:264-380 | Where there is room for all its calls, a function on registers of its own has one outcome. |
| `CallStack.FewParametersFit` | CPP_0_1/src/lib/lua/ldo.c:264-304 | A function with at most EXTRA_STACK + 1 parameters finds room for its frame on every stack. |
| `CallStack.FitsExactly` | CPP_0_1/src/lib/lua/ldo.c:264-304 | The check before a call makes room for the frame from every stack if and only if the function takes no varargs or at most EXTRA_STACK + 2 arguments are missing. |
| `StringBuffer.Buffer.AdjustStack` | CPP_0_1/src/lib/lua/lauxlib.c:404-420 | Merging levels keeps the contents and leaves fewer than LIMIT levels. |
| `StringBuffer.Buffer.PrepBuffer` | CPP_0_1/src/lib/lua/lauxlib.c:423-427 | The contents stay, the char buffer is empty. |
| `StringBuffer.Buffer.AddChar` | CPP_0_1/src/lib/lua/lauxlib.h:134-136 | Appends exactly the character. |
| `StringBuffer.Buffer.AddString` | CPP_0_1/src/lib/lua/lauxlib.c:430-433 | Appends exactly the string. |
| `StringBuffer.Buffer.AddValue` | CPP_0_1/src/lib/lua/lauxlib.c:448-463 | Appends exactly the value on top of the stack, by copying or as a level below which the buffer is put. |
| `StringBuffer.Buffer.PushResult` | CPP_0_1/src/lib/lua/lauxlib.c:441-445 | Leaves one string, the whole contents, on what was on the stack before. |
| `References.RefTable.Ref` | CPP_0_1/src/lib/lua/lauxlib.c:475-495 | The reference returned is not live, live references keep their values, and the free chain stays acyclic and complete. |
| `References.RefTable.Unref` | CPP_0_1/src/lib/lua/lauxlib.c:498-506 | Exactly the one reference is no longer live. |
| `References.RefTable.Value` | CPP_0_1/src/lib/lua/lauxlib.c:475-506 | A live reference yields the value it was given for. |
| `FloatingByte.IntToFb` | CPP_0_1/src/lib/lua/lobject.c:35-44 | The loop yields a byte that denotes the least representable value not below x, for every x but the largest unsigned int. |
| `FloatingByte.EncodesLeast` | CPP_0_1/src/lib/lua/lobject.c:35-51 | The byte denotes the least representable value that is not below x. |
| `FloatingByte.ComesBackExactly` | CPP_0_1/src/lib/lua/lobject.c:35-51 | Decoding the byte yields at least x if and only if x is at most 15 shifted by 27, and then it is the least such value. |
| `FloatingByte.SmallIsExact` | CPP_0_1/src/lib/lua/lobject.c:35-51 | Values below 16 are exact. |
| `FloatingByte.Monotone` | CPP_0_1/src/lib/lua/lobject.c:35-51 | A larger size never gets a smaller value. |
| `FloatingByte.Overshoot` | CPP_0_1/src/lib/lua/lobject.c:35-51 | The value exceeds the size by at most an eighth of it. |
| `GameServers.UpdateServerRule` | CPP_0_1/master-server/MasterCommon.cpp:319-386 | The key has the new value, every other key the old one; the result says whether anything changed. |
| `GameServers.UpdateServer` | CPP_0_1/master-server/MasterCommon.cpp:542-575 | All keys that are not reserved have the values of the source and no others remain; reserved keys stay. |
| `ServerSync.DefaultsThere` | CPP_0_1/master-server/MasterCommon.cpp:268-292 | The reserved keys are exactly those of the default rules, which give the address, the port and a ping of 9999. |
| `ServerSync.DeserializeServer` | CPP_0_1/master-server/MasterCommon.cpp:509-540 | Reading what was written for a server gives its address and exactly its rules that are not reserved, and leaves what follows. |
| `ServerSync.DeserializeRule` | CPP_0_1/master-server/MasterCommon.cpp:426-477 | Reading a written rule gives it back, with at most the first 255 characters of each string; a rule with an empty key or string is refused. |
| `ServerSync.MasterClient.UpdateServerList` | CPP_0_1/master-server/MasterCommon.cpp:577-607 | The server with the address has the new rules, all others stay; a server that is new also has the default rules. |
| `ServerSync.MasterClient.HandleServerListResponse` | CPP_0_1/master-server/MasterClient.cpp:175-237 | After the reply to a query for all servers the client shows exactly the servers of the master with exactly their rules, if and only if the clock has moved on since each other server it knew was updated. |
| `ServerSync.MirrorsExactly` | CPP_0_1/master-server/MasterClient.cpp:215-234 | Deleting what was not updated since the start leaves a mirror if and only if no other server was updated at or after the start. |
| `ServerSort.GameServerList.Partition` | CPP_0_1/master-server/MasterCommon.cpp:137-177 | The range is rearranged around the pivot: nothing before it is out of order with it and everything after it is; no index leaves the range. |
| `ServerSort.GameServerList.QuickSort` | CPP_0_1/master-server/MasterCommon.cpp:84-93 | The range is a sorted rearrangement of itself and the rest stays; the recursion ends. |
| `ServerSort.GameServerList.SortOnKey` | CPP_0_1/master-server/MasterCommon.cpp:73-83 | The servers are a permutation in which numbers are ordered by size and strings as in a dictionary, up or down. |
| `ServerSort.StrcmpPrecedes` | CPP_0_1/master-server/MasterCommon.cpp:94-136 | One string is less than another exactly when it ends first or has the smaller character at the first difference. |
| `ServerSort.OrderedValues` | CPP_0_1/master-server/MasterCommon.cpp:94-136 | The comparators order numbers by size and strings as in a dictionary. |
| `ServerSort.OrderedTrans` | CPP_0_1/master-server/MasterCommon.cpp:94-136 | The comparators are transitive on servers whose keys have one kind of value. |
| `Pings.MasterServer.Visit` | CPP_0_1/master-server/masterserver.cpp:180-209 | The loop, which deletes as it goes, visits every server once. |
| `Pings.VisitedWhenDue` | CPP_0_1/master-server/masterserver.cpp:180-209 | A visit changes a server exactly when the time has reached its next ping: it is pinged, or dropped after four pings. |
| `Pings.MasterServer.HandlePong` | CPP_0_1/master-server/masterserver.cpp:712-737 | Only the first server with the address has its count cleared. |
| `Pings.AlwaysInTime` | CPP_0_1/master-server/masterserver.cpp:180-209 | In every run the count of a server is the number of its unanswered pings, at most 4, and these are at least 20000 ms apart. |
| `Pings.DroppedForSilence` | CPP_0_1/master-server/masterserver.cpp:180-209 | A server is dropped only after exactly four unanswered pings at least 20000 ms apart, 80000 ms or more after the first. |
| `Pings.DroppedOnFifth` | CPP_0_1/master-server/masterserver.cpp:180-209 | A silent server is dropped exactly at its fifth due visit. |
| `Pings.GoneAtOnce` | CPP_0_1/master-server/masterserver.cpp:180-209 | A silent server visited when its ping is due and every 20000 ms from then on survives four of these visits and is gone at the fifth. |
| `Pings.GoneInTime` | CPP_0_1/master-server/masterserver.cpp:180-209 | A silent server visited at most gap apart is gone when 80000 ms and five gaps have passed since its ping was due. |
| `Pings.SpacedExactly` | CPP_0_1/master-server/masterserver.cpp:180-209 | The next ping is at least 20000 ms away if and only if the sum does not wrap around. |

## Findings

Properties one would expect of the code that do not hold of it, each with an input and the exact condition under
which they hold.

| property | fails for | counterexample | holds exactly when |
|---|---|---|---|
| Every run of an accepted function stays on checked instructions (`ldebug.c:365-368`, `ldebug.c:429-432`) | a LOADBOOL that skips a SETLIST whose count is in the next word, and so lands on the count | `Soundness.UnguardedCounterexample` | `Soundness.SoundExactly`, `Soundness.ConfinedExactly`: no reachable LOADBOOL skips such a SETLIST, and none stands at the end |
| An open list of values is always consumed by the next instruction (`ldebug.c:290-301`, `ldebug.c:411-423`; asserted at `lvm.c:606`) | a TAILCALL whose C promises a fixed number of results | `Soundness.DisciplineCounterexample` | `Soundness.DisciplineExactly`: every reachable TAILCALL that promises a fixed number is followed by an instruction that takes an open list |
| The last change of a register is the last instruction on the path that writes it (`ldebug.c:355-357`, `ldebug.c:445-453`) | a VARARG that sets registers 0 and 1: for register 1 it is not taken for a change | `LastWrites.MissedChange` | `LastWrites.ChangesExactly`: for every instruction but TEST, CONCAT, FORLOOP, FORPREP and VARARG, of which only register A counts |
| The stack check of a call makes room for the whole frame (`ldo.c:208-240`, `ldo.c:264-304`; asserted at `ldo.c:292`) | a vararg function with 29 parameters and 30 registers, called with no argument on a new stack | `CallStack.FrameTooHigh` | `CallStack.FitsExactly`: it takes no varargs, or at most 7 arguments are missing; for one call `EnterLua` fails exactly when the frame does not fit |
| A size packed into a byte comes back no smaller (`lobject.c:35-51`) | 15 * 2^27 + 1, whose value is no longer an int | `FloatingByte.TooLarge` | `FloatingByte.ComesBackExactly`: the size is at most 15 * 2^27 |
| A client that has handled a reply to a query for all servers shows the servers of the master (`MasterClient.cpp:175-237`) | a server updated at the very millisecond in which the reply is handled | `ServerSync.ClockStoodStill` | `ServerSync.MirrorsExactly`: every other server was last updated before the start |
| Pings to a server are 20000 ms apart (`masterserver.cpp:180-209`) | a clock close to its wrap-around: five visits in the same millisecond drop the server | `Pings.DroppedAtOnce` | `Pings.SpacedExactly`: the time of the ping plus 20000 does not wrap |

## Left out

Of the code generator and the parser:

- CodeGenerator.FuncState.CodeNot: there are no descriptors for nil, booleans, constants and numbers, so the two branches of its switch for literals are not modelled. With literal operands the always-jump branches of `luaK_goiftrue` and `luaK_goiffalse` mix held-back jumps into value lists.
- CodeGenerator.FuncState.GoIfTrue: without the branches for literals, for the same reason.
- CodeGenerator.FuncState.GoIfFalse: without the branches for literals, for the same reason.
- CodeGenerator.FuncState.DischargeVars: locals and upvalues only; globals, indexed variables, calls and varargs are not operands of the fragment.
- CodeGenerator.FuncState.Discharge2Reg: the cases of the fragment; no constants and numbers.
- CodeGenerator.FuncState.Exp2RK: never a constant operand, because there are none.
- Compiler.StoreVar: locals only; upvalues, globals and table fields are not targets.
- Compiler.CompileFunction: bodies are assignments to locals and one return; loops, calls, tables, constants and nested functions are not compiled, nor is the syntax parsed.
- Values are booleans, nil and everything else; comparisons are an arbitrary relation, without metamethods.
- Line information, constant folding, `luaK_nil` and the merging of LOADNILs.

Of the checker:

- A prototype must not be empty: for one without code the source reads the word before its code.
- CheckerSound speaks of the control flow and operands of each instruction, not of the types of run-time values. The three registers in which TFORLOOP builds its call may lie up to two beyond maxstacksize (`Scratch`), because the checker does not ask for them.

Of the collector:

- Weak tables, finalizers and `GCTM`, `luaC_freeall`, and the pacing of steps (thresholds, debt, estimates).
- Shrinking of stacks (`checkstacksizes`) and dead keys of tables.
- The bytes of marks: the white, black and fixed bits are fields of a record; the finalized and super-fixed bits are not there.
- Linked lists of the collector are sequences of object identities. For the open upvalues the doubly linked ring is modelled by itself in `UpvalueRing`.
- Collector.GlobalState.TraverseStack: every slot above the top is cleared; the source clears up to the largest top of a call in the atomic phase only, and leaves beyond it slots that no frame reaches.
- Table contents are a sequence of references; hashing, the array part and `ltable.c` are not modelled. The hash of strings is an arbitrary function.
- Interpreter.NewString: the growth of the table is bounded as in the source, memory failures are not modelled.
- A dying thread closes its upvalues before it leaves the list of objects; the source does it just after unlinking the thread.

Of the call stack:

- CallStack.LuaThread.Call: no hooks, no yields and resumes, no `__call` metamethod, no collection inside the call; open upvalues are not closed on return (that is `Close` in the collector model).
- CallStack.LuaThread.PCall: without a message handler; the error value is the raised value or a message for the failure.
- CallStack.LuaThread.RunBody: a function body is the sequence of its steps that matter to the stack in one run, so branches and loops are unrolled; `Proper` says what the checker and the callers of the library guarantee of them. Errors are raised by library functions; run-time errors of instructions are not steps. The bounds of `Roomy` are sufficient, not exact; each single call fails exactly as `EnterLua`, `EnterC` and `CCall` say.
- CallStack.LuaThread.EnterLua: where the frame does not fit the source would write beyond the array; the model stops with `Overrun`.

Of the rest:

- References.RefTable.Unref: a caller releases only live references, as the manual of the library demands.
- Ordinary keys in the table of references, which do not mix with its positive integers.
- FloatingByte.IntToFb: unsigned arithmetic wraps as in C; a shift in the decoder that leaves the range of an int wraps around, as it does on the usual machines.
- ServerSort.GameServerList.SortOnKey: all servers must have the key with one kind of value. Otherwise the comparators are no consistent order.
- ServerSync.MasterClient.HandleServerListResponse: distinct addresses, unique non-empty keys and string values below 256 characters, and fewer than 65536 rules and servers, as the format needs.
- ServerSync.DeserializeServer: bit streams are sequences of tokens read in the order in which they were written; a server is a value, not a pointer.
- GameServers.UpdateServer: the rules of the source have unique keys, as `UpdateServerRule` keeps them.
- The branch of `HandleQuery` for given keys, registration of users, delisting, the database and all network traffic.
- The game itself: graphics, audio, video, sprites, GUI and its files.
