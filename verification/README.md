# Verified model of a soft PLC runtime

This project models, in Dafny, the parts of a soft PLC on which its operation depends, and
proves what they promise:

- **The compiler from structured text to stack bytecode** (`St`, `Lower`, `Check`, `Generator`,
  `Assembly`, `Binding`, `Compiled`) and the machine it compiles for (`Ir`, `Vm`). A one-pass
  reference lowering with absolute addresses stands between the source semantics and the
  label-and-fixup generator: the generator is proved to produce it, and it is proved to mean
  what the program means (`Simulation`, `ExprCorrect`, `Place`, `StmtCorrect`, `Loops`,
  `Encodes`, with `Sizes`, `Unfold`, `Scope` for layout facts). `Halting` proves that compiled
  code stops whatever memory holds, `Slots` carries that to slot numbers beyond an operand, and
  `Widths` gives a condition on types under which every store fits; `Quirks` and `Overruns` show
  where the compiler accepts more than its code supports. `FbLayout` is the ordering of user
  function blocks and the recursion check.
- **The bytecode verifier** (`Verifier`, `VerifierSound`): its worklist, and what acceptance
  guarantees about every run.
- **Retained memory**: layouts and their validation (`RetainLayout`, `Sorting`), the record
  codec (`RetainCodec`), the remap by name (`RetainMap`), the copies made at a hot swap
  (`RetainBlit`), the two-slot store on disk under crashes (`RetainStore`) and the lock-free
  snapshot buffer under interleaving (`Snapshot`).
- **The scan engine and hot swap** (`Mode`, `Scan`, `Schedule`, `History`, `ScanEngine`): a
  fixed-priority scheduler, a mode machine with latched FAULT, effective outputs and the epoch
  install; and the loader above it (`Loader`, `Runtime`).
- **The rotating audit log** (`AuditLog`) under failing and crashing file operations.
- **Wire formats and batching**: Sparkplug payloads (`Wire`, `Sparkplug`), package and module
  framing (`Spkg`, `Spbc`), grouped Modbus access (`Modbus`).

Objects whose methods change them are classes here (`Codegen`, `Allocator`, `Binder`, `Store`,
`SnapshotBuffer`, `ModeCell`, `EpochHooks`, `ScanEngine`, `Runtime`, `RotatingAudit`, `Cursor`,
`Writer`); every method is proved against a value-level function of the old state, and the
properties of whole runs are lemmas about those functions. Faults and crashes are
nondeterministic outcomes of file operations or parameters of an operation, so a statement
about an operation is about every way it can fail.

`dafny verify dfyconfig.toml` checks everything.

## What was found

Some expectations are false of the code. For each, an input shows that it can fail, and the
condition under which it holds is proved.

- The compiler never compares the width of an assigned value with its target. A store leaves
  its neighbours alone exactly when the value is no wider (`Quirks.NeighboursKept`). An
  assignment of 70000 to an INT compiles (`Quirks.WideAssignmentCompiles`); its two instructions,
  run, change the variable behind the target (`Quirks.WideAssignmentClobbers`). `NOT` of a number
  under AND compiles and verifies too, and its saved operand overruns the data segment
  (`Overruns.NumberUnderAndTraps`). A loop can overwrite its own counter: one that means three
  laps traps in its first (`Overruns.SpoilerTraps`). Compiled code is right on every run on which
  all stores fit (`Compiled.CompiledTask`), which well-typed bodies guarantee
  (`Compiled.CompiledTyped`); and every accepted task halts within its step bound without any
  such condition (`Compiled.TaskHalts`).
- A FOR over literal bounds runs last - first + 1 times exactly when counting stays within 32
  bits (`Loops.ConstantFor`). A loop from 2147483647 to 2147483648 is accepted, with a cap of two
  laps, and makes none (`Quirks.CrossingForSkips`).
- Two names may be bound to one output slot with different widths (`Quirks.SharedSlotBinds`),
  and a slot number is cut to 24 bits: an instruction names its slot exactly when that is below
  2^24 (`Quirks.SlotNamed`).
- Copies planned between `begin_arm` and a swap are right for the swapped-in layout exactly
  when it keeps every taken-over value in place (`RetainBlit.StalePlan`). Nothing prevents a swap
  there: in a run of upload, begin, activate, swap, commit, activate, swap a retained TRUE ends as
  FALSE (`StaleSwap.WrongSwap`). `upload` is not affected (`Loader.UploadsAlwaysMatch`).
- A snapshot read that falls back after eight attempts can return a mixture: a run from the
  initial buffer does (`Snapshot.FallbackTears`). Every other read returns one image
  (`Snapshot.NoTornSnapshot`).
- The function-block recursion check need not end. A walk ends in acceptance exactly when its
  block reaches no cycle, in rejection exactly when it reaches one and a block on its branch
  names it, and otherwise never (`FbLayout.WalkExactly`, `FbLayout.EndsExactly`); three blocks,
  one named like a primitive, show the last (`FbLayout.WalkForever`). With names distinct from
  type names the check always ends (`FbLayout.DistinctEnds`).
- When a rotation of the audit log cannot undo its renames, the log goes on in a rotated file.
  A later rotation keeps the newest row exactly when that file is not the one it drops
  (`AuditLog.RotationExact`); with two files in all it is (`AuditLog.Stranded`). A row whose
  failed write could not be taken back may also be rotated away. When the next row has been
  written, the numbers on disk are consecutive exactly when there was no such row
  (`AuditLog.StaleNumber`); otherwise one is used twice (`AuditLog.NumberTwice`).
- Re-writing a parsed `spbc` module drops bytes after the code (`Spbc.WriteOfParse`).
- Phases are as coded, not as documented: an install that faults leaves phase idle with buffer
  B occupied (`Scan.TryInstall`), an arm the engine refuses leaves phase validating, and a failed
  upload, documented as keeping the phase, sets it by whether buffer B is occupied
  (`Loader.UploadRefused`).

## Model

| member | source | states |
|---|---|---|
| Compiled.CompiledTask | crates/plc-compiler/src/bind.rs:1075-1357 | Main theorem of the compiler: running an entry of a module the compiler accepted, from any memory that holds a state, halts, returns or traps exactly as the structured semantics of its body does on that state, ends in memory holding the resulting state, and takes no more steps than a bound read off the body, provided that every store the run makes fits its target |
| Compiled.TaskHalts | crates/plc-compiler/src/bind.rs:1075-1357 | Every task of an accepted module halts within a bound read off its body, from every machine at its entry: whatever memory and stack hold, however its stores fit, and however large its slot numbers are |
| Compiled.CompiledTyped | crates/plc-compiler/src/bind.rs:1075-1357 | The main theorem under conditions that can be checked before the run: a body whose stores fit by their types, slots shared only by equal widths, and a state of typed values; the run keeps the values typed |
| Compiled.CompiledFresh | crates/plc-vm/src/memory.rs:22-29 | The same for the first run over cleared memory, from the state in which every variable reads FALSE |
| StmtCorrect.StmtRuns | crates/plc-compiler/src/bind.rs:1075-1357 | Code of any statement (assignment, IF, first-match CASE, WHILE, FOR, RETURN), run from any memory holding a state, falls through with the stack as deep as before and memory holding the state the statement means, or returns or traps as it means; every byte of earlier scratch is kept; provided that its stores fit and the stack does not overflow |
| StmtCorrect.SeqRuns | crates/plc-compiler/src/bind.rs:1075-1357 | The same for a statement list, each statement starting where the one before ended |
| StmtCorrect.BranchesRun | crates/plc-compiler/src/bind.rs:1088-1119 | IF / ELSIF: the first true branch runs, and control then leaves past the whole statement |
| StmtCorrect.ArmsRun | crates/plc-compiler/src/bind.rs:1120-1167 | CASE: only the first arm with a matching label runs |
| StmtCorrect.WhileLoop | crates/plc-compiler/src/bind.rs:1168-1229 | WHILE: the compiled loop makes the laps of the bounded semantics, at most the cap, and stops with it |
| StmtCorrect.ForLoop | crates/plc-compiler/src/bind.rs:1230-1355 | FOR: the compiled loop agrees lap by lap with the bounded counting semantics, limit and step read once |
| ExprCorrect.ExprRuns | crates/plc-compiler/src/bind.rs:1683-1865 | Code of any expression leaves its value on top of an otherwise unchanged stack, or traps as evaluation does, within a step bound |
| ExprCorrect.ShortRuns | crates/plc-compiler/src/bind.rs:1750-1853 | Short-circuit AND / OR: the right operand runs only when the left does not decide, and the value is the semantics' |
| Generator.Codegen.EmitExpr | crates/plc-compiler/src/bind.rs:1683-1865 | The label-and-fixup emitter produces, up to patching, the instructions of the one-pass reference lowering, or the same error |
| Generator.Codegen.EmitStmt | crates/plc-compiler/src/bind.rs:1075-1357 | The same for statements; the scratch cursor and the scope move as in the reference |
| Generator.Codegen.AllocTemp | crates/plc-compiler/src/bind.rs:1036-1073 | A temporary starts at or after the end of every global and every earlier temporary, aligned, and the cursor moves past it |
| Generator.Codegen.Finish | crates/plc-compiler/src/bind.rs:1970-2002 | Patching every fixup yields exactly the encoding of the reference instructions with final addresses |
| Generator.CompileTasks | crates/plc-compiler/src/bind.rs:382-470 | All entries compiled one after the other: code, entry table and sizes are the reference's, or the first error is |
| Assembly.PatchedListing | crates/plc-compiler/src/bind.rs:1970-2002 | Patching all fixups of a listing gives the encoding of the instructions it stands for |
| Encodes.EncodedCodeAt | crates/plc-ir/src/encode.rs:43-112 | Encoded instructions decode at their places, one after the other |
| Encodes.StmtSmall | crates/plc-compiler/src/bind.rs:1075-1357 | Every operand the lowering emits fits its 24-bit field when code and segments are within the limit |
| Slots.CutSeq | crates/plc-ir/src/encode.rs:43-112 | Cutting all slot numbers to 24 bits changes neither the checks nor, up to those operands, the code of any statement list |
| Slots.SameBytes | crates/plc-ir/src/encode.rs:43-112 | Instructions with slot numbers cut to 24 bits have the same encoding |
| Scope.StmtExtends | crates/plc-compiler/src/bind.rs:1036-1073 | Lowering a statement moves the cursor only upwards and every new name lies between the old and the new cursor, so scratch of different statements and all globals stay pairwise disjoint |
| Loops.TaskRuns | crates/plc-compiler/src/bind.rs:1075-1357 | A lowered body followed by HALT ends, within its step bound, as the body means |
| Loops.EndsStays | crates/plc-vm/src/exec.rs:267-470 | Once ended, a run's result does not depend on any larger step budget |
| Halting.BodyHalts | crates/plc-compiler/src/bind.rs:1075-1357 | The lowered body of a task, followed by HALT, ends within its step bound from every machine, with no condition on memory, stack or stores |
| Halting.WhileLapsLand | crates/plc-compiler/src/bind.rs:1168-1229 | From its head with the counter at k, the code of a WHILE ends the run or leaves the loop within the steps of k + 1 laps, although its body may overwrite the counter |
| Halting.ForLapsLand | crates/plc-compiler/src/bind.rs:1230-1355 | The same for the code of a FOR, whose variable and limit may be anything |
| Halting.CounterSpared | crates/plc-vm/src/memory.rs:48-136 | Code whose stores start outside a counter leaves it as it was or makes it read as a BOOL |
| Halting.DownLands | crates/plc-compiler/src/bind.rs:1168-1229 | The count-down at the end of a lap leaves the counter one lower, or traps if it was overwritten |
| Loops.StmtKeeps | crates/plc-compiler/src/bind.rs:1036-1073 | A statement that does not assign a variable means a state in which the variable has its old value |
| Loops.ConstantFor | crates/plc-compiler/src/bind.rs:1230-1355 | A completed FOR over literal bounds whose body leaves the variable alone runs last - first + 1 times if and only if counting stays within 32 bits, and otherwise not at all |
| Loops.FreshHolds | crates/plc-vm/src/memory.rs:22-29 | Cleared memory holds a state in which every variable reads FALSE |
| Compiled.Compile | crates/plc-compiler/src/bind.rs:155-484 | Binding, generation, patching and verification: the module of the reference compiler with a certificate of the verifier, or a refusal, which is the first error of the reference or a fault the verifier found in that module |
| Compiled.TaskCodeAt | crates/plc-compiler/src/bind.rs:382-470 | In a compiled module every entry's reference code stands encoded at the entry's address |
| Compiled.TaskLayout | crates/plc-compiler/src/bind.rs:1036-1073 | Variables and scratch of an entry lie inside the declared segments, pairwise disjoint |
| Compiled.TaskNeverOverflows | crates/plc-ir/src/verify.rs:299-354 | No run of a compiled entry overflows the operand stack, because the verifier accepted the module |
| Widths.SoundSeqTame | crates/plc-compiler/src/bind.rs:1576-1681 | A body whose stored values are by their types no wider than their targets makes only stores that fit, from any state of typed values, and leaves such a state |
| Widths.EvalWidth | crates/plc-compiler/src/bind.rs:1683-1865 | An expression evaluates to a value no wider than its static type |
| Binding.Binder.BindSections | crates/plc-compiler/src/bind.rs:744-968 | The imperative binder computes the reference binding or its first error |
| Binding.BindAllKeeps | crates/plc-compiler/src/bind.rs:744-968 | Binding keeps: data cells aligned, disjoint and below the cursor, image slots below the slot count, retain symbols listed with their cells |
| Binding.RetainDisjoint | crates/plc-compiler/src/bind.rs:137-150 | Two retained variables never share a byte |
| Binding.Allocator.Alloc | crates/plc-compiler/src/bind.rs:137-150 | An allocation is aligned and starts where the last ended |
| Quirks.NeighboursKept | crates/plc-compiler/src/bind.rs:1576-1681 | A store leaves everything behind its target alone, in every memory, if and only if the value is no wider than the target |
| Quirks.WideAssignmentCompiles | crates/plc-compiler/src/bind.rs:1576-1681 | A concrete assignment wider than its target that the compiler accepts, its code and its meaning |
| Quirks.WideAssignmentClobbers | crates/plc-vm/src/exec.rs:267-470 | Running its two instructions from any memory that holds a state makes the INT behind the target read TRUE, so memory does not hold what the assignment means |
| Overruns.NumberUnderAndCompiles | crates/plc-compiler/src/bind.rs:1750-1853 | A project of three DINTs and a BOOL with NOT of a DINT under AND compiles to a module that the verifier accepts |
| Overruns.NumberUnderAndTraps | crates/plc-vm/src/exec.rs:267-470 | Run from any memory that holds a state, that module traps on bounds, although its body means an assignment |
| Overruns.SpoilerCompiles | crates/plc-compiler/src/bind.rs:1168-1229 | A project of two INTs whose loop stores 70000 to the second compiles to a module that the verifier accepts |
| Overruns.SpoilerMeans | crates/plc-compiler/src/bind.rs:1168-1229 | Its loop means three assignments |
| Overruns.SpoilerTraps | crates/plc-vm/src/exec.rs:267-470 | Run from any memory it traps in the first lap, because the store made its own counter a BOOL |
| Quirks.CrossingForSkips | crates/plc-compiler/src/bind.rs:1230-1355 | FOR 2147483647 TO 2147483648 is accepted with a cap of two laps, and its body does not run |
| Quirks.SharedSlotBinds | crates/plc-compiler/src/bind.rs:744-968 | Two names of different widths bind to one output slot |
| Quirks.SlotNamed | crates/plc-ir/src/encode.rs:43-112 | An encoded access decodes to its slot if and only if that is below 2^24, and otherwise to its remainder |
| Ir.DecodeOfEncode | crates/plc-ir/src/encode.rs:69-112 | Decoding an encoded instruction at its offset gives the instruction and its length |
| Ir.EncodeOfDecode | crates/plc-ir/src/encode.rs:43-67 | Encoding a decoded instruction gives back the bytes it was decoded from, up to the padding decoding ignores |
| Vm.LoadAfterStore | crates/plc-vm/src/memory.rs:48-136 | A value stored in a segment loads back |
| Vm.LoadFrame | crates/plc-vm/src/memory.rs:88-136 | A load depends only on the bytes and tag of its cell |
| Vm.RunAdd | crates/plc-vm/src/exec.rs:267-470 | Running a + b steps is running a and then b |
| Verifier.VerifyEntry | crates/plc-ir/src/verify.rs:67-354 | The worklist ends; acceptance yields one stack shape per position that every step respects, some position of which halts or returns; a refusal names a reachable abstract configuration that breaks the rule |
| Verifier.VerifyModule | crates/plc-ir/src/verify.rs:15-65 | Acceptance certifies every entry; a refusal is a header fault or some entry's |
| VerifierSound.AcceptedRuns | crates/plc-ir/src/verify.rs:15-354 | Soundness: a run of any length from any entry of an accepted module never underflows the stack and never reaches an unaligned, out-of-range or undecodable position, user calls included; if it traps on bounds, then at a typed segment access, so image slots are always in range |
| VerifierSound.StepFramed | crates/plc-ir/src/verify.rs:299-354 | One step from a framed machine stays framed, and nothing below the current frame's base is touched; a bounds trap can come only from a typed segment access |
| VerifierSound.RunFramed | crates/plc-ir/src/verify.rs:299-354 | The same over runs, user calls included |
| VerifierSound.FrameUntouched | crates/plc-ir/src/verify.rs:299-354 | With user calls, as long as a frame is live no callee pops or changes anything below that frame's base |
| VerifierSound.StepExact | crates/plc-ir/src/verify.rs:356-388 | Without user calls a step keeps the exact stack depth of the position; a bounds trap can come only from a typed segment access, so image slots are always in range |
| VerifierSound.RunExact | crates/plc-ir/src/verify.rs:67-354 | The same over runs; no overflow, no unknown call, image slots always in range |
| VerifierSound.DepthByPosition | crates/plc-ir/src/verify.rs:67-354 | Without user calls, any two runs find equally deep stacks at the same position, and none exceeds 256 |
| RetainLayout.NewLayout | crates/plc-ir/src/retain.rs:53-92 | Sorting and comparing neighbours accepts exactly the lists whose names are non-empty and distinct and whose ranges are in bounds and pairwise disjoint; the layout is the list in name order |
| RetainLayout.RangesClear | crates/plc-ir/src/retain.rs:73-90 | The adjacent-only overlap check decides pairwise disjointness |
| RetainLayout.Get | crates/plc-ir/src/retain.rs:105-112 | Binary search finds exactly the symbol of a name |
| RetainCodec.EncodeRecords | crates/plc-retain/src/codec.rs:33-56 | The encoder writes the records of the image, or refuses a wrong size or long name |
| RetainCodec.DecodeRecords | crates/plc-retain/src/codec.rs:58-94 | The decoder loop is the record-by-record parse, with its errors |
| RetainCodec.DecodeOfEncode | crates/plc-retain/src/codec.rs:33-119 | Decoding an encoded image gives exactly the records taken from the image |
| RetainMap.ApplyRecords | crates/plc-retain/src/map.rs:49-105 | The in-place remap computes the image and the report, or the first failing record, or the clashing names |
| RetainMap.MapRetain | crates/plc-retain/src/map.rs:38-47 | The whole remap from a layout and image to another layout |
| RetainMap.MapKeeps | crates/plc-retain/src/map.rs:49-105 | Every byte of a symbol whose name and type the old layout has is the old byte, at the new place |
| RetainMap.MapZero | crates/plc-retain/src/map.rs:49-105 | Every other byte is zero |
| RetainMap.ImageByte | crates/plc-retain/src/map.rs:49-105 | Each byte of the result comes from the one record whose symbol covers it |
| RetainMap.RecordsConserved | crates/plc-retain/src/map.rs:49-105 | Kept, dropped and incompatible records add up to all records |
| RetainMap.SymbolsConserved | crates/plc-retain/src/map.rs:49-105 | Kept, cold and zeroed symbols add up to all symbols |
| RetainBlit.PlanCopies | crates/plc-runtime/src/loader.rs:772-785 | The copies planned at arming, one per symbol of the same name and type |
| RetainBlit.LoadRetainImage | crates/plc-vm/src/exec.rs:175-216 | Loading an image stores its symbols value by value, and refuses a wrong size |
| RetainBlit.BlitRetain | crates/plc-scan/src/engine.rs:705-715 | Copies in order up to the first that does not fit |
| RetainBlit.CopyUntilAll | crates/plc-scan/src/engine.rs:705-715 | All copies are made exactly when all fit |
| RetainBlit.ShadowSwap | crates/plc-scan/src/engine.rs:705-715 | Any shadow memory with the copies applied over live memory equals the symbolic remap of the live bytes, for every pair of layouts |
| RetainBlit.ShadowStays | crates/plc-scan/src/engine.rs:681-688 | After a deferred install the waiting memory is still such a shadow, so a later attempt is exact too |
| RetainBlit.SwapIsRemap | crates/plc-runtime/src/loader.rs:761-785 | Arming with one snapshot and installing over later live bytes equals remapping the bytes live at install time |
| RetainBlit.StalePlan | crates/plc-runtime/src/loader.rs:332-405 | Copies planned for one layout and installed over another work for every live memory if and only if both layouts keep every taken-over value at the same place |
| StaleSwap.StaleRun | crates/plc-runtime/src/loader.rs:318-447 | In any run of upload, begin, activate, round, commit, activate, round from any running program, both swaps complete, the first exactly, and the second with copies planned for the layout before the first |
| StaleSwap.WrongSwap | crates/plc-runtime/src/loader.rs:318-447 | A concrete such run at whose end a retained variable reads FALSE, although remapping the bytes live at the install gives TRUE |
| RetainStore.EncodeSlot | crates/plc-retain/src/store.rs:346-360 | The slot file: header fields, payload, and the checksum over the file with a zero checksum field |
| RetainStore.SlotRoundTrip | crates/plc-retain/src/store.rs:346-389 | A written slot decodes to its generation and records |
| RetainStore.SlotTorn | crates/plc-retain/src/store.rs:375-389 | No strict prefix of a slot decodes, whatever the checksum function |
| RetainStore.IdxRoundTrip | crates/plc-retain/src/store.rs:391-423 | A written index decodes to its slot and generation |
| RetainStore.IdxAfter | crates/plc-retain/src/store.rs:391-423 | However the writing of an index is cut, the old one is read, or none, or the new one |
| RetainStore.Store.Flush | crates/plc-retain/src/store.rs:134-163 | Flush writes the slot not committed and then the index, cut anywhere by a crash, and reports the bytes written |
| RetainStore.Store.Load | crates/plc-retain/src/store.rs:168-222 | Load fills the caller's image by remapping the chosen slot's records, and reports corruption and missing files |
| RetainStore.FlushKeeps | crates/plc-retain/src/store.rs:134-163 | Cut anywhere, a flush leaves the store durable for the old image or the new one; completed, for the new; the current slot is never written |
| RetainStore.HistoryDurable | crates/plc-retain/src/store.rs:234-320 | Over every history of flushes and crashes a load returns the last completed flush or a later interrupted one, and is never cold after a completed flush |
| RetainStore.GenerationGrows | crates/plc-retain/src/store.rs:288-320 | The loaded generation never decreases |
| RetainStore.FlushThenLoad | crates/plc-retain/src/store.rs:168-222 | After a completed flush, loading into any layout gives the remap of the flushed image |
| RetainStore.SameLayout | crates/plc-retain/src/codec.rs:96-119 | With the same layout every symbol byte comes back and the rest is zero |
| RetainStore.CleanReports | crates/plc-retain/src/store.rs:168-222 | After flushes of which none was interrupted a load reports no corruption, and missing files exactly if there was no flush |
| Snapshot.SnapshotBuffer.Publish | crates/plc-retain/src/snapshot.rs:53-69 | Alone, a publish makes its image the one read next |
| Snapshot.SnapshotBuffer.Read | crates/plc-retain/src/snapshot.rs:72-97 | Alone, a read copies the last published image |
| Snapshot.NoTornSnapshot | crates/plc-retain/src/snapshot.rs:53-97 | Under every interleaving of any number of publishes with reads, a read that returns with equal sequence numbers has copied exactly the image of that number or of the next, never a mixture |
| Snapshot.ReadsAdvance | crates/plc-retain/src/snapshot.rs:72-97 | A read returns a sequence number newer than the one taken before |
| Snapshot.FallbackTears | crates/plc-retain/src/snapshot.rs:91-96 | The last-attempt fallback can return a mixture: a run from the initial buffer in which publishes overtake eight copies returns bytes that were never published together |
| Mode.FaultIsLatched | crates/plc-scan/src/mode.rs:154-180 | FAULT is left only by a reset request, only into STOP, clearing forces; no request enters it |
| Mode.RunNeedsReset | crates/plc-scan/src/mode.rs:154-180 | RUN is never entered from FAULT, and SIM only from STOP |
| Mode.ModeCell.TakePending | crates/plc-scan/src/mode.rs:127-146 | Applying a pending request: new mode, whether forces clear, or one more rejection |
| Mode.EpochHooks.SetFirstScanAll | crates/plc-scan/src/hooks.rs:106-112 | Every entry's first-scan bit is set |
| Mode.OutputPriority | crates/plc-io/src/force.rs:96-115 | A force or a program value reaches the field only when nothing safer applies; otherwise the safe value does |
| ScanEngine.ScheduleOrder | crates/plc-scan/src/engine.rs:277-283 | The schedule order lists every entry once, by falling priority and then by name |
| ScanEngine.ScanEngine.Pick | crates/plc-scan/src/engine.rs:776-781 | The first due entry of the order |
| ScanEngine.ScanEngine.TryEpochInstall | crates/plc-scan/src/engine.rs:647-692 | The install attempt is the value-level install: not now, faulted keeping buffer B with phase idle, deferred, or installed |
| ScanEngine.ScanEngine.Commit | crates/plc-scan/src/engine.rs:717-774 | The commit: skipped runs, new program and entries, first scans, outputs reset by policy |
| ScanEngine.ScanEngine.InvokeTask | crates/plc-scan/src/engine.rs:788-857 | One invocation: inputs, logic, watchdog, outputs, bookkeeping, in that order |
| ScanEngine.ScanEngine.Drive | crates/plc-scan/src/engine.rs:951-1018 | The output phase appends exactly the resolved values and the force-safe flag to what the driver was given |
| ScanEngine.ScanEngine.Step | crates/plc-scan/src/engine.rs:611-622 | At most one invocation, after the mode boundary and an install attempt |
| ScanEngine.ScanEngine.RunDue | crates/plc-scan/src/engine.rs:595-608 | All due invocations, an install attempted before each; ends for every clock that stays below a limit |
| Schedule.PickIsHighest | crates/plc-scan/src/engine.rs:776-781 | The picked entry is due and no due entry has higher priority (or the same and a lesser name); none is picked exactly when none is due |
| Schedule.InvokePays | crates/plc-scan/src/engine.rs:788-857 | An invocation of a due entry lowers what is owed by exactly one, whatever its inputs, logic and driver do |
| Schedule.InstallPays | crates/plc-scan/src/engine.rs:717-725 | An install lowers what is owed by one for every other due entry, and any other outcome by nothing |
| Schedule.RunDueExact | crates/plc-scan/src/engine.rs:595-608 | On a frozen clock a round makes exactly the sum over due entries of floor((now - due) / period) + 1 invocations, less one for each other due entry if it installs; afterwards nothing is due |
| Schedule.InvokeOnPeriod | crates/plc-scan/src/engine.rs:788-857 | An invocation keeps next_due equal to period times (runs + skips) |
| History.AlwaysOnPeriod | crates/plc-scan/src/engine.rs:595-857 | At every point of every run each entry's next_due is its period times its runs and skips |
| History.OutputsSafe | crates/plc-scan/src/engine.rs:951-1018 | Over every run: each driver write in FAULT, in STOP under the safe policy or before any success carries force_safe and exactly the safe vector, and no other write carries force_safe |
| History.SafeUntilSuccess | crates/plc-scan/src/engine.rs:951-1018 | Until some invocation's logic succeeds, every write carries the safe vector, whatever is forced or requested |
| History.FaultExit | crates/plc-scan/src/mode.rs:154-180 | The one event that leaves FAULT: a boundary outside a swap with a reset pending, into STOP with forces cleared |
| History.FaultHolds | crates/plc-scan/src/engine.rs:624-642 | Without a reset request FAULT lasts for the whole run |
| History.QuietInvocation | crates/plc-scan/src/engine.rs:788-857 | Outside RUN and SIM an invocation leaves program memory, buffers and the output image as they were |
| History.InvokeModes | crates/plc-scan/src/engine.rs:783-857 | An invocation changes the mode only to FAULT, and then clears the forces |
| History.InstallOutputs | crates/plc-scan/src/engine.rs:717-774 | A completed install leaves every output at its safe value under safe reset and untouched under bumpless; any other outcome leaves outputs alone |
| History.BumplessHolds | crates/plc-scan/src/engine.rs:928-949 | After a bumpless swap an output keeps its value over every run until a successful run of the new program writes it |
| History.WatchdogTrips | crates/plc-scan/src/watchdog.rs:83-96 | The watchdog trips exactly when the last invocations, as many as the limit and at least one, all overran |
| History.RoundIsRun | crates/plc-scan/src/engine.rs:595-608 | The scheduler's rounds are runs of those events |
| Loader.PrepareArm | crates/plc-runtime/src/loader.rs:386-396 | Preparation away from the engine: the prepared program, or nothing at the first failing step |
| Loader.PrepareOk | crates/plc-runtime/src/loader.rs:685-801 | Identity, layout and program prepared from a package are all that package's |
| Loader.Run | crates/plc-runtime/src/loader.rs:318-447 | Over every run of uploads, begins, commits, aborts, disarms, activates, rounds and requests, the layer describes both engine buffers: layout and information present exactly with the program, of the same package, of the right size; an activate request and phase armed imply an occupied buffer B |
| Loader.RoundCoupled | crates/plc-runtime/src/loader.rs:638-651 | Any scheduling round followed by one synchronisation keeps that |
| Loader.UploadRefused | crates/plc-runtime/src/loader.rs:318-370 | A failed upload changes nothing but the phase, and to which phase exactly |
| Loader.UploadAccepted | crates/plc-runtime/src/loader.rs:318-405 | An upload succeeds exactly when no swap is requested, the package builds and the image fits; then only buffer B, its layout, information and the phase changed |
| Loader.DeferredKeeps | crates/plc-scan/src/engine.rs:681-688 | A refused or deferred install changes no current program, layout, mode, output or schedule, and the same program keeps waiting, in everything but its retain bytes |
| Loader.InstallRemaps | crates/plc-scan/src/engine.rs:647-745 | While buffer B is planned for the running program an install cannot fault, and a completed one leaves the remap of the bytes live at that moment and promotes layout and information |
| Loader.UploadsAlwaysMatch | crates/plc-runtime/src/loader.rs:318-329 | Over every run in which programs are armed by uploads, that is always so |
| Loader.DoMatched | crates/plc-runtime/src/loader.rs:397-407 | A separate commit keeps it when what it commits was prepared for the layout current at the commit |
| Runtime.Runtime.UploadPackage | crates/plc-runtime/src/loader.rs:318-329 | The upload method is the value-level upload and keeps the coupling |
| Runtime.Runtime.RequestSwap | crates/plc-runtime/src/loader.rs:421-430 | Activate, dropping layout and information when the program already runs |
| Runtime.Runtime.Step | crates/plc-runtime/src/loader.rs:433-438 | A step is a round of three events and a synchronisation, and keeps the coupling |
| Runtime.Runtime.RunDue | crates/plc-runtime/src/loader.rs:441-446 | A round of due invocations is such a run too |
| AuditLog.ShiftKeeps | crates/plc-api/src/audit_log.rs:250-289 | No rename of a rotation or its undoing loses, adds or reorders a row |
| AuditLog.RotatingAudit.Rotate | crates/plc-api/src/audit_log.rs:170-206 | However rotation ends, by success, a failed operation, an undo that fails too, or a crash at any point, at most the oldest rotated file is lost and, unless it crashed, the log goes on, on the new file or the old one; provided that no row waits to be taken back and the newest file is not the one to be dropped |
| AuditLog.RotationExact | crates/plc-api/src/audit_log.rs:170-272 | After a complete rotation the newest row is readable if and only if its file was not the one dropped |
| AuditLog.Stranded | crates/plc-api/src/audit_log.rs:274-288 | With two files, a rotation that could neither finish nor be undone, then one that finishes: every row is gone |
| AuditLog.RotatingAudit.AbortRotate | crates/plc-api/src/audit_log.rs:274-288 | Undoing a failed rotation, of which any part may fail, loses no row and leaves the handle on the newest file, if no row waits to be taken back |
| AuditLog.RotatingAudit.CommitLine | crates/plc-api/src/audit_log.rs:310-331 | A line is written whole, or the file is put back, or, if that fails, one whole row stays behind the acknowledged ones until it is taken back |
| AuditLog.RotatingAudit.Append | crates/plc-api/src/audit_log.rs:135-168 | A successful append adds exactly the next number; any other acknowledges nothing and leaves at most that one row on disk; numbers stay consecutive and at most the oldest rotated file is lost, on the same condition when it rotates |
| AuditLog.RotatingAudit.RewindTo | crates/plc-api/src/audit_log.rs:325-331 | Taking back cuts exactly what stands behind the acknowledged rows, or fails and leaves it |
| AuditLog.StaleNumber | crates/plc-api/src/audit_log.rs:135-168 | When the next row is written after a complete rotation, the numbers on disk are consecutive if and only if no row that should have been taken back was rotated away |
| AuditLog.NumberTwice | crates/plc-api/src/audit_log.rs:135-206 | Two files in which the rows are then numbered 1, 2, 2 |
| AuditLog.RotationLoses | crates/plc-api/src/audit_log.rs:170-272 | A complete rotation drops exactly the rows of the oldest file and keeps all others in order |
| AuditLog.RotatingAudit.Reopen | crates/plc-api/src/audit_log.rs:60-87 | Opening over whatever a crash left loses nothing visible but a last row without its newline, cuts a torn line, and numbers on after the last row kept |
| AuditLog.RotatingAudit.MaxSeq | crates/plc-api/src/audit_log.rs:411-422 | The greatest readable number is that of the last row on disk |
| AuditLog.RotatingAudit.Page | crates/plc-api/src/audit_log.rs:90-133 | A page is the rows above the cursor, oldest first, truncated to the limit, although files are passed over by their last row; beside appends, those of the files opened with what the newest held when it was looked at or read |
| AuditLog.TrailingSeq | crates/plc-api/src/audit_log.rs:392-409 | The greatest number in the last bytes of a file, if a whole row lies there |
| Wire.VarintRoundTrip | crates/plc-telemetry/src/protobuf.rs:306-359 | Base-128 varints below 2^64 written anywhere in a buffer read back |
| Wire.FieldRead | crates/plc-telemetry/src/protobuf.rs:302-390 | Every writable field reads back, of every wire type written |
| Wire.FoldWritten | crates/plc-telemetry/src/protobuf.rs:84-122 | Reading a written message field by field is folding over its fields |
| Wire.Cursor.ReadVarint | crates/plc-telemetry/src/protobuf.rs:349-359 | The cursor loop is the specified varint read, with its ten-byte limit |
| Sparkplug.PayloadRoundTrip | crates/plc-telemetry/src/protobuf.rs:84-122 | Decoding an encoded payload gives the payload, for every payload |
| Sparkplug.MetricRoundTrip | crates/plc-telemetry/src/protobuf.rs:135-188 | The same for metrics with nested property sets and every value kind |
| Sparkplug.SetRoundTrip | crates/plc-telemetry/src/protobuf.rs:190-278 | Keys-then-values property sets come back in order |
| Sparkplug.Encode | crates/plc-telemetry/src/protobuf.rs:84-101 | The encoder writes the payload's fields |
| Sparkplug.Decode | crates/plc-telemetry/src/protobuf.rs:104-122 | The decoder loop is the specified fold, skipping unknown fields |
| Sparkplug.EncodingsDiffer | crates/plc-telemetry/src/protobuf.rs:84-122 | Different payloads have different encodings |
| Modbus.CheckOverlaps | crates/plc-io-modbus/src/validate.rs:283-298 | Accepts exactly the points whose ranges are pairwise disjoint within each table, comparing only neighbours |
| Modbus.BuildGroups | crates/plc-io-modbus/src/driver.rs:368-411 | Groups hold the wanted points in address order; each group's spans tile its range within the limit; no group could have taken the next group's first point |
| Modbus.InOrderExact | crates/plc-io-modbus/src/driver.rs:373-374 | That order has every wanted point exactly once, by rising address |
| Modbus.WriteRegisters | crates/plc-io-modbus/src/driver.rs:661-680 | Grouped register writes leave the image single writes in address order leave |
| Modbus.WriteCoils | crates/plc-io-modbus/src/driver.rs:643-660 | The same for coils |
| Modbus.GroupedWriteExact | crates/plc-io-modbus/src/driver.rs:635-681 | For points that passed the overlap check the grouped write leaves an image that holds every point's words and is otherwise unchanged, so the order of single writes does not matter |
| Modbus.WriteHolding | crates/plc-io-modbus/src/driver.rs:368-681 | Validation, grouping and grouped register writes together: clashing points are refused, otherwise every point holds its words and nothing else changed |
| Modbus.WriteCoilTable | crates/plc-io-modbus/src/driver.rs:368-681 | The same for coils |
| Modbus.WriteBits | crates/plc-io-modbus/src/driver.rs:679-695 | Read-modify-write of single register bits sets every point's bit and changes no other bit and no other register |
| Modbus.SetBitOnly | crates/plc-io-modbus/src/driver.rs:679-695 | Setting or clearing a bit changes that bit only |
| Modbus.ReadRegisters | crates/plc-io-modbus/src/driver.rs:517-584 | Every member of a group read gets exactly its own registers |
| Modbus.ReadBits | crates/plc-io-modbus/src/driver.rs:558-568 | Every member of a bit read gets its own bit out of the packed bytes |
| Modbus.PackedAt | crates/plc-io-modbus/src/driver.rs:562-566 | Bit k of packed bits is bit k |
| FbLayout.LayoutAll | crates/plc-compiler/src/bind.rs:215-249 | The fixpoint ends; success means the composition is acyclic and stuck means it is not (or a block is bad); the round limit bites only beyond ten thousand blocks |
| FbLayout.CheckRecursion | crates/plc-compiler/src/bind.rs:698-741 | The check, whenever it ends, accepts only if every walk finishes and rejects only if some walk rejects |
| FbLayout.WalkExactly | crates/plc-compiler/src/bind.rs:698-741 | The walk without a visited set accepts if and only if its block reaches no cycle, rejects if and only if it reaches one and a block on its branch names the start, and otherwise never ends |
| FbLayout.AllAccepted | crates/plc-compiler/src/bind.rs:698-741 | Every walk accepts if and only if the composition is acyclic |
| FbLayout.EndsExactly | crates/plc-compiler/src/bind.rs:698-741 | The check over all blocks ends if and only if every endless walk comes after one that rejects |
| FbLayout.LoopNotAccepted | crates/plc-compiler/src/bind.rs:698-741 | A block that reaches a cycle is never accepted, however long the walk |
| FbLayout.DistinctEnds | crates/plc-compiler/src/bind.rs:215-255 | With names distinct from type names the check ends after every successful layout, over an acyclic composition |
| FbLayout.LayoutThenCheck | crates/plc-compiler/src/bind.rs:215-255 | Whenever both end, they accept exactly the projects that can be laid out and whose composition is acyclic (up to the round limit) |
| FbLayout.WalkForever | crates/plc-compiler/src/bind.rs:698-741 | Blocks named like primitives pass the layout and make the walk run forever |
| Spkg.Write | crates/plc-package/src/format.rs:146-176 | Writes exactly the packages with a section that fit the limits |
| Spkg.Parse | crates/plc-package/src/format.rs:62-143 | The parser loop is the specified parse, with its errors |
| Spkg.ParseOfWrite | crates/plc-package/src/format.rs:62-176 | A written package parses back to itself exactly when its manifest parses; the section-count bound refuses no written package |
| Spkg.WriteOfParse | crates/plc-package/src/format.rs:62-176 | Every accepted buffer is what writing the parsed package gives |
| Spbc.Write | crates/plc-ir/src/spbc.rs:90-122 | Writes the framed module; fails only for an entry name too long |
| Spbc.Parse | crates/plc-ir/src/spbc.rs:7-88 | The parser loop is the specified parse |
| Spbc.RoundTrip | crates/plc-ir/src/spbc.rs:7-122 | A module survives framing if and only if its flags follow its names and its constant size its data |
| Spbc.WriteOfParse | crates/plc-ir/src/spbc.rs:7-122 | An accepted buffer is the written module followed by bytes that parsing ignores |

## Left out

Main parts of the repository without a model: the lexer and parser, the text assembler, the
REST and MQTT services, user authentication, configuration loading, drivers other than the
Modbus grouping, metrics, and the primitive function blocks (uninterpreted in the machine).

Compiler and machine:

- Compiled.CompiledTask: for programs over elementary variables with assignment, IF, CASE, WHILE, FOR and RETURN; function block calls, arrays, MOD and struct paths are not modelled. It asks that every store the run makes fits its target (`TameSeq`), which the compiler does not check and without which the meaning is lost (`Overruns`), that image slots number at most 2^24 (`Quirks.SlotNamed`), and that the code is shorter than 2^32 bytes, since the verifier's size check compares a 32-bit length.
- Compiled.TaskHalts: for the same programs and code lengths, with no other condition.
- StmtCorrect.StmtRuns: about runs whose stores fit (`TameStmt`) and that do not overflow the operand stack (`NeverOverflows`); for compiled modules acceptance by the verifier gives the latter (`Compiled.TaskNeverOverflows`).
- Encodes.StmtSmall: beyond the 24-bit limit the code truncates operands silently, which is modelled for image slots only.
- Compiled.Compile: programs without function block bodies; the manifest beside the module is not modelled.
- Binding.Binder.BindSections: elementary variables only; instances, arrays and the tag dictionary are not modelled.
- Names are compared as given; the code folds their case first.
- Real arithmetic and the primitive blocks are functions of a platform record; integer arithmetic wraps as the machine does.
- Which segment addresses user function blocks use is part of the machine but not of the compiler model.

Verifier:

- VerifierSound.AcceptedRuns: states stack depth, control flow and decoding; value types are not claimed, because an unknown type is compatible with any other and offset checks are skipped for empty segments. With user calls the 256 bound is not claimed, since a called block may leave values behind.
- VerifierSound.DepthByPosition: for entries whose reachable code makes no user call.

Retained memory:

- Checksums are a parameter: tears that are strict prefixes are refused by the length checks alone, and no other tear is modelled. UTF-8 validity of names is a parameter.
- RetainStore.HistoryDurable: for fewer flushes than the saturation point of the 64-bit generation counter; files change only through the store.
- Snapshot.NoTornSnapshot: sequentially consistent steps, one writer, one reader, no wrap of the 64-bit sequence number; the last-attempt fallback is excluded from it and shown to tear.

Scan engine and loader:

- The machine behind a program is its retain memory, its output image and whether a run succeeds; quality, driver results, durations and clock readings are parameters of each event. `%M` memory, input values, telemetry, the field gate, the hardware watchdog and remote inputs are not modelled.
- Schedule.RunDueExact: the exact count is for a frozen clock; for a moving clock `ScanEngine.RunDue` asks for a limit on the readings, without which a round need not end.
- Counters and due times are unbounded; the code saturates 64-bit ones.
- Loader.Run: packages arrive parsed, signature decided and code verified or not (parameters); whether the image fits is a parameter. Each package is identified by a build number that its layout and information share. Uploader, tag dictionary, snapshot resizing and the direct tag reads are not modelled.
- Runtime.Runtime.UploadPackage: without uploader, tag dictionary and snapshot resizing.
- Runtime.Runtime.RequestSwap: without uploader and tag state.
- Runtime.Runtime.Step: without the publication of snapshots and telemetry after the step.
- Runtime.Runtime.RunDue: the same.
- Loader.InstallRemaps: about retain bytes; type tags move with the copies but are not claimed.

Audit log:

- AuditLog.RotatingAudit.Append: when a rotation is due, claims hold if no row waits to be taken back and the newest file is not the next to be dropped; `StaleNumber` and `Stranded` show that both are needed.
- AuditLog.RotatingAudit.AbortRotate: nothing is claimed while a row waits to be taken back.
- AuditLog.RotatingAudit.Page: an append beside it may change what the newest file holds before each of its two reads; its rows are taken to ascend at the first of them, and each read is taken to see one content.
- File operations take effect in order. A crash during one leaves it done or not done; a row cut by a crash is a torn tail.
- Row contents are text and a size; JSON is not modelled.

Wire formats:

- Sparkplug.PayloadRoundTrip: floats are their 32 bits; lengths fit 64 bits.
- Modbus: conversion between values and words is a parameter; timeouts and reconnects are not modelled. Addresses are below 9999, as five-digit references are, so 16-bit saturation in the grouping never happens.
- Spkg.ParseOfWrite: the manifest parser and the guess at CBOR input are parameters.
- Spbc.RoundTrip: lengths fit their 32-bit fields; the code truncates longer ones.

Function-block layout:

- FbLayout.LayoutAll: sizes, offsets and the choice among error messages are not modelled; a block is its type names and whether some variable is rejected in any case.
