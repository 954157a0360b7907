# jit::Compiler — a verified model

Rubinius compiles hot methods and blocks to machine code on a background
thread. `jit::Compiler` drives one compile request through that pipeline:

- `compile` dispatches to `compile_method` or `compile_block`.
- Either one roots the inlining context at a `JITMethodInfo` and runs a
  builder through `compile_builder`.
- `compile_builder` keeps the IR function only if the builder could translate
  the body.
- `generate_function` then does the rest, once. It enters the
  GC-independent state (when asked to). It erases the empty basic blocks
  nobody jumps to, and flags non-empty blocks without a terminator as
  `Broken`. It consults the verifier, runs the optimization passes and the
  execution engine, and accounts the machine-code bytes. It releases the IR
  body (unless in JIT debug mode), returns to the GC-dependent state, hands
  the code to the runtime-data holder and registers that holder as a code
  resource.
- `function_pointer` reports the entry address, or NULL until code exists.

The model is imperative, as the source is:

- `Jit.Compiler` is a class with the fields `func` (`function_`) and `mci`
  (`mci_`) that its methods update.
  Its `Valid()` also says that a function still waiting for code keeps its
  body, and the compile methods take the builder's new, unreleased function,
  so the engine never lowers a released body.
- `IR.IRFunction` holds the block list that the cleanup loops edit.
- `Runtime.LLVMState` holds the GC-independence flag, the code-byte counter
  and the code-resource registry.
- `Runtime.RuntimeDataHolder` receives the installed code.

Every step the compiler takes is appended to a ghost event trace on
`LLVMState`. `LLVMState.Valid()` ties the counter, the registry length and
the GC state to that trace. The promises about order and balance are stated
on two functions:

- `Jit.GenerateTrace` gives the exact sequence of steps of one
  `generate_function` pipeline run.
- `Jit.BuildTrace` does the same for one `compile`.

`Jit.Compiler.GenerateFunction` and the compile methods are proved to append
exactly those sequences. The lemmas in `JitProperties` then prove, about
those sequences, what the source promises.

The backend is represented by oracles (`Runtime.Backend`):

- The verifier rejects a function when some block does not end in a
  terminator (empty blocks included), or when an uninterpreted
  `otherDefect` holds.
- The execution engine maps the cleaned block list to an address and a size.

Files:

- `wrappers.dfy`: `Option`.
- `ir.dfy`: blocks, the cleanup specification (`Kept`, `RemovableIds`,
  `Without`), the scan loop, the `IRFunction` class with the erase loop, and
  the cleanup lemmas.
- `runtime.dfy`: code info, events and trace counting, the backend oracles,
  `RuntimeDataHolder` and `LLVMState`.
- `jit.dfy`: requests and `JITMethodInfo`, `Context`, the `Compiler` class,
  the trace specifications, and module `JitProperties` with the lemmas and
  two client scenarios.

Two behaviours of the code are worth stating because a reader might expect
otherwise; the model follows the code:

- A block without a parent is not rejected: `vmm->parent()` is only
  asserted under `jit_inline_debug` (vm/llvm/jit_compiler.cpp:148-149), so
  `CompileBlock` accepts any block.
- Empty blocks that have predecessors are reported and kept
  (vm/llvm/jit_compiler.cpp:79-81); only empty blocks nobody jumps to are
  erased. The model keeps them too (`IR.UsedEmptyBlockSurvives`), and the
  verifier then rejects the function, because one of its blocks has no
  terminator.

## Model

| member | source | states |
|---|---|---|
| Jit.Compiler.FunctionPointer | vm/llvm/jit_compiler.cpp:47-50 | NULL exactly when no machine code is installed; otherwise the installed entry address |
| Jit.Compiler.GenerateFunction | vm/llvm/jit_compiler.cpp:57-137 | with code installed: returns the cached address and changes nothing (no cleanup, verify, passes, JIT, bytes or registration); with no function: returns NULL and changes nothing, no GC toggle; otherwise the blocks become the cleaned list, the trace grows by exactly `GenerateTrace` (toggle, cleanup, verdict, then the abort or success steps), and on failure the result is NULL with `function_` null, `mci_` still null, no bytes and no registration, while on success the result is the lowered address, bytes grow by its size, the holder carries the code and is registered once; the registry holds the holder once iff code is installed |
| Jit.Compiler.RunPipeline | vm/llvm/jit_compiler.cpp:61-134 | the pipeline for a function without code: failure iff the scan found a missing terminator or the verifier rejects the cleaned blocks, with the abort and success outcomes as above |
| Jit.Compiler.Check | vm/llvm/jit_compiler.cpp:61-96 | enters GC independence when indy, then cleans the blocks (the cleanup step is recorded after the toggle); `Broken` is the scan verdict; the verifier is consulted only when the scan found nothing (short-circuit `or`), and on the cleaned blocks |
| Jit.Compiler.CleanBlocks | vm/llvm/jit_compiler.cpp:67-94 | the block list becomes the cleaned list and the answer is the scan's `Broken`; one cleanup step is recorded; GC state, counter and registry unchanged |
| Jit.Compiler.Abort | vm/llvm/jit_compiler.cpp:101-103 | `function_` becomes null; GC-dependent again when indy; counters and registry untouched |
| Jit.Compiler.Install | vm/llvm/jit_compiler.cpp:106-133 | lowering and accounting, then registration, in that order; the holder receives exactly the lowered code |
| Jit.Compiler.Lower | vm/llvm/jit_compiler.cpp:106-123 | passes, then the JIT on the still unreleased body; `mci_` holds what the engine reports; bytes grow by exactly its size; after the JIT the body is released iff not in debug mode |
| Jit.Compiler.Release | vm/llvm/jit_compiler.cpp:121-123 | the body is released and the step is recorded in the same call, so the release lands where the trace says; blocks, GC state, counter and registry unchanged |
| Jit.Compiler.Register | vm/llvm/jit_compiler.cpp:125-133 | GC-dependent again when indy, then `set_function` with the code, then the holder is appended once to the registry |
| Jit.Compiler.HandOver | vm/llvm/jit_compiler.cpp:129-130 | the holder receives the function and the code and the step is recorded in the same call, so the hand-over lands where the trace says; GC state, counter and registry unchanged |
| Jit.Compiler.Root | vm/llvm/jit_compiler.cpp:165-168 | the context's root becomes the info; set_root then setup are recorded; the GC state, counter and registry are unchanged (also the steps at lines 194-197 of compile_method) |
| Jit.Context.SetRoot | vm/llvm/jit_compiler.cpp:165 | the context's root becomes the given unit info (also called at line 194 by compile_method) |
| Jit.Compiler.Compile | vm/llvm/jit_compiler.cpp:139-145 | the block builder runs iff the request is for a block; the context root is the matching `JITMethodInfo`; `function_` is the builder's function iff the body was generated |
| Jit.Compiler.CompileBlock | vm/llvm/jit_compiler.cpp:147-171 | the root is a block unit over the block's body, with no receiver class; no parent is demanded; root set, then setup, then the builder |
| Jit.Compiler.CompileMethod | vm/llvm/jit_compiler.cpp:173-200 | the root is a method unit over the method's backend body; the receiver class is recorded only when the request carries one |
| Jit.Compiler.CompileBuilder | vm/llvm/jit_compiler.cpp:202-216 | if `generate_body` fails: `function_` is null and no hard return is generated; otherwise `generate_hard_return` runs once and `function_` is the info's function; no counter or registry changes |
| IR.ScanBlocks | vm/llvm/jit_compiler.cpp:67-88 | `to_remove` is exactly the ids of the empty blocks with no predecessors, in list order; `Broken` iff some non-empty block's last instruction is not a terminator |
| IR.IRFunction.EraseBlocks | vm/llvm/jit_compiler.cpp:90-94 | the list afterwards is the old list without every block whose id was collected; ids stay distinct |
| IR.IRFunction.Cleanup | vm/llvm/jit_compiler.cpp:67-94 | after the scan and the erase loop the list is `Kept(old list)`, and the answer is `Broken` for the old list |
| IR.IRFunction.DropAllReferences | vm/llvm/jit_compiler.cpp:121-123 | the body is marked released; the block list is unchanged |
| IR.RemovableIdsMembers | vm/llvm/jit_compiler.cpp:74-78 | an id is collected iff it belongs to an empty block with no predecessors |
| IR.KeptMembers | vm/llvm/jit_compiler.cpp:74-94 | a block survives cleanup iff it was in the list and is not an empty block without predecessors |
| IR.KeptNonEmpty | vm/llvm/jit_compiler.cpp:74-94 | every non-empty block survives, in its original order |
| IR.KeptSize | vm/llvm/jit_compiler.cpp:67-94 | surviving blocks plus collected ids account for every block |
| IR.KeptIdempotent | vm/llvm/jit_compiler.cpp:67-94 | cleaning a cleaned list changes nothing and collects nothing |
| IR.EraseRemovableLeavesKept | vm/llvm/jit_compiler.cpp:90-94 | with distinct block ids, erasing the collected ids from the list gives exactly the kept blocks |
| IR.KeptDistinct | vm/llvm/jit_compiler.cpp:90-94 | cleanup keeps block identities distinct |
| IR.RemovableBlockIsInvisible | vm/llvm/jit_compiler.cpp:74-78 | an empty block without predecessors, wherever it sits, does not affect the cleaned list |
| IR.BrokenSurvivesCleanup | vm/llvm/jit_compiler.cpp:82-96 | a missing terminator exists after cleanup iff it existed before: cleanup never erases a defect |
| IR.UsedEmptyBlockSurvives | vm/llvm/jit_compiler.cpp:79-81 | an empty block that has predecessors is kept, and the cleaned list is then not well terminated |
| IR.WellTerminatedIsClean | vm/llvm/jit_compiler.cpp:67-94 | a list whose blocks all end in terminators is left as it is, and is not `Broken` |
| Runtime.LLVMState.GcIndependent | vm/llvm/jit_compiler.cpp:61 | the thread is GC-independent; counters and registry unchanged |
| Runtime.LLVMState.GcDependent | vm/llvm/jit_compiler.cpp:102 | the thread is GC-dependent; counters and registry unchanged |
| Runtime.LLVMState.VerifyFunction | vm/llvm/jit_compiler.cpp:96 | the answer is true iff some block lacks a terminator or the backend finds another defect |
| Runtime.LLVMState.RunPasses | vm/llvm/jit_compiler.cpp:106 | the pass pipeline runs as one recorded step; blocks, GC state, counter and registry unchanged |
| Runtime.LLVMState.RunJit | vm/llvm/jit_compiler.cpp:114-115 | demands a body that has not been released; the reported code is the engine's lowering of its blocks |
| Runtime.LLVMState.AddCodeBytes | vm/llvm/jit_compiler.cpp:116 | the code-byte counter grows by exactly n |
| Runtime.LLVMState.AddCodeResource | vm/llvm/jit_compiler.cpp:133 | the holder is appended to the registry once |
| Runtime.RuntimeDataHolder.SetFunction | vm/llvm/jit_compiler.cpp:129-130 | the holder records the function, address and size |
| JitProperties.GcTogglesBalanced | vm/llvm/jit_compiler.cpp:61-125 | with indy, exactly one `gc_independent` followed by exactly one `gc_dependent`, on the abort and success paths alike; without indy, no toggles; the run ends GC-dependent |
| JitProperties.CleanupInsideBracket | vm/llvm/jit_compiler.cpp:61-125 | with indy, the first step is `gc_independent` and the block cleanup comes right after it; every step up to the single `gc_dependent` is neither a toggle nor a holder step, and only `set_function` and `add_code_resource` follow it |
| JitProperties.CodeBytesExact | vm/llvm/jit_compiler.cpp:96-116 | the counter grows by the reported size on success and by nothing on failure |
| JitProperties.RegisteredOnlyOnSuccess | vm/llvm/jit_compiler.cpp:96-133 | one registration on success, none on failure |
| JitProperties.InstallOrder | vm/llvm/jit_compiler.cpp:114-133 | on success: bytes accounted, then (with indy) `gc_dependent`, then `set_function`, then `add_code_resource` |
| JitProperties.HolderTouchedOutsideIndependence | vm/llvm/jit_compiler.cpp:125-133 | the holder is touched only on success, and only once the GC-independent state has been left |
| JitProperties.LoweredOnlyWhenVerified | vm/llvm/jit_compiler.cpp:96-115 | the JIT runs only on success, preceded exactly by the toggle, the cleanup, the accepting verdict and the passes |
| JitProperties.ReleasedUnlessDebug | vm/llvm/jit_compiler.cpp:115-123 | the body is released iff the run succeeded outside debug mode, and only after the JIT ran |
| JitProperties.BuildHardReturnOnce | vm/llvm/jit_compiler.cpp:162-215 | root set, setup, body; the hard return is generated iff the body was, once, as the last step; compiling toggles nothing, accounts no bytes, registers nothing |
| JitProperties.InstalledIsWellTerminated | vm/llvm/jit_compiler.cpp:67-104 | when code is generated, every original block either ends in a terminator or was an erased empty block |
| JitProperties.DeadBlockNeverFails | vm/llvm/jit_compiler.cpp:74-96 | adding an empty block without predecessors never changes whether the pipeline fails, nor the lowered code |
| JitProperties.UnsupportedBodyInstallsNothing | vm/llvm/jit_compiler.cpp:57-59 | after a compile whose body was not generated, `generate_function` returns NULL with no toggle, no bytes and no registration |
| JitProperties.RepeatIsCached | vm/llvm/jit_compiler.cpp:57-137 | two calls answer the same; bytes and registration happen at most once between them |
| JitProperties.AccountingOverRuns | vm/llvm/jit_compiler.cpp:114-133 | over any sequence of runs, the counter grows by the sum of the successful runs' sizes and the registry by one holder per success; no run leaves the thread GC-independent |

## Left out

- LLVM internals are oracles or events. `verifyFunction` is a structural check plus an uninterpreted defect predicate. `runJITOnFunction` is an uninterpreted map from the cleaned blocks to an address and a size. The pass pipeline is an event that leaves the blocks as they are. Predecessor iteration is a per-block predecessor count. `dropAllReferences` is a released flag.
- Instructions are reduced to whether they are terminators. Block identity is a number, and blocks of one function carry distinct numbers.
- Diagnostic output is I/O only and is not modelled: the `llvm::outs`/`llvm::errs` messages, the `jit_dump_code` dumps, `show_machine_code` (vm/llvm/jit_compiler.cpp:52-55), and the `jit_inline_debug` log lines with their `gettimeofday` timestamps.
- The `assert(vmm->parent())` under `jit_inline_debug` (vm/llvm/jit_compiler.cpp:149) is a debug-build check, not a rejection, and is not modelled.
- The builders (`MethodBuilder`, `BlockBuilder`) are not part of this model. `setup`, `generate_body` and `generate_hard_return` are recorded events. The success of `generate_body` is the `supported` parameter, and the function `info.function()` it produces is the `f` parameter.
- `JITMethodInfo` is reduced to its method, body, block flag and self class. Its default self class is not part of this model and is `None` here.
- `ctx_.set_root(&info)` stores the address of a stack-local info, which dangles once the compile method returns. The model stores the info value, so this aliasing is not captured.
- `mci_` is allocated before `runJITOnFunction` fills it (vm/llvm/jit_compiler.cpp:114-115). The model sets it once the engine has reported, because no step in between reads it.
- Concurrency is not modelled: racing background workers and atomic updates of the code-byte counter. The GC itself is not modelled either; GC independence is a flag and a trace event.
- The `indy` argument is taken as given; where callers get `indy` from is outside this file.
- Jit.Compiler.FunctionPointer: the execution engine is assumed to report a nonzero entry address (`Runtime.Address` is a positive number), so NULL means exactly that no code is installed; the source returns `mci_->address()` whenever `mci_` is set, whatever that address is.
- The code-byte counter and `mci_->size()` are unbounded numbers here; the C++ integer width and any overflow are not modelled, so `JitProperties.CodeBytesExact` and `JitProperties.AccountingOverRuns` hold exactly rather than modulo the counter's width.
