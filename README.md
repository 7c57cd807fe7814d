# hoist-globals, modelled in Dafny

This project models the LLVM module pass `hoist-globals`, `HoistGlobalsPass::runOnModule`. The pass takes every global variable of a compilation unit that is a definition and is not constant, in module order. It gathers them into one struct global, `__hoisted_globals`, whose type is a struct named `hoisted_globals`. Field k of that struct holds the k-th selected global, with the same type and initializer.

The pass then redirects every use of the k-th selected global to `getelementptr inbounds (__hoisted_globals, i32 0, i32 k)` and erases the original. It also adds:
- `__hoisted_globals_size`, a constant i32 holding the struct's store size;
- `__hoisted_globals_pointer`, a mutable pointer initialised to `__hoisted_globals`.

It returns whether it changed the unit.

The model has five modules:

- `IR` (ir.dfy) holds the abstract IR:
  - types, linkages, and terms (`Int`, `Ref(g)`, `Aggregate`, `Expr`), which stand for constants and instruction operands;
  - global variables and functions;
  - `Subst`, one `replaceAllUsesWith` on one term.

  A global is a declaration exactly when it has no initializer, as in LLVM.
- `CompilationUnit` (unit.dfy) holds the class `Module`, which stands for `llvm::Module`:
  - globals in module order, function bodies, and the next fresh global identity;
  - `AddGlobal` (`new GlobalVariable(M, …)`), `ReplaceAllUsesWith` and `EraseGlobal` (`eraseFromParent`).

  Each operation keeps the invariant that globals are distinct objects created before `nextId`, and that every global some initializer or body uses was created before `nextId`. So a new global starts without uses, as a new `GlobalVariable` does.
- `HoistSpec` (hoist_spec.dfy) describes the pass on values:
  - `Candidates`, the selection;
  - `Rewrite`, the simultaneous redirection of every selected global to its field;
  - `HoistedGlobals` and `HoistedFunctions`, the exact unit the pass leaves;
  - lemmas on selection, completeness, survivors, the new globals and uses.
- `HoistGlobals` (hoist_globals.dfy) is the pass itself, as imperative code over a `Module`:
  - `Scan`, the scan loop that fills the three parallel lists;
  - `RewriteAndErase`, the loop over the saved list with the `Field` counter;
  - `RunOnModule`, which is proved to leave exactly `HoistedGlobals` and `HoistedFunctions`.
- `Scenarios` (scenarios.dfy) states what the pass makes of small units, including the ones with nothing to hoist and with an unused global.

The loop in the source applies `replaceAllUsesWith` one global at a time. `HoistSpec` describes the result as a single simultaneous rewrite. `RewriteStep`, `RewriteGlobalsStep` and `RewriteFunctionsStep` prove that the two agree, one iteration at a time. That is the invariant of the rewrite loop.

The struct and size globals exist before the loop starts. So the loop also rewrites uses inside the aggregate initializer, for example an initializer holding `&x` for a selected `x`. The pointer global is created after the loop and is never rewritten.

## Model

| member | source | states |
|---|---|---|
| HoistSpec.Candidates | src/hoist/HoistGlobals.cpp:65-95 | a global is selected iff it is a definition and not constant; the selection is a sub-list of the module's globals |
| HoistSpec.CandidatesAppend | src/hoist/HoistGlobals.cpp:65-66 | selection keeps module order: selecting from a + b gives the selection from a followed by the selection from b |
| HoistSpec.CandidatesUnique | src/hoist/HoistGlobals.cpp:93 | the saved list of globals has no repetitions when the module's globals are distinct objects |
| HoistSpec.CandidateIds | src/hoist/HoistGlobals.cpp:93 | every saved global is a global of the module |
| HoistSpec.CandidateIdsBelow | src/hoist/HoistGlobals.cpp:93 | every saved identity is an identity of the module, so it lies below any bound on the module's identities |
| HoistSpec.AggregateUses | src/hoist/HoistGlobals.cpp:114-115 | a global the aggregate initializer uses is used by the initializer of some selected global, and so is already used in the unit |
| HoistSpec.CandidateIdsExactly | src/hoist/HoistGlobals.cpp:70-75 | among the module's globals, a global's identity is in the saved list iff it is a non-constant definition |
| HoistGlobals.Scan | src/hoist/HoistGlobals.cpp:58-95 | the three parallel lists have the length of the selection; entry i of each is the i-th selected global's identity, its value type and its initializer; `modified` is true iff something was selected; the module is not changed |
| HoistSpec.FieldAddressMentions | src/hoist/HoistGlobals.cpp:141-142 | the field address uses `__hoisted_globals` and no other global |
| HoistSpec.FieldAddressFixed | src/hoist/HoistGlobals.cpp:141-146 | a field address already built is left alone when a different global is replaced later |
| HoistSpec.RewriteSelected | src/hoist/HoistGlobals.cpp:136-142 | a use of the k-th saved global becomes `getelementptr inbounds (__hoisted_globals, i32 0, i32 k)`, with k cut to 32 bits |
| HoistSpec.RewriteStep | src/hoist/HoistGlobals.cpp:137-146 | redirecting one more global to the next field after the earlier ones equals the simultaneous rewrite of the longer list |
| HoistSpec.RewriteMentions | src/hoist/HoistGlobals.cpp:141-146 | after the rewrite a term uses only `__hoisted_globals` or globals it used before that were not rewritten; uses of every other global are kept exactly |
| HoistSpec.RewriteIdentity | src/hoist/HoistGlobals.cpp:146 | a term that uses none of the rewritten globals is not changed |
| HoistSpec.RewriteGlobalsIds | src/hoist/HoistGlobals.cpp:137-162 | after the loop, the module's globals are exactly the ones not in the saved list |
| HoistSpec.RewriteGlobalsMember | src/hoist/HoistGlobals.cpp:146-161 | a global remains after the loop iff it is an original global not in the saved list, with its initializer rewritten |
| HoistSpec.RewriteNothing | src/hoist/HoistGlobals.cpp:136-138 | before the first iteration nothing is rewritten: globals and bodies are as they were |
| HoistSpec.RewriteGlobalsStep | src/hoist/HoistGlobals.cpp:139-161 | one iteration on the global list (replace uses of the next global by the next field, then erase it) extends the rewrite by that global |
| HoistSpec.RewriteFunctionsStep | src/hoist/HoistGlobals.cpp:139-146 | one iteration on the function bodies extends the rewrite by that global |
| HoistSpec.RewriteGlobalsAppend | src/hoist/HoistGlobals.cpp:146 | the rewrite acts on each global separately, so rewriting a + b gives the rewrite of a followed by the rewrite of b |
| HoistGlobals.RewriteAndErase | src/hoist/HoistGlobals.cpp:136-162 | each saved global is visited once: its uses become its field address and it is erased; no other global is erased; the final `Field` equals the number of saved globals; the module is the simultaneous rewrite of the saved list |
| HoistSpec.HoistedShape | src/hoist/HoistGlobals.cpp:116-176 | the result is the surviving globals followed by `__hoisted_globals`, `__hoisted_globals_size` and `__hoisted_globals_pointer`, with identities n, n + 1 and n + 2; the size global holds an integer and the pointer global holds the address of `__hoisted_globals` |
| HoistSpec.HoistedFresh | src/hoist/HoistGlobals.cpp:116-176 | when n lies above every identity of the unit, no surviving global has identity n, n + 1 or n + 2, and the result's globals are distinct objects when the unit's are |
| HoistSpec.RewriteGlobalsUnique | src/hoist/HoistGlobals.cpp:146-161 | the rewrite loop keeps the module's globals distinct objects |
| HoistSpec.HoistedInPassOrder | src/hoist/HoistGlobals.cpp:112-176 | the rewrite is applied after the struct and size globals are added, so it reaches the aggregate initializer; the pointer global is added afterwards; the result is `HoistedGlobals` |
| HoistSpec.HoistedNewGlobals | src/hoist/HoistGlobals.cpp:112-176 | `__hoisted_globals` is mutable and external, named struct `hoisted_globals`. Its struct has one field per selected global, whose type is field i's type. Its aggregate initializer's element i is global i's initializer, rewritten. The size global is a constant external i32 holding exactly `Trunc32` of the struct's store size: the store size modulo 2^32. The pointer global is a mutable external pointer to the struct that holds `__hoisted_globals` |
| HoistSpec.AggregateKeepsInitializer | src/hoist/HoistGlobals.cpp:114-115 | element i of the aggregate initializer is the i-th selected global's original initializer when that initializer uses no selected global |
| HoistSpec.HoistedComplete | src/hoist/HoistGlobals.cpp:146-161 | no selected global is left in the unit and nothing in the unit uses one |
| HoistSpec.HoistedKeepsUnselected | src/hoist/HoistGlobals.cpp:68-75 | every declaration and every constant global stays; it has the same identity, name, type, constness and linkage, and its initializer is rewritten |
| HoistSpec.HoistedOnlyUnselected | src/hoist/HoistGlobals.cpp:68-75 | every global before the three new ones is an unselected original with its initializer rewritten |
| HoistSpec.HoistedIds | src/hoist/HoistGlobals.cpp:116-176 | a global is in the result iff it was in the unit and not selected, or it is one of the three new globals |
| HoistSpec.HoistedUntouched | src/hoist/HoistGlobals.cpp:68-75 | a declaration or constant global whose initializer uses no selected global stays exactly as it was |
| HoistSpec.HoistedUses | src/hoist/HoistGlobals.cpp:141-176 | a global used after the pass is `__hoisted_globals`, or a global used before it that was not selected |
| HoistSpec.HoistedClosed | src/hoist/HoistGlobals.cpp:141-176 | if every use in the input names a global of the unit, every use in the output does too |
| HoistGlobals.RunOnModule | src/hoist/HoistGlobals.cpp:57-187 | returns true iff some global was selected. Otherwise the module is unchanged and no new global exists. If so, the module's globals and function bodies are exactly `HoistedGlobals` and `HoistedFunctions`, and three identities were used |
| CompilationUnit.Module.AddGlobal | src/hoist/HoistGlobals.cpp:116-118 | a fresh global with the given type, constness, linkage, initializer and name is appended, as at lines 116-118, 126-128 and 173-176; its initializer uses only globals that already exist; function bodies are unchanged, and the new global starts without uses |
| CompilationUnit.Module.ReplaceAllUsesWith | src/hoist/HoistGlobals.cpp:146 | every use of x is replaced by r in every initializer and every body, after which x has no uses; the globals stay the same objects; r uses only globals that exist |
| CompilationUnit.SubstUses | src/hoist/HoistGlobals.cpp:146 | after `replaceAllUsesWith(x, r)` a global is used only if it was used before and is not x, or r uses it |
| CompilationUnit.AppendGlobalUses | src/hoist/HoistGlobals.cpp:116-118 | appending a global adds no use except those of its own initializer |
| CompilationUnit.RemoveGlobalUses | src/hoist/HoistGlobals.cpp:161 | erasing a global adds no use |
| CompilationUnit.Module.EraseGlobal | src/hoist/HoistGlobals.cpp:160-161 | needs x in the module with no uses left; removes x and keeps every other global in order |
| CompilationUnit.Module.constructor | src/hoist/HoistGlobals.cpp:57 | a unit holding the given globals and bodies |
| CompilationUnit.RemoveGlobalMembers | src/hoist/HoistGlobals.cpp:161 | erasing x keeps exactly the globals other than x |
| CompilationUnit.RemoveGlobalUnique | src/hoist/HoistGlobals.cpp:161 | erasing keeps the globals distinct objects |
| CompilationUnit.SubstLeavesNoUse | src/hoist/HoistGlobals.cpp:146-160 | after `replaceAllUsesWith(x, r)` with an r that does not use x, nothing uses x; this is why the assert at line 160 holds |
| CompilationUnit.SubstGlobalsIds | src/hoist/HoistGlobals.cpp:146 | `replaceAllUsesWith` changes initializers only: the global list keeps its length and identities, and every global keeps its name, type, constness and linkage |
| IR.SubstMentions | src/hoist/HoistGlobals.cpp:146 | after replacing x by r, a term uses only globals it used before other than x, or globals r uses |
| IR.SubstClears | src/hoist/HoistGlobals.cpp:146 | replacing x by an r that does not use x leaves no use of x |
| IR.Trunc32 | src/hoist/HoistGlobals.cpp:125 | `ConstantInt::get(Int32Ty, v)` (here and for the field index at line 141) keeps v modulo 2^32: always below 2^32, and v itself when v is below 2^32 |
| Scenarios.ScenarioReferenceInInitializer | src/hoist/HoistGlobals.cpp:112-176 | for `int x = 5; int *p = &x;` and a load through p, the unit becomes the aggregate `{5, &field 0}`, the size and the pointer globals, and the load reads field 1 |

## Left out

- The pass registration, `getAnalysisUsage`, `ID`, `RegisterPass` and `createHoistGlobalsPass` (src/hoist/HoistGlobals.cpp:49-55, 190-196) are host-framework plumbing.
- `DataLayout::getTypeStoreSize` (src/hoist/HoistGlobals.cpp:123-124) is target layout logic. It is the parameter `storeSize` of `RunOnModule`, and nothing is assumed about it.
- `verifyModule` (src/hoist/HoistGlobals.cpp:184) is an external checker; `HoistedClosed` states the structural property about references that it relies on.
- Debug output through `errs()` (src/hoist/HoistGlobals.cpp:131-133, 156-158, 164-166) is I/O only.
- Commented-out code does not run, so it is not modelled. This covers the linkage change, the thread-local mode, the manual use iteration and the redirect through the pointer (src/hoist/HoistGlobals.cpp:82-85, 90, 143, 148-154, 178-181).
- Uses are redirected into `__hoisted_globals` itself, as the GEP at src/hoist/HoistGlobals.cpp:142 builds them. They do not go through `__hoisted_globals_pointer`, which nothing reads. The pass's comments (src/hoist/HoistGlobals.cpp:134-135, 168-169) and its registered description (src/hoist/HoistGlobals.cpp:191) speak of indirection through the pointer; the code does not do it, and the model follows the code.
- The `dyn_cast<GlobalVariable>` test at src/hoist/HoistGlobals.cpp:68-69 always succeeds, since the module's global iterator yields only global variables. The model's global list holds only global variables.
- LLVM type semantics, GEP constant folding, address spaces and thread-local modes are left out. Types, linkage and the GEP are recorded as data.
- Name uniquing is left out. LLVM renames a new global or struct type whose name is already taken (`__hoisted_globals1`, `hoisted_globals.0`); the model keeps the requested names.
- Metadata and debug-info uses of a global are left out. Only initializers and instruction operands count as uses.
- HoistSpec.HoistedKeepsUnselected: declarations and constant globals keep their identity and attributes, but an initializer of theirs that takes the address of a selected global is rewritten to the field address. The source rewrites such an initializer too, so the model states "unchanged" only in `HoistSpec.HoistedUntouched`, for initializers that use no selected global.
- HoistSpec.HoistedNewGlobals: the aggregate's element i is the selected global's initializer after the rewrite. It is not always the original initializer, because the loop also rewrites uses inside the aggregate; `HoistSpec.AggregateKeepsInitializer` gives the original when no selected global is used.
