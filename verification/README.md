# Cool: lowering, flow graphs and module tools

This project models the middle of a compiler for a small dynamic language and the tools around
it, and proves what they are for.

- **Lowering.** `src/IRCompiler.cpp` turns structured code into a flat stream of register
  instructions, emitting jumps first and patching their targets later. `Ast` and `Semantics` hold
  the source language and its meaning, `IR` the machine, `Lowering` and `FunctionTables` the code
  with its final targets. `IRBuilder` and `IRCompiler` are the imperative compiler: classes that
  emit, patch and keep the stacks of loops and open functions. It is proved to build exactly that
  code, and the code is proved to run like the source. Callees, natives and containers are a
  parameter of these theorems (`Runtime`), so nothing is assumed of them. `PatternMeaning` says which
  values a pattern matches and what it binds without running it, `LanguageLaws` what the operations do
  that source and machine share. `CallStacks` lets a call run the callee's stream on a stack of
  activations and shows that it runs the callee's body.
  `Coverage` is the condition on match expressions under which a halted machine always mirrors the
  source. `ModuleLowering` adds programs of several modules, whose bodies are put where they are
  first imported.
- **Flow graphs and dominance.** `ControlFlowGraph` and `Dominance` follow the two analyses loop by
  loop. Their results are compared with definitions over paths (`Graphs`), and
  `DominanceVerification` says what the closing verification is worth for arbitrary information.
  `Validity` and `Analysis` show that every lowered stream passes validation and can be analysed.
- **Names and storage.** `DeclarationIndex` proves the scope, function and loop stacks of the
  declaration collector against lexical scoping. `LexicalScopes` reads names, uses, captures and
  storage off the program from left to right and shows that both say the same. `VariableNames` treats the run-time names of variables,
  `SyntheticNames` the names that lowering makes up, and `NameCollision` runs a program that uses
  one of them.
- **Source text.** `Lexer` and `LosslessSource` are the scanner and the view that keeps every
  byte; `TokenTexts` lists the texts of all tokens and shows that the scanner takes the longest. `Layouts` says exactly when a text of lexemes, comments and blanks reads back as its tokens,
  and `Formatter` proves exactly for which sources the output of the formatter is such a text.
- **Module cache and editor tools.** `ModuleCacheKey`, `ModuleCachePlanner` and
  `ModuleCacheManifest` with `ManifestFields` and `ManifestFormat` (cache keys, the rebuild planner,
  the manifest), `ImportLoader` (the depth-first import loader), `LspPositions` (UTF-8 and editor
  positions). `RebuildMeaning` states the plan over the lists of modules and records alone,
  `StoredFormats` spells the manifest out, `Utf16Positions` counts positions by the encodings'
  standards. `Digraphs`, `Decimals` and `Wrappers` hold shared definitions.
- **Nil narrowing.** `FlowFacts` holds what conditions say about nullable values and the stack of
  facts, `FlowChecks` the type checker's walk over statements and what its answers are worth in every
  run, `FlowExactness` which facts and answers there are, `FlowGaps` three programs for which they are
  wrong.

Proofs keep definitions folded (`hide *`) and unfold them once in small lemmas whose names end in
`Parts`, `Placed`, `Step` or `Is`.

## Findings

Properties that the code does not meet as stated, with the input and the exact condition.

| property | where it fails | exact condition |
|---|---|---|
| a reused module has the public interface of the previous build (src/ModuleCache.cpp:639-653) | `ModuleCachePlanner.CollisionReuses`: the old and the new key text hash alike, only the interface hash differs | `ModuleCachePlanner.StaleReuseExactly`: exactly when the interface changed and nothing else that the planner compares did; `ReusedUntouched`: never when the hash tells the two key texts apart |
| the variables of a `for-in` loop are out of the program's reach (src/IRCompiler.cpp:821-831) | `NameCollision.MeaningLost`: in `let __for_in_iter = 5; for x in [1] {} print __for_in_iter;` both variables are called `__for_in_iter#0`; the source prints 5, the machine with one table of variables prints the array | `VariableNames.SeparatedExactly`: they are exactly when no name that the program resolves is two underscores and the prefix of a serial number that lowering hands out, with that serial number; `OneTablePreserved`: then meaning is preserved |
| dominance information that passes verification is right (src/Dominance.cpp:121-194) | `DominanceVerification.EntryUnchecked`: a second block listed as dominator of the entry; `GapsUnchecked`: a dominator missing from a list and skipped by the link | `DominanceVerification.SoundExactly`: the listed dominators are all real exactly when nothing but the entry is listed for the entry (accepted links are always real); `ExactExactly`: all is right exactly when besides no dominator is missing |
| a value that the checker takes for non-nil is not nil (src/TypeChecker.cpp:832-928, src/FlowFacts.cpp:203-232) | `FlowGaps.SkippedWrong`: `if (flag) { if (value == nil) { return; } } value + 1;` for a false `flag` and a nil `value`, accepted although tests/golden/type_errors/nullable_narrowing_if_join_unsupported.cd shows the same program with an `else` rejected; `JoinedWrong`: facts of inner branches in the place of an outer one; `LoopedWrong`: a loop body that assigns nil | `FlowChecks.SkipRightExactly`: after an `if` without `else` whose condition says nothing, the facts are right for the runs that skip it exactly when the branch leaves no fact live that was not live before; `ProgramSound`: with this at every such `if`, and loop bodies that lose no fact, every answer is right in every run |
| formatting keeps the tokens of a source (src/Formatter.cpp:917-1028) | `Formatter.SpacedNotFormattable`: `1 . 2` is formatted as `1.2` | `Formatter.FormatSource`: exactly when, with no comment between, no number without fraction, dot and number follow one another, nor `=` and a generic `>` |
| `decodeUtf8` reads back what `appendCodePoint` writes (src/LanguageServer.cpp:201-218) | `LspPositions.SurrogateRejected`: every surrogate code point | `LspPositions.DecodeComplete` and `DecodeSound`: exactly the scalar values |

The key text is meant to start with a tag and a zero byte, but the literal at src/ModuleCache.cpp:304
is streamed as a C string, so the zero byte is not written; the model follows the code.

## Model

| member | source | states |
|---|---|---|
| LoweringCorrectness.ProgramPreserved | src/IRCompiler.cpp:496-601 | a source run that finishes is a machine run that halts in the same way and the same world; one out of fuel keeps the machine running at least that long |
| LoweringCorrectness.ProgramReflected | src/IRCompiler.cpp:496-601 | a machine that has halted after n steps ended as the source does with fuel n: the machine is never stuck and invents no ending |
| LoweringCorrectness.TerminationAgrees | src/IRCompiler.cpp:496-601 | the machine halts exactly when some fuel suffices for the source |
| LoweringCorrectness.FuelIrrelevant | src/IRCompiler.cpp:496-601 | the source has one ending: more fuel does not change how a finished program ended |
| Coverage.CoveredExecAll | src/IRCompiler.cpp:935-976 | when every match expression has an unguarded arm whose pattern cannot fail, no run ends without a matching arm |
| Coverage.CoveredReflected | src/IRCompiler.cpp:496-601 | for such programs a machine that has halted ended as the source does, without any condition on the run |
| Coverage.CoveredTermination | src/IRCompiler.cpp:496-601 | and the machine halts exactly when some fuel suffices for the source |
| Coverage.IrrefutableExactly | src/IRCompiler.cpp:978-1142 | a pattern is taken as one that cannot fail exactly when no value fails it in any runtime |
| LoweringCorrectness.FunctionPreserved | src/IRCompiler.cpp:631-648 | the stream of a function returns what its body returns, or nil when the body runs off its end |
| FunctionOrigins.EveryStreamHasOrigin | src/IRCompiler.cpp:1296-1313 | every entry of a lowered program's function table is the stream of one of its functions |
| FunctionOrigins.EveryStreamPreserved | src/IRCompiler.cpp:1302-1313 | so every stream of the table preserves the meaning of the function it comes from |
| CallStacks.RunAbove | vm-rs/src/vm.rs:8921-9010 | until it ends, the run of a callee does not notice what is suspended below it, to any depth of calls |
| CallStacks.CallMeansBody | vm-rs/src/vm.rs:8921-9010 | a call of a function of the program runs the body of that function on the global variables and the arguments, and calls in the body mean the same; the caller gets back its own variables, the value or nil, or the trap |
| CallStacks.CalleeFinishes | vm-rs/src/vm.rs:8921-9010 | and when the callee's stream ends on the stack of activations, its body finishes |
| CallStacks.ValueCalled | vm-rs/src/vm.rs:8921-9010 | calling a value that refers to a function, with one argument for each parameter, gives what its body returns, nil when it runs off its end, or its trap |
| CallStacks.CalleeSees | vm-rs/src/vm.rs:8955-9010 | inside, each parameter holds the argument at its place, the last of a name winning; the other global variables are as they were, and no other variable of the caller is in sight |
| CallStacks.CallerSees | vm-rs/src/vm.rs:8921-9010 | back in the caller, global variables, heap and output are as the callee left them, its own variables as they were |
| CallStacks.StackPreserved | src/IRCompiler.cpp:496-601 | a source run that finishes, with calls running bodies, is a run of the machine with a stack of activations that ends in the same way and the same world; one out of fuel keeps it running |
| CallStacks.StackReflected | src/IRCompiler.cpp:496-601 | a run of that machine that ends, of a covered program, ended as the source does |
| ModuleLowering.ModuleCompiler.Compile | src/IRCompiler.cpp:408-423 | compilation of a program of modules succeeds exactly when every imported module is known, has its source and lowers; it builds the lowering of the program with each module in place of its first import |
| ModuleLowering.ModuleCompiler.CompileTop | src/IRCompiler.cpp:437-494 | modules, imports, re-exports, declarations and `impl` blocks, with the set of modules already compiled |
| ModuleLowering.InlineAllRuns | src/IRCompiler.cpp:603-616 | putting a module in place of its first import runs like loading every module once at run time, also when modules import one another in a circle |
| ModuleLowering.ModularPreserved | src/IRCompiler.cpp:437-616 | a run of a program of modules that finishes is a machine run that halts in the same way and the same world |
| ModuleLowering.ModularReflected | src/IRCompiler.cpp:437-616 | a machine that has halted ended as the program of modules does |
| ModuleLowering.ModularTermination | src/IRCompiler.cpp:437-616 | the machine halts exactly when some fuel suffices for the program of modules |
| ModuleLowering.CoveredModules | src/IRCompiler.cpp:437-616 | both for covered programs of modules, without a condition on the run |
| StmtSimulation.SimStmt | src/IRCompiler.cpp:496-601 | a statement's code ends where and as the statement does: at its end, at the break or continue target, returned or trapped; earlier registers and outer synthetic variables survive |
| StmtSimulation.SimIf | src/IRCompiler.cpp:523-538 | both branches of an `if` land after the statement, with or without `else` |
| StmtSimulation.SimWhile | src/IRCompiler.cpp:545-561 | a `while` loop with back jump and exit jump runs as many turns as the source, for any fuel |
| StmtSimulation.SimFor | src/IRCompiler.cpp:791-818 | a `for` loop whose increment sits before its body runs test, body and increment in the source's order, and `continue` reaches the increment |
| StmtSimulation.SimForInStmt | src/IRCompiler.cpp:826-893 | a `for-in` reads the collection and its length once and visits the elements in order, whatever the body does to user variables |
| StmtSimulation.SimMatch | src/IRCompiler.cpp:895-933 | the first arm whose pattern and guard hold is taken, through the chain of fail jumps |
| ExprSimulation.SimExpr | src/IRCompiler.cpp:1144-1252 | an expression's code leaves its value in the result register, writes no register allocated before, and traps exactly when evaluation faults |
| ExprSimulation.SimLogical | src/IRCompiler.cpp:1687-1708 | short circuit: the right operand runs exactly when it decides, and the result is the deciding operand |
| ExprSimulation.SimCompound | src/IRCompiler.cpp:1574-1585 | the old value is checked before the right-hand side runs, the new one after it |
| ExprSimulation.SimIndexCompound | src/IRCompiler.cpp:1596-1610 | collection and index are evaluated once, the old element is read before the right-hand side |
| ExprSimulation.SimFieldCompound | src/IRCompiler.cpp:1632-1645 | the object is evaluated once, the old field is read before the right-hand side |
| ExprSimulation.SimMatchExpr | src/IRCompiler.cpp:935-976 | the result register holds the value of the first arm that matches |
| PatternSimulation.SimPattern | src/IRCompiler.cpp:978-1142 | control falls through a pattern exactly when the value matches, and each binding register then holds its component; otherwise control is at the fail target |
| PatternSimulation.SimOr | src/IRCompiler.cpp:1038-1106 | the shared registers of an OR-pattern hold the components chosen by its first matching alternative |
| PatternMeaning.MatchingAgrees | src/IRCompiler.cpp:978-1142 | a pattern matches exactly the values that fit it part by part, payload `i` of a variant being its field `i` and a named part its field of that name, bound in order; an OR-pattern takes the first alternative that fits; otherwise it fails, or a part that cannot be read traps |
| PatternMeaning.CodeSelects | src/IRCompiler.cpp:1109-1142 | so the code of a pattern falls through with exactly these components in its binding registers, jumps to its fail target, or traps |
| LanguageLaws.Negation | src/Value.cpp:277-286 | only nil and false are falsy, and negating twice gives the truth of a value |
| LanguageLaws.Order | vm-rs/src/vm.rs:7453-7492 | of two numbers exactly one of less, equal and greater holds, and the other comparisons follow from these |
| LanguageLaws.Sums | vm-rs/src/vm.rs:7402-7428 | addition commutes and is undone by subtraction, negation subtracts from zero |
| LanguageLaws.Products | vm-rs/src/vm.rs:7429-7440 | multiplication commutes and is undone by division |
| LanguageLaws.ArithmeticFails | vm-rs/src/vm.rs:7410-7440 | arithmetic fails exactly on a division by zero and on operands that are not numbers, texts that are added apart |
| LanguageLaws.CompoundEnds | src/IRCompiler.cpp:1549-1585 | a compound assignment checks the old value, runs the right-hand side, checks it, and stores the combined number; each check fails with the message of its operator and place |
| IRCompiler.IRCompiler.Compile | src/IRCompiler.cpp:419-423 | compilation succeeds exactly on well-formed programs and builds exactly the lowered program, no jump left unpatched |
| IRCompiler.IRCompiler.CompilePattern | src/IRCompiler.cpp:978-1142 | one in-place pass emits the pattern's code and returns the jumps still to be patched and the registers of its bindings |
| IRCompiler.IRCompiler.CompileOr | src/IRCompiler.cpp:1021-1107 | alternatives are chained by patching, their bindings merged into shared registers; fails exactly on mismatched binding names |
| IRCompiler.IRCompiler.MergeBindings | src/IRCompiler.cpp:1052-1086 | fails exactly when an alternative does not bind the expected names once each; otherwise copies each binding to its shared register |
| IRCompiler.IRCompiler.CompileFor | src/IRCompiler.cpp:785-819 | the loop that is emitted and patched is the code of the `for` statement; the break jumps are patched to its end |
| IRCompiler.IRCompiler.CompileForIn | src/IRCompiler.cpp:826-893 | the same for `for-in`, with its synthetic names |
| IRCompiler.IRCompiler.CompileMatch | src/IRCompiler.cpp:895-933 | the same for `match`, fail and end jumps patched |
| IRCompiler.IRCompiler.CompileBreak | src/IRCompiler.cpp:757-769 | fails exactly outside a loop; otherwise the jump is recorded with the innermost loop |
| IRCompiler.IRCompiler.CompileFunction | src/IRCompiler.cpp:1296-1312 | a function's stream is built apart, and the loops around it cannot be reached from its body |
| BackPatching.FailsPatched | src/IRCompiler.cpp:927-929 | patching the recorded fail jumps of a pattern turns its draft into the code with the fail target, and changes nothing else |
| BackPatching.BreaksPatched | src/IRCompiler.cpp:558-560 | patching the recorded break jumps of a loop body retargets exactly the breaks that belong to this loop |
| BackPatching.StmtArmEndsPatched | src/IRCompiler.cpp:932-934 | patching the recorded end jumps of the arms sends every arm to the end of the match |
| IRBuilder.IRProgram.PatchJump | src/IR.cpp:933-949 | rewrites the target of one jump of the open stream to its end, and nothing else; fails exactly when there is no jump there |
| IRBuilder.IRProgram.EndFunction | src/IR.cpp:606-615 | closes the innermost open function and gives its index; fails exactly when none is open |
| Validity.ValidateStream | src/IR.cpp:374-436 | the pass accepts exactly the streams in which every register, jump target, function index and operand count is in range |
| Validity.ValidateProgram | src/IR.cpp:1000-1037 | rebuilding accepts exactly the valid streams with dependency offsets inside the main stream |
| Validity.StepInside | src/IR.cpp:374-436 | a step of an accepted stream neither reads nor writes a register at or above the count, and does not leave the stream but at its end |
| Validity.RunInside | src/IR.cpp:374-436 | so whole runs do not depend on these registers and leave them alone |
| Validity.LoweredValid | src/IR.cpp:374-436 | every lowered program passes, in every stream |
| Analysis.AnalyzeStream | src/ControlFlowGraph.cpp:316-324 | graph and dominance information can be built exactly when no jump leaves the stream |
| Analysis.AnalyzeLowered | src/ControlFlowGraph.cpp:316-324 | so they can for every stream of a lowered program |
| ControlFlowGraph.FindReachable | src/ControlFlowGraph.cpp:53-72 | the worklist terminates and marks exactly the blocks on a path from the entry |
| ControlFlowGraph.Verify | src/ControlFlowGraph.cpp:89-204 | verification passes exactly on well-formed graphs: contiguous ranges, exact instruction map, symmetric edge lists, exact reachability, right anchors |
| ControlFlowGraph.Build | src/ControlFlowGraph.cpp:206-314 | fails exactly on a jump or dependency offset outside the stream; otherwise the graph is well formed, blocks start at the leaders and edges are where the last instructions can go; `BlocksMaximal` says the same of the machine |
| ControlFlowGraph.BlocksMaximal | src/ControlFlowGraph.cpp:217-232 | past the first block, one starts exactly where some jump leads to or where the machine can leave the line of instructions just before: no block could be longer |
| ControlFlowGraph.StepFollowsBlocks | src/ControlFlowGraph.cpp:206-314 | every machine step stays consecutive inside a block or leaves its last instruction for the first instruction of a listed successor |
| ControlFlowGraph.RunsInReachableBlocks | src/ControlFlowGraph.cpp:53-72 | no run of the machine ever enters a block that is not marked reachable |
| ControlFlowGraph.EdgeTaken | src/ControlFlowGraph.cpp:261-292 | every listed edge, of a jump, a fall-through or a return, is taken from some machine state |
| Dominance.FindDominators | src/Dominance.cpp:207-253 | the in-place sweep terminates and is exact: a block is listed exactly when it lies on every path from the entry |
| Dominance.FixpointExact | src/Dominance.cpp:222-253 | any sets that the sweep leaves stable are the exact dominators, loops included |
| Graphs.DominatorsChain | src/Dominance.cpp:263-281 | of two dominators of a block one dominates the other |
| Dominance.FindImmediate | src/Dominance.cpp:259-284 | every reachable block but the entry has exactly one immediate dominator and the search finds it; neither error can occur |
| Dominance.IdomChain | src/Dominance.cpp:255-284 | following immediate dominators from a reachable block visits exactly its dominators and ends at the entry |
| Dominance.AddFrontierAlongIdomChain | src/Dominance.cpp:57-80 | for any links: an error exactly when the chain misses its stop or does not end within the bound; otherwise the block is added to the frontiers of exactly the blocks passed before the stop |
| Dominance.ComputeFrontiers | src/Dominance.cpp:82-104 | for any links: an error exactly when some walk does not end; otherwise each frontier holds exactly the blocks that a walk from a reachable predecessor owes it |
| Dominance.ExactWalkPasses | src/Dominance.cpp:57-80 | with the immediate dominators the walk passes exactly the blocks that dominate the predecessor and do not strictly dominate the block |
| Dominance.ExactFrontiers | src/Dominance.cpp:82-104 | with the immediate dominators no walk fails, and y is in the frontier of n exactly when n dominates a reachable predecessor of y and does not strictly dominate y, also for loops back to the entry |
| Dominance.BuildDominanceInfo | src/Dominance.cpp:196-294 | on every well-formed graph all of the above at once, no error and no failure of the closing verification |
| Dominance.VerifyInfo | src/Dominance.cpp:121-194 | for any graph and any information, what the closing verification accepts: a well-formed graph, well-formed sets, links that are listed and closest among the listed, the tree of the links, and the frontiers of the walks along them |
| Dominance.ExactAccepted | src/Dominance.cpp:121-194 | the verification accepts all information that is right |
| DominanceVerification.AncestorsOnPath | src/Dominance.cpp:57-104 | what accepted links lead to lies on every path from the entry: recomputing the frontiers shows the links to be real dominators |
| DominanceVerification.SoundExactly | src/Dominance.cpp:146-188 | accepted sets list only real dominators exactly when the entry is listed alone for the entry |
| DominanceVerification.ExactExactly | src/Dominance.cpp:121-194 | information is right exactly when it is accepted, the entry is listed alone for the entry and no dominator is missing |
| DominanceVerification.EntryUnchecked | src/Dominance.cpp:160-164 | a graph and accepted information that lists a block as dominator of the entry which is none |
| DominanceVerification.GapsUnchecked | src/Dominance.cpp:165-179 | a graph and accepted information in which a dominator is missing |
| VariableNames.CollisionExactly | src/IRCompiler.cpp:821-824 | a user name spells a synthetic name exactly when its source name is the prefix behind two underscores and the serial numbers agree |
| VariableNames.RunsAlike | src/IRCompiler.cpp:826-833 | with names apart, keeping all variables in one table behaves like keeping the synthetic ones out of reach, for whole runs |
| VariableNames.OneTablePreserved | src/IRCompiler.cpp:826-893 | lowering preserves meaning on the machine with one table of variables, unless the program has a variable with the text of a name that its lowering makes |
| SyntheticNames.NamesExactly | src/IRCompiler.cpp:821-833 | the streams of a lowered program use exactly the synthetic names with the serial numbers handed out, three for each loop in turn |
| VariableNames.SeparatedExactly | src/IRCompiler.cpp:821-833 | user and synthetic variables are apart exactly when no resolved name is reserved: two underscores and the prefix that belongs to a serial number handed out, with that number |
| NameCollision.MeaningLost | src/IRCompiler.cpp:826-833 | a program with a reserved name: the source prints the number, and no run of the machine with one table ends that way |
| DeclarationIndex.DeclarationIndexCollector.CollectProgram | src/DeclarationIndex.cpp:62-83 | the traversal with its three stacks agrees with lexical scoping: declarations, owners, uses, captures, and loop targets that never cross a function |
| DeclarationIndex.DeclarationIndexCollector.LookupReference | src/DeclarationIndex.cpp:758-769 | the innermost scope on the stack that declares the name decides |
| DeclarationIndex.DeclarationIndexCollector.ScopeContains | src/DeclarationIndex.cpp:779-793 | walking the parents finds exactly the ancestors of a scope and itself; for scopes on the stack these are the ones opened no later |
| DeclarationIndex.DeclarationIndexCollector.RecordCapture | src/DeclarationIndex.cpp:795-835 | a use is recorded as a capture exactly when the declaration belongs to an enclosing function, once per function |
| DeclarationIndex.CapturedExactly | src/DeclarationIndex.cpp:1263-1281 | a declaration is captured exactly when some function nested inside its owner uses it; `LexicalScopes` says which uses there are |
| DeclarationIndex.LocalExactly | src/IRCompiler.cpp:221-240 | storage is local exactly when a function owns the declaration, it is not exported and every use is in the owner itself |
| LexicalScopes.DeclarationsExact | src/DeclarationIndex.cpp:176-224 | declarations are numbered from left to right, each with its kind and the innermost function around it |
| LexicalScopes.UsesExact | src/DeclarationIndex.cpp:758-777 | the uses are exactly the names used that mean a variable, a function, a parameter or a for-in variable: the last declaration of that name before whose scope is still open, with the functions around the use |
| LexicalScopes.JumpsExact | src/DeclarationIndex.cpp:62-83 | a break or continue belongs to the innermost loop around it in the same function, or to none |
| LexicalScopes.CapturesExactly | src/DeclarationIndex.cpp:795-835 | a function captures exactly the declarations of functions around it that are used directly in it, and were made before it was entered |
| LexicalScopes.StorageExactly | src/IRCompiler.cpp:221-240 | captured are the declarations inside a function that some name means in a function entered after them; then come the exported ones, the ones inside functions, and the rest |
| LexicalScopes.LocalUnreached | src/IRCompiler.cpp:221-240 | every name that means a local declaration is used in the function that owns it |
| ModuleCacheKey.WriteKeyText | src/ModuleCache.cpp:301-324 | the streamed text is the key text of the module |
| ModuleCacheKey.KeyTextInjective | src/ModuleCache.cpp:301-324 | modules with the same key text agree on everything but the stored key, for arbitrary strings |
| ModuleCacheKey.FieldPrefix | src/ModuleCache.cpp:38-41 | a length-prefixed field can be read back whatever its value contains |
| ModuleCachePlanner.Plan | src/ModuleCache.cpp:582-707 | planning fails exactly for repeated identities, dangling dependencies and cycles; otherwise every module gets the decision that reachability dictates, which `RebuildMeaning` reads off the lists |
| ModuleCachePlanner.Planner.Evaluate | src/ModuleCache.cpp:613-694 | the memoised recursion terminates, reports only real cycles and dangling targets, and evaluates a module after everything it depends on |
| ModuleCachePlanner.ImpactSpreads | src/ModuleCache.cpp:646-653 | a changed interface reaches every module that depends on it, at any distance |
| ModuleCachePlanner.PlansAgree | src/ModuleCache.cpp:696-706 | two plans over the same modules and records, each listed in any order, succeed together and decide alike |
| ModuleCachePlanner.StaleReuseExactly | src/ModuleCache.cpp:657-672 | when a module is reused although its own interface changed |
| ModuleCachePlanner.ReusedUntouched | src/ModuleCache.cpp:657-672 | when the hash tells two key texts apart, a reused module equals the module of the previous build and has no public impact |
| ModuleCachePlanner.CollisionReuses | src/ModuleCache.cpp:657-672 | when it does not, a plan succeeds and reuses a module with a changed interface |
| RebuildMeaning.FailsExactly | src/ModuleCache.cpp:588-625 | in terms of the lists: what planning fails for are repeated identities, dependencies on modules that are not listed, and walks of dependencies that come back to their start |
| RebuildMeaning.PlanMeans | src/ModuleCache.cpp:639-672 | there is public impact exactly when some walk of dependencies leads to a module without a previous record of the same interface hash; a module is reused exactly when a record agrees with it in source, dependencies, entry, optimization and key, its artifact exists, and no such walk starts at a dependency |
| RebuildMeaning.ReasonMeans | src/ModuleCache.cpp:673-694 | the reason names the first difference between the module then and now, direct dependencies with another interface coming before transitive ones |
| RebuildMeaning.EditsStayInside | src/ModuleCache.cpp:627-694 | when no interface moved, a module that is as it was is reused, whatever was edited in its dependencies |
| ManifestFields.DependencyRead | src/ModuleCache.cpp:152-229 | a dependency line is read back whatever its strings contain |
| ModuleCacheManifest.ParseDependencyLine | src/ModuleCache.cpp:152-229 | the cursor over the line reads what the line's grammar says |
| ManifestFormat.ReadAccepted | src/ModuleCache.cpp:332-514 | every manifest that is read has unique, non-empty identities, non-empty optimization fields and dependency identities, entry flags that match the entry orders, and the key and paths of each module |
| ManifestFormat.RoundTrip | src/ModuleCache.cpp:332-580 | without newlines in strings, what was written is read back exactly when those conditions hold; otherwise reading fails |
| ModuleCacheManifest.WriteModuleCache | src/ModuleCache.cpp:516-580 | fails exactly for another schema version or a record whose key or path is not the module's; otherwise writes the text of the records with keys and paths filled in |
| ModuleCacheManifest.ReadModuleCache | src/ModuleCache.cpp:332-514 | the line reader with its cursor finds the records or the first error, with its line, that the grammar dictates |
| ModuleCacheManifest.StoreAndLoad | src/ModuleCache.cpp:332-580 | writing and then reading gives the records with keys and paths filled in, exactly when they are storable |
| StoredFormats.ManifestStarts | src/ModuleCache.cpp:534-536 | the four lines that a manifest starts with |
| StoredFormats.RecordShown | src/ModuleCache.cpp:548-576 | the lines of a record, one by one |
| StoredFormats.QuotedShown | src/ModuleCache.cpp:43-48 | quoting puts a backslash before quotes and backslashes and quotes around, and changes nothing else |
| ImportLoader.FrontendSession.LoadFile | src/FrontendSession.cpp:734-959 | the loading stack is left as found on success and on error, and a file is loaded after everything it imports, once |
| ImportLoader.LoadFiles | src/FrontendSession.cpp:706-749 | loading succeeds exactly when everything the inputs reach can be opened and parsed and is free of cycles; then the units are exactly the reached files, each once, in topological order, and an error names a real cause; with readable, well-formed files it fails exactly on a reachable cycle, with a cycle error |
| ImportLoader.EdgesExact | src/FrontendSession.cpp:1002-1055 | the module graph has an edge for every import and no other, from a larger unit id to a smaller one |
| Lexer.LexerState.ScanTokens | src/Lexer.cpp:43-57 | scanning fails exactly when some position starts no token; otherwise the tokens hold their slices of the source in order and leave only blanks and line comments between them |
| Lexer.TilesOnce | src/Lexer.cpp:122-335 | no other token sequence tiles the source in that way |
| Lexer.Relexed | src/Lexer.cpp:122-335 | a lexeme reads as the same token wherever it stands and nothing continues it |
| TokenTexts.ScansLongest | src/Lexer.cpp:122-335 | at every position the scanner finds a token exactly when some text of a token starts there and no line comment does, and then the only token with the longest such text; it skips exactly blanks and comments |
| TokenTexts.TokensLongest | src/Lexer.cpp:43-57 | so every token of a source is the longest at its place |
| LosslessSource.AppendTrivia | src/LosslessSource.cpp:26-76 | the stretch between two tokens is covered by pieces; blanks and comments give no piece of unknown kind, and the comments are the lexer's |
| LosslessSource.BuildView | src/LosslessSource.cpp:141-191 | fails exactly for tokens that overlap or leave the source; otherwise the pieces cover the source and keep every token, and the comments lie between the tokens where the lexer skips them |
| LosslessSource.RoundTrip | src/LosslessSource.cpp:98-110 | every source that lexes is rebuilt byte for byte from its view, which holds its tokens and its comments |
| Layouts.LayoutReads | src/Lexer.cpp:122-335 | a layout of lexemes, comments and blanks lexes back to the same tokens and comments exactly when no lexemes run together into an arrow or a fraction |
| Formatter.FindGenericAngles | src/Formatter.cpp:165-231 | marks exactly the pairs of `<` and `>` that can start and end a generic list and match by depth |
| Formatter.PairExactly | src/Formatter.cpp:145-222 | such a pair is a `<` and the first `>` that evens it out, with the kinds listed that can stand before and behind it |
| Formatter.FollowsByKind | src/Formatter.cpp:555-627 | which kinds of tokens may stand side by side without a space |
| Formatter.FormatterState.EmitToken | src/Formatter.cpp:640-904 | in every state of pending breaks, wrapped lists and indentation, a token is added behind the ones before it; it stands directly behind the last one never after a comment and always where number and dot or `=` and a generic `>` are pulled together |
| Formatter.FormatterState.EmitComment | src/Formatter.cpp:965-997 | a comment is added on its own, up to the spaces at its end, and nothing can follow it on its line |
| Formatter.FormatLosslessSource | src/Formatter.cpp:917-1028 | refuses exactly a zero indentation and `?`; otherwise lexing the output gives the tokens and, up to spaces at their ends, the comments of the view exactly when no tokens clash |
| Formatter.FormatSource | src/Formatter.cpp:917-1028 | the same from source to source: lexing what was formatted gives what lexing the source gave exactly when, with no comment between, it has no whole number, dot and number in a row and no `=` before a generic `>` |
| Formatter.SpacedNotFormattable | src/Formatter.cpp:555-627 | `1 . 2` lexes, is not refused and is not kept |
| LspPositions.DecodeSound | src/LanguageServer.cpp:1232-1282 | what is decoded is the encoding of a scalar value (section 3 of RFC 3629) |
| LspPositions.DecodeComplete | src/LanguageServer.cpp:1232-1282 | every encoding of a scalar value is decoded, whatever follows it |
| LspPositions.SurrogateRejected | src/LanguageServer.cpp:201-218 | an encoded surrogate is never decoded |
| LspPositions.LspPositionAt | src/LanguageServer.cpp:1284-1302 | the position of every decode boundary is the reference position, for any bytes |
| LspPositions.SourceByteAtLspPosition | src/LanguageServer.cpp:1304-1340 | gives the byte that covers the position, and none exactly when there is no such line or character |
| LspPositions.CoversOnce | src/LanguageServer.cpp:1304-1340 | at most one byte covers a position |
| LspPositions.ByteRoundTrip | src/LanguageServer.cpp:1284-1340 | every decode boundary survives the way to a position and back |
| LspPositions.PositionRoundTrip | src/LanguageServer.cpp:1284-1340 | a position survives the way back, except that the middle of a surrogate pair rounds down |
| Utf16Positions.EncodesValue | src/LanguageServer.cpp:1284-1302 | the encoding that is counted gives back the scalar value, a pair being a high and a low surrogate (section 2.1 of RFC 2781) |
| Utf16Positions.PositionsExactly | src/LanguageServer.cpp:1284-1302 | in a text of scalar values a position is the number of newlines before and the length of the UTF-16 encoding of what stands before on the line |
| Utf16Positions.ServicesExact | src/LanguageServer.cpp:1284-1340 | both directions give exactly that, wherever a character starts |
| FlowFacts.FactsSound | src/FlowFacts.cpp:78-137 | a condition that came out true (false) makes every `then` (`else`) target non-nil; `FlowExactness` says that none is missing |
| FlowFacts.Ungrouped | src/FlowFacts.cpp:10-17 | parentheses do not change what a condition evaluates to |
| FlowFacts.FactNameInjective | src/TypeChecker.cpp:4526-4640 | no two variables, fields or elements share a fact name |
| FlowFacts.MentionsDepends | src/FlowFacts.cpp:167-180 | the string tests of an invalidation cover every path that mentions the assigned variable |
| FlowFacts.FlowFacts.NarrowedTypeFor | src/FlowFacts.cpp:158-165 | the newest fact of a name decides, also when it has lost its type |
| FlowFacts.AssignmentKeeps | src/FlowFacts.cpp:167-180 | a fact that an assignment does not invalidate stays true |
| FlowFacts.FollowsExactly | src/FlowFacts.cpp:139-156 | facts about paths follow from other facts in every store exactly when they are among them |
| FlowExactness.FactsByParts | src/FlowFacts.cpp:78-137 | the facts of any condition are exactly those of its conjuncts that are targets or differ from `nil`, and of its disjuncts that equal `nil` |
| FlowExactness.ThenExactly | src/FlowFacts.cpp:78-137 | of targets and comparisons `!= nil` joined by `&&`, a true outcome narrows exactly the paths that hold nil in no store that makes it true, to the types of the resolver |
| FlowExactness.ElseExactly | src/FlowFacts.cpp:78-137 | of comparisons `== nil` joined by logical or, a false outcome narrows exactly the paths that hold nil in no store that makes it false |
| FlowExactness.InvalidatedExactly | src/FlowFacts.cpp:167-180 | an assignment invalidates exactly the paths that some value assigned in some store can make nil |
| FlowChecks.TypeChecker.CheckStatement | src/TypeChecker.cpp:758-930 | the checker's walk over the stack of facts, statement by statement, computes the answers and the facts of the specification |
| FlowChecks.TypeChecker.WithNarrowings | src/FlowFacts.cpp:203-216 | facts are pushed for a branch and the stack is brought back to its size; without facts to push, what the branch appends stays |
| FlowChecks.TypeChecker.CheckApart | src/FlowFacts.cpp:188-216 | a branch is checked apart from the facts around it, which come back, and its own last facts are returned |
| FlowChecks.TypeChecker.WithLoopBody | src/FlowFacts.cpp:218-232 | a loop body is checked once with the facts around it; afterwards none of them has its type |
| FlowChecks.JoinFacts | src/TypeChecker.cpp:881-906 | the facts that both branches end with, each name once |
| FlowExactness.JoinedExactly | src/TypeChecker.cpp:881-906 | joined are exactly the facts of one branch that the other ends with too, in name and with types that agree both ways, the first of each name |
| FlowExactness.ForcedAnswered | src/TypeChecker.cpp:832-860 | in the branch of such a condition, a question for any path that it forces to be non-nil is answered with the type of the resolver |
| FlowExactness.ThenAnswered | src/TypeChecker.cpp:832-880 | a question asked directly in the branch of a true condition is answered with the type that it narrows the path to |
| FlowExactness.ElseAnswered | src/TypeChecker.cpp:861-880 | so is one in the branch of a false condition |
| FlowExactness.LeftAnswered | src/TypeChecker.cpp:908-921 | and one right after a branch that leaves, with what the false condition narrows to |
| FlowExactness.AfterAnswered | src/TypeChecker.cpp:881-908 | after an `if` with `else` a question is answered with what both branches end with, or the one that does not leave |
| FlowChecks.CheckSound | src/TypeChecker.cpp:832-928 | for every statement, facts and store: in the run from there every type given in answer belongs to a value that is not nil, and the facts afterwards are true, as long as `if` without `else` and loop bodies leave the live facts alone |
| FlowChecks.ProgramSound | src/TypeChecker.cpp:747-756 | so it is for every run of a program, including what follows a branch that returns |
| FlowChecks.PlainTight | src/FlowFacts.cpp:203-216 | assignments, calls and nested `if`, with no `else`, `return` or loop, satisfy this by themselves and only lose outer facts |
| FlowChecks.SkipRightExactly | src/TypeChecker.cpp:919-921 | after an `if` whose condition says nothing, the facts are right for all runs that skip the branch exactly when the branch leaves no live fact that was not live before |
| FlowGaps.SkippedWrong | src/FlowFacts.cpp:207-210 | a check with `return` inside a skipped branch: nil is taken for a number |
| FlowGaps.JoinedWrong | src/TypeChecker.cpp:881-908 | joined facts of inner branches survive the outer branch: nil is taken for a number |
| FlowGaps.LoopedWrong | src/FlowFacts.cpp:218-232 | the second turn of a loop reads nil where the body was checked with a number |

## Left out

- Parser, type checker, optimizer and SSA: not part of this model; the checker's results (resolved names, exhaustive matches, pattern metadata) are inputs.
- LoweringCorrectness.ProgramPreserved: single files; `ModuleLowering` states it for programs of modules.
- LoweringCorrectness.ProgramReflected: for runs that meet no match expression without a matching arm, which the coverage check of the type checker excludes.
- LoweringCorrectness.TerminationAgrees: the same; so for ModularReflected and ModularTermination.
- ModuleCompiler.CompileTop: modules compiled on their own, which record a dependency instead of inlining, and the second name of capability operators are not modelled.
- ModuleLowering.ModuleCompiler.Compile: the same.
- Closures: what natives, container operations and calls of closures do to the visible variables, the heap and the output is the `Runtime` parameter of the theorems.
- CallStacks.CallMeansBody: functions that use global variables, their parameters and their own variables only; captured variables, the limit on the depth of calls and callbacks from natives are not modelled, and which function a value refers to is a parameter.
- CallStacks.StackPreserved: the same; a call that never ends is given a message of its own, so a source run that faults with just this message is left out.
- CompileOr: without the errors for mismatched resolved names and binding ids, because patterns hold one name for each binding here.
- MergeBindings: the same.
- CompileBreak: without the errors for loop-target records that the checker always supplies.
- ValidateStream: without the checks of the constant pool, the name table, binding ids and canonical bindings, because instructions hold constants and names themselves here.
- ValidateProgram: the same.
- LoweredValid: for the checks that ValidateStream has.
- Source spans, binding ids, constant and name interning, printing of the IR; line and column of tokens.
- Numbers are reals; rounding is not modelled.
- Messages of traps that the machine itself raises are abbreviated; those that lowering puts into the code are exact.
- Coverage.IrrefutableExactly: for records that are taken apart by field names, as the checker demands.
- Array, map, struct, call and similar expressions share one form, an operation on operands evaluated left to right.
- The first alternative of an OR-pattern is peeled off the loop over alternatives.
- LspPositionAt: an offset inside a character counts its bytes one by one, as the code does, but nothing more is claimed of it.
- FormatLosslessSource: which lists are wrapped (`shouldWrapListAtOpen`, line width) is a parameter, so the theorem holds for every choice; nothing is claimed about how the layout looks.
- FormatterState.EmitToken: the branches of the source's switch are methods of their own.
- StoreAndLoad: the file system, the FNV hash, the interface path of an identity and the normal form of paths are parameters.
- The report of the rebuild planner.
- LoadFile: without units taken from the interface cache.
- EdgesExact: without the edges of such units.
- Import loading from the interface cache, virtual sources, path resolution (targets are canonical paths) and the direct path without imports.
- DeclarationIndex.DeclarationIndexCollector.CollectProgram: takes what the traversal does as scopes, functions, loops, declarations and references in order; that a `let` is declared after its initializer, that types are declared ahead and which statements open scopes is left to that order.
- FlowChecks.CheckSound: conditions have no effects and their operands are read before them; `match`, `while` and C-style `for` statements, and leaving a `for-in` body by `break` or `continue`, are not modelled. A fact recorded under a loop variable, which is always new, is excluded by a condition.
- FlowChecks.SkipRightExactly: for conditions that say nothing; with a condition that does, only that leaving the live facts alone suffices.
