# autoform: the compiler passes and the stack machines under them

autoform translates source programs into a small language, Core, and claims that the
translation keeps their meaning. This project models the passes that do the hard part of
it in Python, and the explicit-stack machines and indexes they and the oracle rely on, and
proves what each is for.

**The generator frame compiler** (`Generator*.dfy`, `FrameCompiler.dfy`). A generator body
of structured control flow is compiled in continuation-passing style into a flat graph of
nodes run by a dispatch loop over a suspended heap frame. `GeneratorSource` gives the
source language a structured semantics with yields, sent values and a trace of
everything user code can see; `FrameCompiler` is the compilation as a function and
`GeneratorPass` the class that does it in place; `Core` runs what is emitted. The main
result, `GeneratorCorrectness.GeneratorCorrect`, is about whole sessions: for every host,
every argument and every sequence of resumes, a finished session of the structured
semantics is a finished session of the compiled `<resume>` function on its frame, and the
other way round. There conditions are tested by their value. `GeneratorTruth` composes the
compiler with the pass over conditions that runs after it: `EmittedCorrect` says the same of
the structured semantics with Python's jumping conditions and of the lowered `<resume>`
function. `GeneratorWhole.CompileGenerator` states both of what the pass returns for a body,
with the locals it collects itself. `GeneratorReturns` then compares what is emitted with
Python's own sessions, ends and sends included.

**The truth passes** (`TruthConditions.dfy`, `TruthValues.dfy`, `TruthThreading.dfy`).
Conditions and nested `and`/`or` are lowered so that each operand's truth test happens as
often, and in the same order, as under CPython's jumps; where conditional expressions stand
between operators that is not always so, and `TruthThreading.PassIsPython` says exactly
when. Hosts answer every call and test from the whole history, so equal traces mean equal
observable effects.

**Stack machines against recursive definitions.** `DeepJson` and `JsonGrammar` (the JSON
reader, and the grammar of what it accepts),
`LeanPrinter` (the term printer and its string escapes), `RewriteJson` (the rewriter under
the truth passes), `LeanComments` (the comment stripper) and `SourceClosure` (the compile
units of a script).

**The oracle's data structures.** `HeapEncoder` (the snapshot of a cyclic object graph),
`SameValues` (the comparison of values), `ResolveIndex` (the ledger's name index) and
`Bisection` (the batch driver).

What the code does and its own words do not say, found on the way and stated as lemmas:

- `<return>` is one slot that is never cleared. A value is reported exactly when every
  returned value is unit (`EndReported`, `FrameReported`). Otherwise the emitted frame stops
  at the named hole, except where a value is returned while the slot holds unit again, or
  the slot holds an object whose own equality does not say that it differs from unit:
  `SameOrHole` is that equivalence over whole sessions of the frame, `NothingLost` a static
  condition, `LostReturn` and `LostObject` the two ways it fails.
- A free name spelled `self` or `value` is captured by the parameters of the emitted resume
  function. `NameCaptured` says exactly which names keep their meaning, `CapturedSession`
  shows it at the body `yield value`.
- The escape terminal is mentioned not only by a `break` or `continue` outside every loop but
  also by the copies of a `finally` block outside every loop, unless those copies end
  elsewhere. `EscapeMentioned` is the exact condition; at run time only a stray `break` or
  `continue` reaches it (`OnlyStraysEscape`).
- Sending an object to a generator that has not started runs that object's own `!=` when its
  class has one, and agrees with Python otherwise (`GateReported`); a session in which that
  happens is never Python's (`SessionReported`).
- Under an operator, CPython threads the jumps of an else branch but not those of a then
  branch. The emitted code treats a conditional expression as one operand, so that in
  `(a if c else (b and d)) or e` a false `b` is tested twice (`ElseTestedTwice`).
- Greedy matching of dictionary entries is exact, and independent of their order, exactly
  where the callables' names fall into groups (`OrderIsFree`); matching by dotted suffix does
  not see to that (`CallablesDependOnOrder`).

## Model

| member | source | states |
|---|---|---|
| GeneratorCorrectness.GeneratorCorrect | cartographer/generator_lowering.py:137-258 | For every accepted body, host, arguments and sequence of resumes: a complete session (yielded values, locals at each suspension, final exception or hole, trace) of the structured semantics exists if and only if the emitted resume function has it on its frame |
| GeneratorCorrectness.SourceIsCompiled | cartographer/generator_lowering.py:137-258 | Forward half with its witness: enough dispatch steps exist for every finished source session |
| GeneratorCorrectness.CompiledIsSource | cartographer/generator_lowering.py:137-258 | Backward half: a finished session of the frame is one of the source |
| GeneratorCorrectness.FinishedForever | cartographer/generator_lowering.py:254-258 | A finished frame raises StopIteration at every later resume and never changes |
| GeneratorCorrectness.TerminalStep | cartographer/generator_lowering.py:239-248 | Each way of leaving the body meets its terminal: completion tests the return slot, a StopIteration that leaves the body becomes RuntimeError, a stray break is the named hole |
| GeneratorSimulation.Simulate | cartographer/generator_lowering.py:137-218 | From any state in step with the source, the code of a statement takes the machine to the continuation of the way the statement ends, with the same trace, outputs and locals and untouched outer temporaries; with no fuel left it has made at least that many steps |
| GeneratorSimulation.SimulateFinally | cartographer/generator_lowering.py:192-203 | However a try body is left, the copy of the finally body for that way runs once, and control goes on where it was going unless the finally itself leaves |
| GeneratorSimulation.SimulateUnwind | cartographer/generator_lowering.py:196-201 | A pending exception survives a finally body that suspends, or raises and handles others: it is saved before and restored after |
| GeneratorSimulation.SimulateCatch | cartographer/generator_lowering.py:188-191 | An exception of the body reaches the handler with its name bound; everything else passes by |
| GeneratorSimulation.SimulateFor | cartographer/generator_lowering.py:204-215 | The iterator is made once and kept in a temporary across suspensions; StopIteration from it ends the loop, any other exception goes on |
| GeneratorSimulation.SimulateLoop | cartographer/generator_lowering.py:167-171 | The reserved head tests the condition at every turn, and break, continue and exhaustion go where the source says |
| GeneratorSimulation.SimulateAll | cartographer/generator_lowering.py:148-159 | Statements compiled last to first run first to last |
| GeneratorSteps.RewriteKeepsMeaning | cartographer/generator_lowering.py:99-111 | Reading a declared local through the frame gives the value, the exception and the trace of reading it as a variable, in every expression |
| GeneratorSteps.YieldLands | cartographer/generator_lowering.py:179-187 | A suspension puts out the value with the locals, and the next resume continues after it with the sent value bound |
| GeneratorSource.FlattenKeepsMeaning | cartographer/generator_lowering.py:148-159 | Flattening nested sequences keeps meaning at every fuel |
| GeneratorGraph.GraphIsClosed | cartographer/generator_lowering.py:121-135 | The nodes are exactly 1 to counter, at most 4096, each a guarded instruction, and every jump leads to a node or a terminal |
| GeneratorGraph.CompileExtends | cartographer/generator_lowering.py:121-135 | Compiling fills exactly the indices it reserves, each once, and leaves all earlier nodes alone |
| GeneratorLimits.AcceptedExactly | cartographer/generator_lowering.py:121-144 | A body is accepted if and only if its statements are supported, the nodes counted by recursion are at most 4096 and the levels at most 128, and its graph has exactly that many nodes |
| GeneratorEscape.OnlyStraysEscape | cartographer/generator_lowering.py:172-175 | A body ends at the escape terminal only if a break or continue stands outside every loop |
| GeneratorEscape.EscapeMentioned | cartographer/generator_lowering.py:137-218 | The escape terminal is the entry, or a node of the compiled body jumps to it, if and only if a recursion on the statement says so, which follows each continuation through loops, handlers and the five copies of finally blocks |
| GeneratorEscape.CompileMentions | cartographer/generator_lowering.py:146-218 | The same of every statement, every continuation and every terminal |
| GeneratorEscape.FinallyMentionsEscape | cartographer/generator_lowering.py:192-203 | A finally block outside every loop mentions the escape terminal when it is an expression, though nothing breaks, and does not when it is empty or always returns |
| GeneratorProtocol.NodeContains | cartographer/generator_lowering.py:130-135 | No exception escapes an instruction node: it is recorded and control goes to the node's handler |
| GeneratorProtocol.DispatchSelects | cartographer/generator_lowering.py:249-251 | The dispatch chain runs exactly the node at the program counter |
| GeneratorProtocol.ResumeRuns | cartographer/generator_lowering.py:252-258 | The gate: finished raises StopIteration, running ValueError, unstarted with a sent value TypeError, each with the frame untouched; otherwise the loop runs |
| GeneratorProtocol.TerminalEnds | cartographer/generator_lowering.py:239-248 | A terminal raises with the frame finished, or is a named hole |
| GeneratorSession.ResumeProtocol | cartographer/generator_lowering.py:234-258 | Over every frame and every resume: a refused resume leaves the frame unchanged; otherwise one that returns leaves state 1 and one that raises leaves state 3 |
| GeneratorSession.LoopDrives | cartographer/generator_lowering.py:249-253 | The emitted loop over the dispatch chain is the step machine over the graph |
| GeneratorSession.StepsAreSession | cartographer/generator_lowering.py:252-258 | Steps of the machine across any number of resumes are the session of resumes |
| GeneratorWhole.CompileGenerator | cartographer/generator_lowering.py:64-258 | The pass from body, metadata and parameters to entry and resume function: it returns exactly for supported bodies of at most 4096 nodes and 128 levels, and then, unless the body reads a name the resume function captures, what it returns has exactly the body's sessions, as compiled and after the pass over conditions |
| GeneratorWhole.CleanExactly | cartographer/generator_lowering.py:77-82 | A body may be compiled for a set of locals if and only if the target of every assignment, for, except and yield at any depth is in it and its reads are visible |
| GeneratorWhole.CollectedLeast | cartographer/generator_lowering.py:69-82 | The locals the pass collects are enough, and no smaller set with the metadata's and the parameters is |
| GeneratorTruth.EmittedCorrect | cartographer/render_lean.py:645-648 | After the pass over conditions: for every accepted body, host, arguments and sequence of resumes, a complete session of the structured semantics with jumping conditions exists if and only if the lowered resume function has it on its frame |
| GeneratorTruth.CompileLowers | cartographer/generator_lowering.py:137-218 | Compiling a lowered statement gives the graph of the statement with every node lowered: compiling and lowering conditions commute, refusals included |
| GeneratorTruth.LoweredExec | cartographer/python_truth_lowering.py:17-56 | A lowered generator body, yields included, with conditions tested by their value is the body with conditions that jump |
| GeneratorTruth.FrameLowers | cartographer/generator_lowering.py:249-258 | The lowered resume function, its gate's own condition included, has the sessions of the resume function of the lowered nodes |
| GeneratorReturns.EndReported | cartographer/generator_lowering.py:239-242 | The end of a body is Python's if and only if no value was returned and the slot holds none |
| GeneratorReturns.SessionReported | cartographer/generator_lowering.py:239-258 | With jumping conditions, a session by the structured semantics is Python's if and only if its end is reported so and no object sent before the first unit owns its `!=` |
| GeneratorReturns.GateReported | cartographer/generator_lowering.py:254-258 | The gate of an unstarted frame agrees with Python if and only if the sent value is not an object that owns its `!=` |
| GeneratorReturns.UnitGeneratorExact | cartographer/generator_lowering.py:137-258 | When every return is bare, the generator as emitted, its conditions lowered, has exactly Python's sessions where no object sent before the first unit owns its `!=`, and otherwise none of them |
| GeneratorReturns.SameOrHole | cartographer/generator_lowering.py:239-258 | Over whole sessions of the emitted frame: the session is Python's, or its yields followed by the named hole, if and only if no object sent before the first unit owns its `!=` and the end is not lost (lost is: a value returned while the slot holds unit, or an object in the slot whose equality does not say it differs) |
| GeneratorReturns.NothingLost | cartographer/generator_lowering.py:176-178 | Without a return in a finally block, and where no object owns its equality, no end is lost |
| GeneratorReturns.FrameReported | cartographer/generator_lowering.py:137-258 | A session of the emitted frame that comes to an end is Python's, conditions included, if and only if its end is reported and no object sent before the first unit owns its `!=` |
| GeneratorReturns.LostReturn | cartographer/generator_lowering.py:176-178 | A body with a return in a finally block for which the emitted frame, resumed twice, yields and stops with nothing where Python stops with 5 |
| GeneratorReturns.LostObject | cartographer/generator_lowering.py:239-242 | A body that returns an object which claims to equal unit: the emitted frame stops with nothing where Python stops with the object |
| GeneratorReturns.NameCaptured | cartographer/generator_lowering.py:265 | A name keeps its meaning in the resume function if and only if it is declared local or none of the function's own variables |
| GeneratorReturns.CapturedSession | cartographer/generator_lowering.py:265 | The body `yield value` yields the global in Python and the value sent as emitted |
| GeneratorPass.Compiler.constructor | cartographer/generator_lowering.py:64-89 | The frame's locals are the metadata's, the parameters and every name the body binds |
| GeneratorPass.Compiler.FreshLocal | cartographer/generator_lowering.py:91-94 | A temporary is new and numbered by the size of the set of locals |
| GeneratorPass.Compiler.Reserve | cartographer/generator_lowering.py:121-125 | The counter grows by one or the body is refused at 4096 |
| GeneratorPass.Compiler.Put | cartographer/generator_lowering.py:130-135 | One node is added at the reserved index |
| GeneratorPass.Compiler.Compile | cartographer/generator_lowering.py:137-144 | The in-place compiler leaves the nodes, counter and locals of the functional one, and restores the depth even when it refuses |
| GeneratorPass.Compiler.CompileSeq | cartographer/generator_lowering.py:148-159 | The loop over the flattened suffixes is the recursive compilation |
| GeneratorPass.Compiler.CompileCleanups | cartographer/generator_lowering.py:192-203 | The five copies of a finally body, in order |
| GeneratorPass.Compiler.Finish | cartographer/generator_lowering.py:234-258 | Entry, dispatch chain and gate of the whole body, or the reason of refusal |
| TruthConditions.PredicateJumps | cartographer/python_truth_lowering.py:40-53 | Testing the predicate form once takes the branch, with the trace, of the recursive jump rules |
| TruthConditions.LowerKeepsValue | cartographer/python_truth_lowering.py:24-56 | The lowered value form has the value and the trace of the expression |
| TruthConditions.LowerKeepsMeaning | cartographer/python_truth_lowering.py:17-56 | Lowered statements, loops over iterators, finally blocks and break blocks included, run by Core take Python's branches with Python's traces |
| TruthConditions.SecondTest | cartographer/python_truth_lowering.py:1-7 | Testing the value form instead would test an operand twice |
| TruthConditions.PredicateHasNone | cartographer/python_truth_lowering.py:40-53 | After the pass no operator is left where a condition jumps |
| TruthConditions.Visitor.Rewrite | cartographer/python_truth_lowering.py:19-56 | The visit that fills the tables of copies and predicates, each expression once, computes the two specified forms |
| TruthConditions.Visitor.RewriteStmt | cartographer/python_truth_lowering.py:24-56 | The visit of a statement puts the predicate from the table in place of every condition under it |
| TruthValues.PassThreads | cartographer/python_truth_values.py:14-81 | Whatever the pass emits evaluates as nests of `and` and `or` are threaded, every other expression in them (`not` and conditional expressions too) being an operand on its own: same value, each operand evaluated and tested as often and in the same order |
| TruthThreading.PassIsPython | cartographer/python_truth_values.py:14-81 | What the pass emits evaluates as CPython's compiler does (conditions by jumps, else branches threaded through a waiting test, then branches not) for every host and history, if and only if no operator that is tested once more, in a condition or at the end of an else branch that is waited for, can be decided by an object its left operand gave |
| TruthThreading.ChoiceFreeAgrees | cartographer/python_truth_values.py:1-7 | Without conditional expressions it always does |
| TruthThreading.ElseTestedTwice | cartographer/python_truth_values.py:70-73 | `(x if x else x and x) or x` with a false object: CPython tests the third operand once, the emitted code twice |
| TruthThreading.AgreesSame | cartographer/python_truth_values.py:14-81 | The same for each way a value can be waited for: where it agrees the two give the same value, outcome and trace |
| TruthThreading.Differs | cartographer/python_truth_values.py:14-81 | Where it does not, a script of outcomes leads to a test that only the emitted code makes, and nothing later makes up for it |
| TruthThreading.ThreadNests | cartographer/python_truth_values.py:44-67 | Threading through any enclosing operators is testing once and handing the outcome outwards |
| TruthValues.BodyRuns | cartographer/python_truth_values.py:52-63 | Running the emitted statements of a helper (index 0 and 1 of the left pair, the state codes, the two comparisons) is the pair protocol |
| TruthValues.SideThreads | cartographer/python_truth_values.py:44-67 | Under any enclosing operators, running a helper and continuing with its pair is the threaded evaluation |
| TruthValues.StateIsOutcome | cartographer/python_truth_values.py:3-6 | A state other than 0 is the outcome of a truth test made on that very value, and the test was the last event |
| TruthValues.ChangedIffCompound | cartographer/python_truth_values.py:68-77 | The pass reports a change if and only if some left operand is compound, and otherwise copies |
| TruthValues.PassSelects | cartographer/python_truth_values.py:14-81 | Where answers do not depend on the past, the emitted code computes the value of the untouched form |
| TruthValues.PlainFormTestsTwice | cartographer/python_truth_values.py:68-72 | Left alone, a compound left operand is tested twice; threaded, once |
| TruthValues.Pass.Rewrite | cartographer/python_truth_values.py:44-73 | The visit that appends helpers and raises the flag computes the specified lowering |
| TruthValues.LowerFunction | cartographer/python_truth_values.py:14-81 | The pass over one body, with the threading theorem of PassThreads for what it returns |
| RewriteJson.Rewrite | cartographer/ast_tools.py:20-47 | The loop over the pending stack does what the recursion does: same result, same copies with the same contents, and the callback called on the same copies in the same order, memoised or not, for callbacks with state |
| RewriteJson.MemoShares | cartographer/ast_tools.py:20-47 | Memoised, two places that hold the same input container hold the same output reference, the result of its one visit |
| RewriteJson.EachItsOwn | cartographer/ast_tools.py:20-47 | Unmemoised, two places that hold containers hold the results of different visits with different copies |
| RewriteJson.MemoisedOnce | cartographer/ast_tools.py:20-47 | Memoised, no container is finished twice, and the root and the children of a finished container are finished: the callback runs exactly once for each dictionary reached |
| RewriteJson.MemoAgrees | cartographer/ast_tools.py:20-47 | Memoised or not, for a callback whose result stands for what a map on trees makes of the children's trees, whatever containers it makes and whatever it remembers of the containers finished, the result denotes the tree of the bottom-up map |
| RewriteJson.WrapAgrees | cartographer/python_truth_values.py:70-73 | It applies to a callback that puts each copy into a new container |
| RewriteJson.ConditionsAgree | cartographer/python_truth_lowering.py:24-54 | It applies to a callback that makes a predicate of every dictionary, keeps it in a table, and puts the predicate of a condition into the dictionary that has it |
| DeepJson.Loads | scripts/deep_json.py:15-67 | On every text the reader with its own stack accepts what a recursive-descent parser accepts, builds its tree, and fails with its message at its position; it ends on every text |
| JsonGrammar.ReadsGrammar | scripts/deep_json.py:15-67 | A text is accepted if and only if a grammar of brackets, commas, colons, quoted keys, scalars and white space spells it as a tree, and the value is that tree with each repeated key holding its last value where it came up first |
| JsonGrammar.PutAllMerges | scripts/deep_json.py:58-62 | Assigning members one after the other gives each key once, in the order of first occurrence, with the value assigned last |
| JsonGrammar.PutExactly | scripts/deep_json.py:58-62 | Assigning a key that is there replaces its value in place; one that is not is appended |
| JsonGrammar.RoundTrip | scripts/deep_json.py:15-67 | Reading a serialised tree, with any white space after separators, gives the tree, its repeated keys merged, and the tree itself where no keys repeat |
| LeanPrinter.PrintingLosesNothing | cartographer/render_lean.py:248-331 | A reader of the fully parenthesised grammar gets the same term from flat output and from output wrapped at any column |
| LeanPrinter.TextGivesTree | cartographer/render_lean.py:186-331 | What is printed, flat or wrapped at any column, is read and decoded as the tree it was printed from: heads, fields, entries and items in their order, up to layout marks |
| LeanPrinter.WrapsExactly | cartographer/render_lean.py:27-39 | A term is printed flat if that ends by column 100, and is broken after its first part otherwise, with the next line indented two deeper but at most 40 |
| LeanPrinter.TextTellsTree | cartographer/render_lean.py:186-221 | Two trees whose texts, flat or wrapped, read alike are the same but for layout marks, where literals are told from nodes by their first word |
| LeanPrinter.PrintTerm | cartographer/render_lean.py:248-331 | The two stack loops print the recursive layout, a cap refuses exactly when the flat text is longer, and what is printed decodes to the tree |
| LeanPrinter.Measure | cartographer/render_lean.py:256-288 | The measuring loop builds the document of the tree |
| LeanPrinter.Emit | cartographer/render_lean.py:291-318 | The output loop prints the document as the recursive layout does |
| LeanPrinter.SizeIsFlatLength | cartographer/render_lean.py:235-245 | The measured size is exactly the length of the flat text |
| LeanPrinter.WrappingIsLinear | cartographer/render_lean.py:37-45 | Wrapped output is at most the flat length plus a constant for each child |
| LeanPrinter.LeanStr | cartographer/render_lean.py:55-79 | The buffer holds the escaped text between quotes |
| LeanPrinter.NeverRaw | cartographer/render_lean.py:55-79 | No control character, surrogate, byte order mark or line separator is written raw |
| LeanPrinter.PlainStays | cartographer/render_lean.py:55-79 | Every other character but quotes and backslashes is written as it is |
| LeanPrinter.StringBack | cartographer/render_lean.py:55-79 | Unescaping a literal gives the string back, for every code point including lone surrogates |
| LeanComments.StripLeanComments | scripts/audit_all.py:249-306 | The scan over index, depth and flag, blanking in place, is the recursive lexer |
| LeanComments.OnlyCodeStays | scripts/audit_all.py:249-306 | Length and newlines stay, code stays in place, and everything else becomes a space |
| LeanComments.StripIsIdempotent | scripts/audit_all.py:249-306 | Stripping twice is stripping once |
| LeanComments.CommentBlanked | scripts/audit_all.py:278-292 | A nested block comment, as a grammar defines it, is blanked whole and the scan goes on after it |
| LeanComments.StringBlanked | scripts/audit_all.py:262-277 | A string literal is blanked whole, escapes included, and code goes on after its closing quote |
| SourceClosure.SourceFiles | scripts/compiler_sources.py:6-28 | The loop over pending paths lists what recursive depth-first search lists, in preorder, and ends on cyclic imports; a missing unit ends both |
| SourceClosure.ExactlyReachable | scripts/compiler_sources.py:6-28 | Each identity is listed once, and the identities are the least closed set that holds the entry |
| HeapEncoder.Encoder.Enc | scripts/differential.py:232-288 | When encoding succeeds, objects and cells are in bijection, every new cell is filled, each cell is the pointwise snapshot of its object, only reached objects have cells and no reference stands in a key; it succeeds, and refuses for the reason, exactly as a walk that does not go through an object twice |
| HeapEncoder.RefusalHasReason | scripts/differential.py:232-303 | A refusal has its reason on a path that repeats no object: a cycle is no reason |
| HeapEncoder.SuccessFits | scripts/differential.py:232-303 | What is not refused is within the limits, and so is every object it meets: at most eight levels down, no more than 512 parts anywhere, no refusal, no object in a key |
| HeapEncoder.CyclesEncode | scripts/differential.py:290-303 | Objects of at most 512 fields, no more of them than eight less the level, encode however they refer to one another |
| HeapEncoder.Encoder.Alloc | scripts/differential.py:290-303 | An object gets one cell, before its fields are encoded, and the same reference ever after |
| HeapEncoder.Encoder.Freeze | scripts/differential.py:360-363 | The objects that have cells are marked |
| HeapEncoder.Encoder.EncResult | scripts/differential.py:365-374 | Encoding a result after freezing succeeds if and only if the walk meets no further object, and then the heap is exactly the frozen one |
| HeapEncoder.OneEncoding | scripts/differential.py:191-193 | An object encodes the same way wherever it appears |
| HeapEncoder.RefsInRange | scripts/differential.py:232-303 | No reference dangles |
| HeapEncoder.SnapshotsIsomorphic | scripts/differential.py:186-203 | Two object graphs with the same cells are isomorphic: same classes, field names and values to every depth |
| SameValues.Compare | scripts/differential.py:580-632 | The recursive comparison with its shrinking list of entries decides the specified relation |
| SameValues.SameIffCanonical | scripts/differential.py:563-632 | Where the names of callables fall into groups, as with none they do, the answer is equality of canonical forms, so greedy matching never misses a matching |
| SameValues.FloatsAlike | scripts/differential.py:587-591 | For all signs, exponents and fractions of two floats: they are the same if and only if all three fields are equal or both exponents are 2047 with a fraction above 0 |
| SameValues.SpecialFloats | scripts/differential.py:587-591 | Infinities and zeros of different sign stay apart, infinities are no NaNs, and all NaNs are the same |
| SameValues.NamesAlike | scripts/differential.py:599-618 | Callables match if and only if, after the file and without `<locals>` and `<module>`, the segments of one name are the last of the other's; a recovered class matches its own name only |
| SameValues.OrderIsFree | scripts/differential.py:596-631 | Over given names of callables, the answer never depends on the order of dictionary entries, at any depth and on either side, if and only if the names fall into groups |
| SameValues.WrittenIsSame | scripts/differential.py:377-392 | What is written into the Lean file compares as the same value |
| SameValues.CallablesDependOnOrder | scripts/differential.py:596-618 | Dotted suffixes do not fall into groups: names for which the order matters |
| ResolveIndex.Index.constructor | scripts/ledger.py:263-277 | The fields say what a scan of the key list would: exact names, counts and last key of every dotted tail, method keys |
| ResolveIndex.Index.Resolvable | scripts/ledger.py:279-289 | A method query is answered yes if and only if some key is something, a dot and the name; another if and only if the name is a key, or a free name in Python, or exactly one position has such a key, which in Python must not be a declared class's method when the name has no dot |
| ResolveIndex.ResolvesMeans | scripts/ledger.py:279-289 | The counting rule says the same as the one in words of positions and strings |
| ResolveIndex.CountsPositions | scripts/ledger.py:272-275 | The counter is 1 if and only if exactly one position reaches the name |
| ResolveIndex.TailsExact | scripts/ledger.py:251-254 | A string is a dotted tail of a key if and only if the key ends in a dot and that string |
| ResolveIndex.OwnerExact | scripts/ledger.py:257-260 | The owner is what stands before the last dot |
| ResolveIndex.NoOwner | scripts/ledger.py:257-260 | A key has no owner if and only if it has no dot |
| ResolveIndex.UniqueTail | scripts/ledger.py:284-288 | Where one key has the tail, the remembered key is that key |
| Bisection.Driver.Evaluate | scripts/core_oracle.py:403-435 | The driver computes the specified bisection, and its result holds only right answers and one to every good case, within the bound on runs |
| Bisection.GoodCasesAnswered | scripts/core_oracle.py:403-435 | If answers are right and clean batches are answered in full, every good case ends with its right answer wherever the bad ones lie |
| Bisection.TrailTells | scripts/core_oracle.py:413-435 | Whatever is printed and whatever times out: the result holds an answer for exactly the cases some run answered, of several the last, and the base line is the last one printed |
| Bisection.OnlyRightAnswers | scripts/core_oracle.py:413-435 | If the answers are right the result holds only right ones, to cases of the batch, whatever times out |
| Bisection.LostByTimeout | scripts/core_oracle.py:415-435 | A good case goes without an answer only if a batch it was in timed out |
| Bisection.FewRuns | scripts/core_oracle.py:403-435 | With b bad cases among n distinct ones at most 1 + 2 b ceil(log2 n) runs are made |

## Left out

- Hosts: which objects own their truth test, equality and inequality is a parameter. Calls, operators, names outside the frame, truth tests and equality of objects are answered by an arbitrary function of the whole trace; there is no model of Python's or Core's heap behind them. An exception is its class name.
- GeneratorPass.Compiler.constructor: does not model the refusals for closures, captured variables and async bodies, which come before any compilation.
- The generated `__read_local__` helper is modelled by its result (the local, or UnboundLocalError), and compiler temporaries by tagged numbers instead of the strings `<generator-temp>N`.
- Generator `close` and `throw`, `yield from` and yields inside expressions: the code refuses or holes them; `BreakBlock` and `YieldFrom` are refused in the model as in the code.
- `lower_expressions`, `lower_generators` and the helper tables of a whole program (scripts that collect functions, share helpers and build analysis views).
- `transform` in the generator compiler: expressions are rewritten by structural recursion, not by its own stack.
- GeneratorReturns.SameOrHole: sessions that run for ever are outside it.
- GeneratorTruth.EmittedCorrect: `and`, `or` and `not` in value position are tested by the values of their operands on both sides; the pass over nested value operators, which runs last, is modelled on expressions in TruthValues and TruthThreading and not composed with the frame.
- The `pythonTruthCache` field, written by an exporter that is not part of this model: every state read from it is taken as absent.
- TruthConditions.Visitor.Rewrite: visits recursively, and its tables are keyed by the expression where the code's are keyed by the node; the stack and the sharing of nodes are RewriteJson's, whose ConditionsAgree has a table keyed by the node.
- TruthConditions.LowerKeepsMeaning: a yield is no statement of Core's and stops there on both sides; generators are compiled before this pass.
- TruthValues.PassThreads: bodies of nested functions are bodies of their own.
- TruthValues.BodyRuns: the emitted lines have a small language of their own instead of Core's tuples and closures.
- TruthThreading.PassIsPython: expressions written on one line; comparisons in a chain are operands.
- RewriteJson.MemoShares: a callback may change its copy and make new containers; that it changes no other container is assumed. A ready item carries its copy's index instead of reading it from its place.
- DeepJson.Loads: scalars are read by an abstract decoder that takes at least one character; containers live in an arena addressed by index, as the mutable objects of the original are addressed by reference. `dict_nodes` (a preorder walk with its own stack) and file reading are left out.
- LeanPrinter.PrintTerm: the tables that give a node its head token and fields, and the errors for malformed nodes, are left out; a node comes with its shape, and measured sizes are recomputed instead of cached. Literals other than strings are words; the atom of `boxFieldsRange`, in which a word follows a closing parenthesis without a space, is no document and not covered.
- HeapEncoder.Encoder.Enc: introspection (`object_fields`, `class_identity`, subclasses of builtins) is an arbitrary function from identities to things or refusals. `GraphEncoder` is not part of this model. After a failed encoding nothing is said of the heap: the case is abandoned.
- HeapEncoder.Encoder.EncResult: `input_heap` is the same list as `heap` and is modelled as that list, so what a failed result leaves in it is visible in both.
- SameValues.Compare: 32-bit floats are widened before they are compared, in a part of the reader that is not part of this model.
- LeanComments.StripLeanComments: a character literal that holds a quote opens a string, as in the code.
- SourceClosure.SourceFiles: the file system is a function from paths to identities and imports with finitely many identities in reach; reading, trimming and matching of directives are left out.
- Bisection.GoodCasesAnswered: a run that times out loses its batch, as in the code; the statement assumes none does, and LostByTimeout says what is lost otherwise.
- JsonGrammar.ReadsGrammar: that no scalar starts with a closing bracket is assumed of the abstract decoder; which message a rejected text gets is the recursive-descent parser's.
- ResolveIndex: the rest of the ledger (risk and call collection) and the tables of known free names, which are a parameter.
- Processes, files, caches, reports, the machine-code and native paths, and `gridsentinel`.
