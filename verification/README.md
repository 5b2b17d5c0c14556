# librep: models of its runtime core

librep is a Lisp runtime written in C. This project models the parts of it that have to be right for
every input, and proves what they promise. Code that works by changing things in place is modelled by
classes and methods on the same fields, buffers and pointers; each such method is proved against a
function, and the functions are proved against an independent definition.

| part | files | the definition it is proved against |
|---|---|---|
| regular expressions: compiler, byte machine, search, captures, `quote-regexp` | `regexp_*` | the list of all matches of a syntax tree, preferred first; and laws on the bytes of patterns, with a writer of patterns as the inverse of the grammar |
| collector: marking, free lists, guardians, whole program lives | `gc_*` | reachability through the fields of cells, and a history of pushes, collections and pops |
| evaluator: tail calls as throws caught by a trampoline, lambda lists, environments | the other `lisp_*` | an evaluator that recurses on every call; and laws of scoping and of each form |
| byte-code machine: bindings, handlers, unwinding, eliminated calls | `vm_*` | what each bind-stack entry says is to be undone; and, for an eliminated call, the call it stands for |
| MD5 | `md5_*` | sections 3.1 to 3.5 of RFC 1321, with its initial bytes and digests of its test suite |
| exact numbers | `number_*` | fractions of unbounded integers |
| file names | `file_names`, `local_files` | the list of components a name leads through |
| reader and printer | `lisp_text` to `lisp_printer` | the tree that was printed |

`dafny verify dfyconfig.toml` checks everything. Nothing here was executed against the C program.

## Model

| member | source | states |
|---|---|---|
| RegexpWriter.ShowParses | src/regexp.c:201-547 | round trip: for every tree in canonical form (groups numbered in order, neighbouring ordinary characters one literal, class members that can be listed) the parse of what it is written as is that tree, to the end of the pattern |
| RegexpLaws.EitherLaw | src/regexp.c:233-249 | for all canonical p and q, with a bar between them: matches at every end where p does, and then at every end where q does, whatever groups the two have |
| RegexpLaws.ThenLaw | src/regexp.c:270-297 | for all canonical p and q of one alternative: pq matches where q does from the ends of p, in the order of the ends of p |
| RegexpLaws.GroupLaw | src/regexp.c:462-467 | (p) matches where p does |
| RegexpLaws.OptionalLaw | src/regexp.c:372-379 | p? matches where p does, and then where it starts |
| RegexpLaws.GreedyLaw | src/regexp.c:331-361 | p* matches where one more p and then p* does, and then where it starts; p+ where a p and then p* does |
| RegexpLaws.ReluctantLaw | src/regexp.c:331-371 | p*? matches where it starts, and then where one more p and then p*? does; p+? where a p and then p*? does |
| RegexpLaws.CharacterLaw | src/regexp.c:1137-1214 | an atom of one character where n in a row are accepted and no more: * ends after n, n-1, ..., 0 of them, + after n, ..., 1 or not at all, and the lazy forms in the opposite order |
| RegexpBytes.SignLaw | src/regexp.c:416-426 | the empty pattern matches nothing anywhere, ^ only at the start unless told not to, $ only at the end, and . one character |
| RegexpBytes.ByteLaw | src/regexp.c:307-404 | for every ordinary byte c, text and position with n times c there: all ends, in order, of c, c?, c*, c+, c*? and c+?, byte for byte |
| RegexpBytes.PlusNeedsOne | src/regexp.c:351-353 | c+ matches if and only if there is a c, while c* and c? always match |
| RegexpBytes.EscapeLaw | src/regexp.c:478-519 | a backslash and an operator match that character |
| RegexpBytes.TextLaw | src/regexp.c:521-541 | ordinary characters in a row match if and only if the text has them, up to the case of letters if case is ignored |
| RegexpBytes.KindLaw | src/regexp.c:484-503 | \w matches exactly letters, digits and underscores, \s exactly the six white spaces, \d exactly digits |
| RegexpBytes.OtherKindLaw | src/regexp.c:488-507 | \W*, \S* and \D* take up to all the characters before the first of that kind |
| RegexpBytes.ListLaw | src/regexp.c:427-461 | [m] matches exactly the characters of m, and [^m] exactly the others |
| RegexpBytes.RangeLaw | src/regexp.c:441-456 | [lo-hi] matches exactly the characters from lo to hi, and [^lo-hi] exactly the others |
| RegexpProgram.RegComp | src/regexp.c:107-193 | the compiler as a whole: a NUL-free pattern of the fragment is refused exactly when its parse fails (with that error) or its image reaches the size limit; otherwise the program is the image of the parsed tree with the start, anchor and longest-literal hints of that tree, and the emitting pass cannot fail |
| RegexpCompiler.Compiler.Reg | src/regexp.c:201-266 | alternatives: the sizing pass counts, and the emitting pass appends, exactly the image of the parsed alternatives with OPEN, CLOSE and END linked; errors, group numbers and the width and start flags are those of the tree |
| RegexpCompiler.Compiler.RegBranch | src/regexp.c:270-305 | a branch: the same, with every piece linked to the next |
| RegexpCompiler.Compiler.RegPiece | src/regexp.c:307-404 | a repeated piece: the same, through the insertion of operators in front of code already emitted; HASWIDTH is the width of the tree |
| RegexpCompiler.Compiler.RegAtom | src/regexp.c:407-547 | an atom: the same for classes, ranges, escapes, literals and groups |
| RegexpCompiler.Compiler.RegInsert | src/regexp.c:587-612 | inserting a node moves the operand up by three bytes and changes nothing else; in the sizing pass it counts three bytes |
| RegexpCompiler.Compiler.RegTail | src/regexp.c:613-642 | follows the chain from a node to its last one and sets only that one's offset |
| RegexpCompiler.Compiler.RegOpTail | src/regexp.c:643-655 | the same behind a BRANCH, and nothing for other nodes |
| RegexpChains.AltsReach | src/regexp.c:214-262 | in the image of linked alternatives, the chain of BRANCH nodes that reg links leads from the first to the end, without passing a BACK |
| RegexpChains.AltsReachTail | src/regexp.c:221-241 | while reg is still appending, the chain from the first BRANCH ends at the last one |
| RegexpChains.GroupReach | src/regexp.c:214-262 | the chain from the OPEN of a group leads over its branches to its CLOSE |
| RegexpChains.PieceReach | src/regexp.c:326-400 | from the first node that regpiece lays down, the chain leads to the one node that is still to be linked |
| RegexpProgram.ProgramDenotes | src/regexp.c:121-146 | the image of a program, read from its second byte, denotes the whole tree, and has the size that the first pass counted |
| RegexpProgram.Optimise | src/regexp.c:147-190 | the hints dug out of the program are those of the tree: first character, anchor, longest literal |
| RegexpMatcher.Matcher.RegMatch | src/regexp.c:852-1132 | the byte machine started at a node that denotes a continuation reports what the continuation machine does: success, end, captures, overflow of the recursion limit; it terminates, and the two exits for damaged programs are dead |
| RegexpMatcher.Matcher.NestedRegMatch | src/regexp.c:833-850 | counts the depth, refuses at the limit and records that, and restores the depth |
| RegexpMatcher.Matcher.RegRepeat | src/regexp.c:1137-1214 | advances over as many characters as the simple operand matches, and says how many |
| RegexpSteps.BackStep | src/regexp.c:926-929 | a BACK node leads to the loop it ends, and what is left to do is smaller: another round begins only after one that consumed something (termination) |
| RegexpAgreement.RunAgrees | src/regexp.c:852-1132 | the continuation machine against the list of outcomes in priority order: what it reports is the first outcome, it fails only if there is none, and only the recursion limit can make it miss one |
| RegexpSemantics.OutPiece | src/regexp.c:326-360 | every outcome of a piece ends after its start if the piece is flagged HASWIDTH, and never before it |
| RegexpSemantics.OutAlts | src/regexp.c:210-241 | the same for alternatives: HASWIDTH as reg computes it is sound |
| RegexpMatcher.Matcher.RegTry | src/regexp.c:805-830 | one attempt at one position, captures cleared first; a failure leaves them blank |
| RegexpSearch.TryMeans | src/regexp.c:805-830 | an attempt succeeds with the preferred outcome of the tree, and fails without overflow only if there is none |
| RegexpSearch.StartMatters | src/regexp.c:157-159 | where the tree matches, the text begins with the start hint |
| RegexpSearch.AnchorMatters | src/regexp.c:160-161 | an anchored tree matches only at position 0 |
| RegexpSearch.MustMatters | src/regexp.c:163-181 | where the tree matches, the longest literal occurs in the text |
| RegexpSearch.ScanMeans | src/regexp.c:688-785 | trying every position finds a match of the tree, and the leftmost with its preferred end if no attempt up to it overflowed |
| RegexpSearch.RegExec | src/regexp.c:688-785 | the search with its prefilters finds the same position and captures as trying every position; without overflow it succeeds exactly when some position matches, at the leftmost; with overflow some position overflowed; a wrong magic number is refused |
| RegexpCaptures.CapturesAreTraversals | src/regexp.c:930-983 | in every outcome a group has a start exactly when it has an end, exactly when it was traversed, and the two bound its last traversal: the trace splits into a traversal of that group's body and a rest that is silent on the group |
| RegexpCaptures.SearchCaptures | src/regexp.c:805-830 | the same for what a successful search leaves in the match arrays, inside the bounds of the whole match; abandoned paths leave nothing |
| RegexpQuote.QuoteRegexp | src/find.c:423-492 | the in-place buffer with its doubling builds the quoted text |
| RegexpQuote.QuotedIsLiteral | src/find.c:423-492 | for every NUL-free text the quoted form parses, and matches at a position exactly when the text is there, consuming exactly the text |
| GcHeap.MarkValue | src/gc.c:66-170 | marking one value, by recursion with a loop for the last one: only marks change, everything newly marked lies within the bound, and everything it refers to is marked in the end |
| GcReach.MarkingIsExact | src/gc.c:66-170 | marking roots from a closed set of marks adds exactly the markable cells that the roots reach, and leaves a closed set |
| GcReach.MarkRoots | src/gc.c:205-240 | the root phase: the marks afterwards are the permanent ones and exactly what the roots reach |
| GcFields.RootsAre | src/gc.c:205-240 | the roots are the static and protected variables, the protected arrays, what the types mark, and all five parts of every frame of the backtrace, and nothing else |
| GcFields.ReachedByFields | src/gc.c:66-170 | a cell is reached if and only if it is a root or in the car, the cdr or a slot of a reached cell, whatever its type |
| GcFields.AnyContents | src/gc.c:66-170 | a heap stays in order whatever a pair, a vector or an object with a mark function of its own holds |
| GcConses.ConsPool.Cons | src/lists.c:65-87 | a cell that nobody was using, holding what was asked for; used, allocated and free counts stay in order and no live cell changes |
| GcConses.ConsPool.ConsFree | src/lists.c:37-45 | returns one cell to the free list |
| GcConses.ConsPool.Sweep | src/lists.c:89-110 | the live pairs are exactly the marked ones, unmarked and otherwise untouched; every other cell is on the free list exactly once; the counters add up |
| GcClosures.ClosurePool.MakeClosure | src/closures.c:37-74 | the same as Cons for closures, with its block allocator |
| GcClosures.ClosurePool.Sweep | src/closures.c:179-203 | the live closures are exactly those in use and marked; every other cell is on the free list exactly once |
| GcGuardians.RunOne | src/guardians.c:73-100 | one guardian: pairs with unmarked objects move to the inaccessible list in order, the others stay, every pair is marked, the guardian's own mark is kept |
| GcResurrection.RunGuardians | src/guardians.c:73-125 | all guardians, then marking of the objects that changed state: both lists of every guardian, the objects, the marks, exactly; a marked guardian's lists are whole if and only if it is not torn |
| GcResurrection.WholeIsIntact | src/guardians.c:73-125 | a marked guardian that is not torn has both spines and all their objects marked |
| GcTorn.TornLoses | src/guardians.c:73-125 | finding: on the torn heap, whatever running the guardians makes of it, the guardian survives and a pair of its list does not |
| GcTorn.RunTorn | src/guardians.c:73-125 | finding: building that heap and running the modelled code on it ends in this state |
| GcCollect.Collect | src/gc.c:196-260 | a whole collection: pairs and closures in use afterwards are exactly the marked ones with cleared marks and kept contents, all others are free, counters add up, guardians are rearranged as RunGuardians says, and every field of a kept cell names kept cells, apart from primitives and what torn guardians lose |
| GcSurvival.KeptIsClosed | src/gc.c:196-260 | everything that a kept cell refers to is kept, except for the pairs that torn guardians lose |
| GcSurvival.KeptIsExact | src/gc.c:196-260 | without a torn guardian: the kept cells are exactly what the roots reach, the guardians' pairs, and all that the objects that changed state reach; closed under references |
| GcFields.KeptFields | src/gc.c:196-260 | no reference dangles, in terms of fields: the car, the cdr and every slot of a kept cell name no cell of the heap but kept ones, primitives and static strings, and the pairs that torn guardians lose, of which there are none if no guardian is torn |
| GcNext.NextInOrder | src/gc.c:196-260 | the heap after a collection meets the conditions for the next one |
| GcHistory.Conserved | src/guardians.c:41-125 | over any run of push, collect and pop each pushed object is in exactly one of accessible, inaccessible and popped, once per push |
| GcHistory.OnlyUnreachable | src/guardians.c:73-125 | an object is waiting or popped if and only if some collection after its push did not reach it |
| GcHistory.RunIsStep | src/guardians.c:73-100 | what RunOne does to the lists is the collection step of the history |
| GcMemory.Memory.MakePair | src/lists.c:65-87 | Fcons anywhere in a program's life keeps the heap, pools and guardians in order |
| GcMemory.Memory.MakeGuardian | src/guardians.c:25-39 | a new guardian with an empty history |
| GcMemory.Memory.Push | src/guardians.c:41-49 | anywhere in a program's life: the guardian's history grows by this push, and no other cell changes |
| GcMemory.Memory.Pop | src/guardians.c:51-63 | anywhere in a program's life: reports what the history says is next, or nil; the object is still in the heap with all it refers to, and, unless it is itself a guardian, holds what the program last put into it |
| GcMemory.Memory.SetCar | src/lists.c:253-264 | assigning to a pair anywhere in a program's life keeps the memory in order and changes what is recorded of that pair only |
| GcMemory.Memory.SetCdr | src/lists.c:267-278 | the same for the cdr |
| GcMemory.Memory.Collect | src/gc.c:196-260 | anywhere in a program's life: keeps what GcCollect.Collect keeps; guardians among the roots stay; unless a guardian that stays was torn, each one's history grows by this collection with what it reached, its lists are those of the history, roots are still the program's, every cell holds what the program last put into it, and the memory is in order again |
| GcMemory.Memory.NothingDangles | src/gc.c:196-260 | at any time in a program's life the fields of a cell refer to cells of the heap only, and of those that belong to a pool only to cells in use |
| LispScoping.InnermostLexical | src/variables.c:47-57 | a lexical binding gives its symbol the value, whatever is bound outside it, and leaves the value of every other symbol alone |
| LispScoping.InnermostSpecial | src/variables.c:308-334 | the same for special bindings, where the structure may use the symbol |
| LispScoping.TopLevelValue | src/variables.c:368-385 | a variable without a binding has its value in the current structure, a special one in that of the special variables |
| LispScoping.LastShadows | src/lambda.c:196-206 | inside a lambda a variable has the value of the last parameter of its name, lexical or special |
| LispScoping.OthersStay | src/lambda.c:196-206 | and every other variable has the value it has outside |
| LispScoping.ParametersGet | src/lambda.c:66-177 | for every lambda list of required, optional and rest parameters and all arguments: the required ones get theirs in order, the optional ones theirs or nil, the last one the list of the others; with too few, the first that gets none is blamed |
| LispScoping.KeyGets | src/lambda.c:137-149 | a keyword parameter gets the value after the first keyword of its name |
| LispScoping.BodyReads | src/lambda.c:254-335 | calling (lambda params s) gives the value s has where the lambda was made, with the parameters bound, whatever is bound where it is called, and undoes the bindings |
| LispScoping.CallReads | src/lambda.c:254-335 | put together: for every list of required, optional and rest parameters, the call gives the argument of the last parameter named s, and without one the value s has outside |
| LispScoping.ParameterIsArgument | src/lambda.c:123-128 | (lambda (x) x) returns its argument whatever x is bound to outside |
| LispScoping.OptionalIsArgument | src/lambda.c:123-131 | (lambda (#!optional x) x) returns its argument, and nil without one |
| LispScoping.RestIsArguments | src/lambda.c:151-164 | (lambda (#!rest x) x) returns the list of its arguments |
| LispScoping.KeyIsArgument | src/lambda.c:137-149 | (lambda (#!key x) x) returns the value after #:x, and nil without it |
| LispForms.ArgumentsInTurn | src/eval.c:77-116 | arguments are evaluated from the left to the right, the state going from one to the next, and their values keep their order |
| LispForms.CallsInTurn | src/eval.c:129-254 | a call evaluates the function, then the arguments, and applies the one to the others |
| LispForms.QuoteGives | src/eval.c:354-367 | quote gives its argument unevaluated |
| LispForms.LambdaCloses | src/apply.c:305-325 | lambda gives a closure of the environment and structure it is evaluated in |
| LispForms.PrognInTurn | src/eval.c:369-407 | progn evaluates its forms in turn and is what the last one is |
| LispForms.CondFirst | src/eval.c:409-461 | cond is what the body of the first clause is whose test does not evaluate to nil; the tests before it are evaluated in turn, their bodies and the clauses after it are not |
| LispForms.ApplyCalls | src/eval.c:35-75 | apply calls its first argument with the ones between and the elements of the last |
| LispSpecials.SpecialsKept | src/lambda.c:196-290 | every evaluation leaves behind exactly the special bindings that leaked |
| LispSpecials.SpecialsRestored | src/lambda.c:254-335 | an evaluation restores the special environment if and only if no binding leaked during it |
| LispSpecials.EnterKept | src/lambda.c:196-206 | entering a lambda leaves its special bindings to be undone if and only if no special parameter is refused or none is special |
| LispSpecials.NothingLeaks | src/variables.c:99-130 | without restricted structures nothing ever leaks |
| LispLeaks.SpecialLeaks | src/lambda.c:196-206 | finding: a call with two special parameters, the second refused, fails and leaves the first bound |
| LispTail.NoEscape | src/eval.c:129-254 | a tail-call throw reaches only those who evaluated in tail position |
| LispTrampoline.ThrownApply | src/eval.c:35-75 | the thrown form of apply calls the same function with the same arguments if and only if the arguments are plain |
| LispOdd.ApplyOfOne | src/eval.c:198-235 | finding: (apply f) in tail position returns, and without the trampoline is an error |
| LispClean.NextOddExactly | src/lambda.c:254-264 | starting a task is odd exactly for a lambda without a parameter list |
| LispClean.ResumeOddExactly | src/eval.c:77-250 | going on is odd exactly when a dotted argument fails, apply is thrown with arguments that are not plain, or a special parameter other than the last is refused |
| LispClean.CleanRun | src/eval.c:129-254 | a condition on form, scope, store and primitives is kept by evaluation, and no evaluation under it is odd |
| LispClean.CleanPrograms | src/lambda.c:254-335 | under that condition the trampolined evaluator and the one that recurses have the same values, final states, divergence and errors with their data, up to the function that a missing argument is blamed on, and the same outcome if and only if that is the function called; the special environment is restored |
| LispEquivalence.SameUnnamed | src/lambda.c:254-335 | for every evaluation that passes through no odd corner: the same outcomes in both directions, with the call stack left out of errors |
| LispNames.RunBlank | src/apply.c:62-90 | the names on the call stack influence nothing but the data of a missing argument |
| LispNames.RunOwn | src/apply.c:62-90 | without the trampoline a missing argument is always blamed on the function called |
| LispNames.SameRenamed | src/lambda.c:254-335 | for every evaluation that passes through no odd corner: the same outcomes in both directions, with a missing argument blamed on the function called |
| LispNames.SameOutcomes | src/lambda.c:132-133 | and without that change if and only if the call stack names the function called |
| LispOdd.OuterBlamed | src/lambda.c:132-133 | finding: in ((lambda () (g))) the outer function is blamed for the argument that g misses, and recursing on every call it is g |
| LispOdd.ApplyBlamed | src/eval.c:206-213 | finding: for (apply) in tail position the calling function is blamed, elsewhere apply |
| LispInterp.Interp.Feval | src/eval.c:348-352 | evaluation by the mutating interpreter, with its call stack: if no corner was odd, its answer is that of the direct evaluator with a missing argument blamed on the function called, and exactly that if and only if it is; environment, structure and call stack are restored, no tail-call cell escapes, the special environment is restored if and only if nothing leaked, and a clean program meets no odd corner |
| LispInterp.Interp.InnerEval | src/eval.c:129-254 | one form on the mutable environments: the value, error or thrown call and the final state are those of the evaluator, and the scope is restored |
| LispInterp.Interp.Call | src/eval.c:198-254 | a call whose function is known: arguments first, then a throw in tail position and an application elsewhere, with the outcome of the evaluator |
| LispInterp.Interp.EvalArgs | src/eval.c:77-116 | an argument list: the list of values or the first error, with the outcome of the evaluator, and the scope is restored |
| LispInterp.Interp.Progn | src/eval.c:369-407 | progn: forms in order, the first failure ends it, only the last form is in tail position; the outcome of the evaluator |
| LispInterp.Interp.Cond | src/eval.c:409-461 | cond: the first clause whose test holds, only its last form in tail position; the outcome of the evaluator |
| LispInterp.ReadLambdaList | src/lambda.c:31-174 | the first pass over a lambda list: which argument or default each parameter gets, and what is left over; or the parameter without an argument, or what is left of a malformed list |
| LispInterp.Interp.BindVars | src/lambda.c:196-206 | the second pass: binding in order, and the frame that results, also after a refusal |
| LispInterp.Interp.RunLambda | src/lambda.c:254-335 | the trampoline loop: a thrown call is run by the next turn, after undoing the bindings |
| VmUnwinding.UnwindMeans | src/lispmach.h:2076-2126 | the error path: without a handler both environments are those at entry; otherwise they, the stack depth and the bind stack are those of the topmost handler, with the exception pushed |
| VmUnwinding.TailCallIsClean | src/lispmach.h:618-630 | an eliminated call leaves no special binding and no handler behind |
| VmTail.TailCallEnters | src/lispmach.h:590-690 | an eliminated call enters the callee as a call that is not eliminated would: its code from the start, its own environment and structure (rep_USE_CLOSURE), the arguments above the function, one empty frame, impurity zero, the caller's special environment and memory, and at least the room it asks for |
| VmTail.TailCallRuns | src/lispmach.h:590-690 | from there it runs as if entered anew: for every number of steps the outcome is that of the fresh activation, in value, exception, memory and environments, as long as that does not break for lack of room |
| VmTail.TailCallMeans | src/lispmach.h:604-660 | eliminating a call preserves its meaning: the same value or exception, memory and special environment as waiting for the callee and returning its value |
| VmHandling.BindingHolds | src/lispmach.h:720-736 | BIND, SPEC_BIND and FLUID_BIND link one new binding before the others that holds the value popped, or the symbol or fluid with its value, in the order each instruction pops them |
| VmHandling.CatchGetsThrow | src/lispmach.h:1390-1416 | from throw to handler: a handler that catches the tag thrown goes on at its target with the value thrown on the stack, and any other throws on the same exception |
| VmHandling.ErrorGetsData | src/lispmach.h:1459-1482 | an error handler that accepts an error has its data in a new lexical binding of a frame of its own, and otherwise leaves the error in place |
| VmRuns.HandlerRestores | src/lispmach.h:1418-1425 | over any run from a BINDERR to the exception it catches: lexical and special environment, stack depth and bind stack are those of the BINDERR |
| VmRuns.SpecialRestored | src/lispmach.h:1427-1430 | however a run ends, by return or uncaught exception, the special environment is the one at entry |
| VmRuns.EnvRestored | src/lispmach.h:1427-1430 | and so is the lexical environment if no call was eliminated |
| VmRuns.ImpurityCovers | src/lispmach.h:727-736 | over any run impurity is at least the special bindings plus handlers on the bind stack |
| VmRuns.ImpurityCounts | src/lispmach.h:727-736 | and exactly that as long as no handler is popped as a frame |
| VmRuns.PoppedHandlerDrifts | src/lispmach.h:976-980 | finding: popping a handler as a frame leaves impurity one too high |
| VmRuns.RefusalBreaks | src/lispmach.h:727-736 | finding: SPEC_BIND breaks the bind stack if and only if the structure may not bind the symbol; otherwise both environments to be restored are unchanged |
| VmSpace.TailCallBuffers | src/lispmach.h:632-653 | an eliminated call: the new stack is large enough, the arguments lie in the other buffer, and a new allocation strictly increases the total size |
| VmSpace.BoundedStacks | src/lispmach.h:488-497 | over any run at most 2046 stacks and 1023 bind stacks are ever allocated by eliminated calls |
| VmSpace.StartSized | src/lispmach.h:480-510 | the state a function is entered in meets what the theorems about runs ask of their first state |
| VmSpace.TailCallBreaks | src/lispmach.h:632-653 | finding: an eliminated call breaks if and only if the callee needs no stack and there is no spare buffer |
| VmSpace.FrameLimit | src/repint.h:171-177 | finding: one more lexical binding is undone correctly if and only if the frame holds fewer than 65535; at that count it is taken for a special one |
| VmMachine.ByteVm.Execute | src/lispmach.h:590-736 | one instruction on the arrays, pointers and registers of the VM is one step of the machine |
| VmMachine.ByteVm.HandleError | src/lispmach.h:2076-2126 | the error path on the arrays, against the abstract unwinding |
| VmMachine.ByteVm.MoveBuffers | src/lispmach.h:632-653 | swapping or replacing the two stack buffers: the arguments keep their contents and the new stack is another array |
| VmMachine.ByteVm.Interpret | src/lispmach.h:480-736 | running the VM is a run of the machine, so a returned function restored the special environment |
| Md5Block.ProcessOne | src/md5.c:286-405 | the unrolled rounds with their rewritten boolean functions are one compression of RFC 1321, section 3.4 |
| Md5Suite.InitialBytes | src/md5.c:63-73 | the registers start as the sixteen bytes of section 3.3 of RFC 1321 |
| Md5Suite.PaddedAt | src/md5.c:103-121 | every byte of a padded message, of any length: the message, 80, zeros, and the length; at most 72 bytes more than the message |
| Md5Suite.EmptyDigest | src/md5.c:63-340 | MD5 of the empty message is d41d8cd98f00b204e9800998ecf8427e (section A.5 of RFC 1321), byte by byte |
| Md5Suite.AbcDigest | src/md5.c:63-340 | MD5 of "abc" is 900150983cd24fb0d6963f7d28e17f72, byte by byte |
| Md5Context.Md5.ProcessBlock | src/md5.c:263-419 | absorbs every 64-byte block and adds the length to the two-word count |
| Md5Context.Md5.ProcessBytes | src/md5.c:205-248 | after any call the context holds the old message followed by the new bytes, with at most 64 waiting in the buffer; chunks under 2^32 bytes keep the count right |
| Md5Context.Md5.Finish | src/md5.c:98-124 | the digest of RFC 1321 of the message held |
| Md5Context.Md5.Read | src/md5.c:80-92 | the sixteen bytes of the four registers, low byte first |
| Md5Context.PadIs | src/md5.c:104-118 | the padding always fits the 128-byte buffer and completes a block |
| Md5Context.BitsAre | src/md5.c:112-115 | the two words written are the bit length modulo 2^64 |
| Md5Context.CountExact | src/md5.c:279-284 | finding: for every 64-bit length the two-word count is right, modulo 2^64, if and only if low word and length together stay below 2^33 |
| Md5Context.CountBelow | src/md5.c:279-284 | which is always so for fewer than 2^32 bytes |
| Md5Context.CountLost | src/md5.c:279-284 | finding: one chunk of 2^33 bytes is counted as 2^32 |
| Md5Streams.DigestChunks | src/md5.c:205-248 | however a message is cut into chunks under 2^32 bytes, the result is the digest of the message |
| Md5Streams.DigestBuffer | src/md5.c:186-203 | the digest of a buffer |
| Md5Streams.DigestStream | src/md5.c:129-180 | the digest of a file read in blocks of 4096 bytes |
| NumberTheory.GcdReduces | src/numbers.c:1643-1646 | what mpq_canonicalize divides by: the quotients have no common divisor but 1 |
| NumberTheory.LowestUnique | src/numbers.c:1640-1646 | a number has one fraction in lowest terms |
| NumberTower.PromoteDup | src/numbers.c:477-512 | both operands in the larger kind with their values unchanged, and a result cell, which is the converted operand itself if there is one |
| NumberTower.MaybeDemote | src/numbers.c:386-423 | the smallest representation of the same number |
| NumberTower.SmallestUnique | src/numbers.c:386-423 | equal numbers in smallest representation have the same kind and contents |
| NumberTower.Add | src/numbers.c:2159-2175 | the exact sum, smallest, in a cell of its own; on small integers the tagged addition overflows exactly when the sum leaves the range; operands are not changed |
| NumberTower.Sub | src/numbers.c:2193-2208 | the same for the difference |
| NumberTower.Mul | src/numbers.c:2210-2240 | the same for the product, with both overflow tests |
| NumberTower.Div | src/numbers.c:1621-1704 | zero divisors are refused; otherwise the smallest representation of a number that is the exact quotient if and only if the operands are not the most negative small integer and -1 |
| NumberTower.WrappedQuotient | src/numbers.c:1633-1636 | finding: the most negative small integer divided by -1 gives itself |
| NumberModulo.ModuloInt | src/numbers.c:1330-1344 | the floored remainder, from the truncated one and a sign test |
| NumberModulo.FloorMeans | src/numbers.c:2430-2447 | the floor and truncation used to state the two operations are the integers next to the fraction |
| NumberModulo.RemainderMeans | src/numbers.c:2413-2428 | X - Y*truncate(X/Y) is smaller than Y and zero or with the sign of X |
| NumberModulo.ModuloMeans | src/numbers.c:2430-2447 | X - Y*floor(X/Y) is smaller than Y and zero or with the sign of Y |
| NumberModulo.OnIntegers | src/numbers.c:1330-1344 | on integers the two are the truncated and floored remainders |
| NumberModulo.Remainder | src/numbers.c:1965-2020 | on every pair of exact operands: X - Y*truncate(X/Y) in smallest representation, smaller than Y and zero or with the sign of X; or a refusal for zero |
| NumberModulo.Modulo | src/numbers.c:2022-2095 | on every pair of exact operands: X - Y*floor(X/Y) in smallest representation, smaller than Y and zero or with the sign of Y, if and only if it is not a big integer by a small one of the other sign that leaves a rest; in that case the remainder |
| NumberModulo.UnfixedExample | src/numbers.c:2040-2056 | finding: -2^64 modulo 3 is -1, where the floored modulus is 2 |
| LocalFiles.ExpandFileName | src/local-files.c:157-251 | the two pointers over the buffer write the normal form of the name, no longer than the name unless it is empty |
| LocalFiles.StepBack | src/local-files.c:177-192 | stepping back in the buffer finds where the last component begins and ends, and whether it is all dots |
| LocalFiles.UpTests | src/local-files.c:193-212 | the two tests for ".." hold exactly when there is a component to go up from, and exactly at the root |
| FileNames.NormalResolves | src/local-files.c:157-251 | a name and its normal form are both absolute or both relative, and resolve to the same components |
| FileNames.UnchangedExactly | src/local-files.c:238-251 | a name is returned as it is if and only if it is in normal form |
| FileNames.NormalIdempotent | src/local-files.c:157-251 | expanding twice is expanding once |
| FileNames.SameNormal | src/local-files.c:157-251 | two names have the same normal form, but for a slash at the end, if and only if they resolve alike |
| FileNames.NormalShape | src/local-files.c:165-237 | in a normal form no component is empty except at the ends, none is "." unless it is the whole name, and ".." is only found in front of a relative one |
| FileLaws.FirstResolves | src/local-files.c:157-237 | a name of one component leads to it, from the root or from where one is |
| FileLaws.ChildResolves | src/local-files.c:157-237 | a component added leads one further; an empty one and "." lead nowhere |
| FileLaws.ParentResolves | src/local-files.c:177-212 | ".." leads one component back, stays at the root, and is kept where a relative name has nothing to go back to |
| FileLaws.ThereAndBack | src/local-files.c:157-251 | a component followed by ".." resolves, and expands but for a slash at the end, as if neither were there |
| LispSymbols.SymbolReadsBack | src/symbols.c:88-172 | a printed symbol reads as itself if and only if its name is readable: without NUL, not empty, not a sign and a float of five characters ending in ".0", and either printed with a backslash or not a number; whatever else it reads as takes the same text |
| LispSymbols.UnquotedNumber | src/read.c:286-460 | the scanner and the number parser take a name that is printed as it is for a number exactly when it is signs followed by an integer, a ratio or a decimal |
| LispSymbols.PointZeroToken | src/read.c:481-495 | the last check for a float adds nothing for names that are printed as they are |
| LispData.IntegerReadsBack | src/numbers.c:868-925 | every printed integer reads as itself |
| LispData.ReadPrinted | src/read.c:166-282 | what reading any printed tree gives, dots and symbols printed as nothing included, and that what follows is left to be read |
| LispSyntax.ListPrints | src/print.c:47-80 | for every list: parentheses around its elements with single spaces between them, and a dot before a tail that is not the empty list |
| LispSyntax.VectorPrints | src/print.c:47-113 | for every vector: brackets around its elements with single spaces between them |
| LispSyntax.NumeralPrints | src/print.c:47-113 | integers print as decimal digits, the most significant first, after a minus sign if negative |
| LispSyntax.PlainNamePrints | src/symbols.c:88-172 | a name without special characters that does not look like a number prints as it is |
| LispSyntax.AbbreviationsRead | src/read.c:900-1088 | the quote, the backquote, the comma and the comma with an at sign read as lists of their symbol and the form |
| LispSyntax.SkippedRead | src/read.c:900-1088 | white space and comments before a form are skipped |
| LispSyntax.PrefixedReads | src/read.c:286-460 | #b, #o, #d and #x before digits of base 2, 8, 10 and 16 read as the integer they are |
| LispLost.TreeReadsBack | src/print.c:47-113 | for every tree: it reads back if and only if all its symbols are readable and nothing follows a symbol printed as a dot |
| LispLost.SeenBound | src/read.c:212-236 | a tree in which something is out of its place loses leaves when it is read |
| LispLost.DotFirst | src/read.c:212-236 | finding: a list that begins with the symbol "." and has more does not read |
| LispLost.DotIsLost | src/read.c:212-236 | finding: a list of a, "." and b prints as the pair of a and b, and reads as that pair |
| LispLost.EmptyNameIsLost | src/symbols.c:88-172 | finding: a list of the symbol with the empty name reads as the empty list |
| LispLost.NulIsLost | src/symbols.c:138-145 | finding: a symbol named a, NUL, b prints as a and reads as another symbol |
| LispLost.FloatNameIsLost | src/read.c:481-495 | finding: the symbol "+123.0" is printed with a backslash and still reads as a float |
| LispLost.NumberNamesAreLost | src/symbols.c:112-136 | finding: names of two signs and a digit, and of a digit, "e" and a digit, are printed as they are and read as numbers |
| LispReader.Stream.Readl | src/read.c:900-1088 | the reader on a stream with one character of lookahead is the reading function, in result and in what it leaves |
| LispReader.Stream.ReadList | src/read.c:166-282 | lists, with dotted tails, comments and input that breaks off |
| LispReader.Stream.ReadVector | src/read.c:505-535 | vectors, from the list of their elements |
| LispReader.Stream.ReadSymbol | src/read.c:286-503 | symbols and numbers, through the scanner's state |
| LispReader.Stream.ParseInteger | src/numbers.c:868-925 | the integer that is written, or nothing; so few digits as to take the short path never leave the small integers |
| LispReader.Stream.ReadBack | src/read.c:900-1088 | reading what was printed gives the same tree and leaves what follows, if and only if its symbols are readable and in their places |
| LispPrinter.Output.Print | src/print.c:47-113 | the printer writes the printed form, piece by piece |
| LispPrinter.Output.SymbolPrint | src/symbols.c:88-172 | the buffer of twice the length of the name is enough, and holds the name escaped, up to its first NUL |

## Findings

Where the code does not keep what is promised, it is modelled as it is; a lemma gives the input, and the
promise is proved under, or equivalent to, the condition named.

- Guardians (src/guardians.c:73-125). A guardian that is unmarked when its list is read, and is then
  resurrected by another guardian's object, keeps a list whose older pairs are freed if it had moved
  entries before entries that were already waiting. `GcTorn.RunTorn` builds such a heap and runs the code,
  `GcTorn.TornLoses` shows what any run must do. `GcResurrection.RunGuardians`: the lists of a marked
  guardian are whole if and only if it is not torn (`Torn`: unmarked before the run, with entries moved and
  entries waiting).
- Tail calls (src/eval.c:198-235, src/lambda.c:254-335). `(apply f)` is an error, and in tail position a
  call of `f` without arguments: `LispOdd.ApplyOfOne`. `LispTrampoline.ThrownApply` says for which
  arguments the two agree, `LispClean.NextOddExactly` and `LispClean.ResumeOddExactly` say which steps
  are odd, and `LispClean.CleanPrograms` gives a condition on form, scope, store and primitives under
  which both evaluators always agree, but for the next point.
- Missing arguments (src/lambda.c:132-133, src/eval.c:211). The trampoline runs a thrown call in the frame of
  the application that caught it, so the data of the error name that function and not the one called:
  `LispOdd.OuterBlamed` for `((lambda () (g)))`, `LispOdd.ApplyBlamed` for `(apply)`.
  `LispNames.SameRenamed`: nothing else differs. `LispNames.SameOutcomes`: the outcome is the same if and
  only if the function named is the one called, which without a throw it always is (`LispNames.RunOwn`).
- Refused special bindings. In src/lambda.c:196-206 the frame is not tested inside the loop: after a
  refusal the earlier special bindings are never undone (`LispLeaks.SpecialLeaks`), or, when the refused
  parameter is not the last, the body runs with the exception pending. `LispSpecials.EnterKept` is the
  exact condition for one call and `LispSpecials.SpecialsRestored` for an evaluation. In
  src/lispmach.h:727-736 a refusal overwrites the frame with a null pointer: `VmRuns.RefusalBreaks`, if
  and only if the structure may not bind the symbol.
- Stack reuse (src/lispmach.h:632-653). A callee that asks for no stack is given the null buffer when
  there is no other yet: `VmSpace.TailCallBreaks`, if and only if.
- Frame counts (src/repint.h:171-177). The 65536th lexical binding of a frame carries into the count of
  special ones: `VmSpace.FrameLimit`, if and only if.
- Impurity (src/lispmach.h:976-980). A handler popped by POP_FRAME stays counted, so later calls are not
  eliminated: `VmRuns.PoppedHandlerDrifts`; it never drops too low (`VmRuns.ImpurityCovers`).
- MD5 (src/md5.c:279-284). One carry is noticed per block of input, so a chunk of 2^33 bytes is counted
  as 2^32: `Md5Context.CountLost`. `Md5Context.CountExact`: for any 64-bit length the count is right if and
  only if the low word and the length together stay below 2^33, which covers all chunks under 2^32 bytes
  (`Md5Context.CountBelow`).
- Division (src/numbers.c:1633-1636). The most negative small integer divided by -1 wraps around:
  `NumberTower.Div`, if and only if.
- Modulo (src/numbers.c:2040-2056). For a big integer by a small one the divisor is converted into the
  cell that receives the remainder, so the test for a wrong sign compares the remainder with itself:
  `NumberModulo.UnfixedExample`. `NumberModulo.Modulo`: right if and only if the signs agree, the division
  leaves no rest, or the operands are of other kinds. The documentation at src/numbers.c:2430-2440
  promises the floored modulus for all.
- Symbols (src/symbols.c:88-172, src/read.c:286-503). Names made of two or more signs and a number, and
  numbers with an exponent, are printed without a backslash and read as numbers
  (`LispLost.NumberNamesAreLost`). Names of six characters like `+123.0`, and `+inf.0`, read as floats
  however they are printed (`LispLost.FloatNameIsLost`). A name is printed up to its first NUL only
  (`LispLost.NulIsLost`). The empty name prints as nothing (`LispLost.EmptyNameIsLost`), and the symbol `.`
  is taken for the dot of a pair when something follows it in a list (`LispLost.DotFirst`,
  `LispLost.DotIsLost`). `LispSymbols.SymbolReadsBack` is the exact condition on names and
  `LispLost.TreeReadsBack` that on trees.

## Left out

- GcMemory.Memory.Collect: promises the order of the memory afterwards only if no guardian that stays was torn.
- RegexpChains.AltsReach: speaks of the chain in the image; that reg emits that image is the row of Compiler.Reg.
- RegexpChains.AltsReachTail: speaks of the chain in the image, as the row above.
- RegexpChains.GroupReach: speaks of the chain in the image; groups are numbered and emitted in Compiler.Reg.
- RegexpChains.PieceReach: speaks of the chain in the image; that regpiece emits it is the row of Compiler.RegPiece.
- Md5Context.Md5.Finish: asks that the count is right, which holds for chunks under 2^32 bytes.
- VmMachine.ByteVm.Interpret: a step budget stands for running on; nothing is said of runs that break.
- VmTail.TailCallRuns: plain instructions and calls are taken to see nothing of the buffers but the cells in use.
- VmTail.TailCallMeans: the same, for a caller without a null frame on its bind stack.
- RegexpWriter.ShowParses: members of a class that only a range can give, and ordinary characters behind a
  backslash, are not in canonical form; `RegexpBytes.RangeLaw` speaks of ranges.
- LispScoping.BodyReads: the body is one variable; other bodies are evaluated at the same place.
- LispInterp.Interp.Feval: a budget stands for the C stack; the statements hold for every budget that was enough.
- Regular expressions: lazy operators on groups, `??`, `\b`, `\B` and single `\W`, `\S`, `\D` are outside the
  modelled fragment; letters beyond ASCII are not folded; `char` is taken as unsigned.
- Collector: types swept by their own functions are one list of other objects; weak references, recorded
  origins and the WEAK_MOD tables are not modelled; nil counts as marked from the start.
- `GcMemory`: the program makes pairs and guardians, assigns to pairs, pushes, pops and collects; closures are
  allocated and swept by their pool, but the program there makes no new ones.
- Evaluator: macros, autoloading, the debugger, the depth limit, interrupts and backtraces; special
  forms other than progn, cond, quote and lambda; subrs are one function of arguments and store.
- Evaluator: where a dotted argument fails, eval_list stores a null pointer in the list and goes on; where a
  refused special parameter is not the last, the body runs with the exception pending. Both are flagged as
  odd by the model and not followed further.
- Byte code: registers, OP_APPLY and the arithmetic and list instructions, which are one kind of plain
  instruction; those and called functions are taken to leave the two environments as they found them.
- Numbers: floats, printing and reading of fractions, comparison, gcd and quotient of the language, shifts and
  bit operations; GMP integers are unbounded integers.
- File names: a name is a C string, what would follow a NUL not being part of it; the buffer is as long as
  the name, where the code has PATH_MAX bytes; links and the file system play no part.
- Reader: strings, characters, keywords, byte code, `#|` comments, `#!` and `#t` are recognised as foreign
  and not read; numbers other than integers are kept as the text handed to the number parser; lists are
  built as values, not by assigning to the last pair.
- Printer: print-length and print-level are taken as unset; only pairs, the empty list, vectors, integers and
  symbols are printed; bytes above 127 are not control characters.
- Allocation never fails anywhere, and no call is interrupted.
