# The Lua 5.1 kernel: verified models

Models of the kernel's algorithms with short code and deep invariants, and proofs
of what they are for. `dafny verify dfyconfig.toml` checks the whole project.

| files | what they model |
|---|---|
| `gc_*.dfy`, `mark_bits.dfy`, `string_hash.dfy` | the incremental collector, its barriers, the string table and open upvalues, run against a program that interferes between any two steps |
| `code_*.dfy` | the generator of code for `and`, `or`, `not` and comparisons with its threaded jump lists, the parser's procedures for conditionals, loops and `break`, the machine that runs the code, and its instructions as words |
| `table_*.dfy` | tables: array part, scattered hash part, rehash, traversal, length, and the reference allocator built on them |
| `match_*.dfy` | the pattern matcher, `string.find` and `string.match`, and patterns as the manual describes them |
| `sort_order.dfy`, `table_sort.dfy` | the quicksort of `table.sort` |
| `chunk_*.dfy` | the bytecode checker, dumping and loading of precompiled chunks, the meaning of operands and the layout of the format |
| `parse_expr.dfy` | precedence climbing |
| `scope_*.dfy` | resolution of names across functions and its limits, closures, and upvalues as shared variables |

Each part has two layers. What the source computes is a function, or a relation
over steps, and the results are lemmas about it. Where the source changes things
in place there is also a class or a method with the same fields and loops, whose
contract ties its final state to that function (`Collector`, `FuncState`, `Parser`,
`Table`, `RefTable`, `Matcher`, `DumpState`, `LoadState`, `Zio`, `LexState`, ...).

Collector: a state holds the objects with their contents, the mark bits, the gray
lists and the collector's other registers. `GcSafety.Run` is a sequence of states
that starts where the invariant holds; each step is one `singlestep`, a piece of
a full collection, or an operation of the program. That the invariant is kept is
what `NextInv` proves, and everything said about runs rests on it. C code holds
objects that it has not stored anywhere in `tmp`; the collector runs only while
that set is empty. The invariant holds in the state `lua_newstate` starts from
(`GcCollector.InitialInv`); the strings that it then creates and fixes are operations
of the first run (`GcSafety.FixedStrings`).

Code generator: the world (globals, calls, comparisons, all of which may run any
code) answers according to everything asked before, so that equal answers and equal
questions mean the same evaluation. `Out` is what generated code does, exactly, with
the defect described below; `Eval` is the language. A jump that has been emitted and
not yet fixed holds the destination `NO_JUMP`, and theorems are about all final codes
that an unfinished code can become. For statements `Exec` is the language, with a
bound on the rounds of loops that does not change a result (`ExecMore`); `GenStat` is
what the parser's procedures compile, with the lists of jumps that wait meanwhile.

Matcher: `Play` says what comes of a pattern when the number of repetitions of every
repeated item is given; nothing is left to search. `Search` is the backtracking
search. The theorem relates them, for every pattern, right or wrong. What single items
match is said again in `MatchMeaning`, without the matcher's functions; `MatchManual`
has patterns as a syntax tree, with what section 5.4.1 of the Lua 5.1 Reference Manual
says they match, and `MatchErrors` what is wrong with a pattern by its characters.

References: where a model and what it models could share a mistake there is a second
account, which does not use the functions in question, and a lemma that the two agree:
`GcEffects` (what operations of the program do), `GcReads` (what is reachable, by
fields), `GcAllowed` (what programs can do), `GcSteps` (what a step does to registers),
`CodeObeys` and `CodeMeaning` (what instruction words and operators mean),
`ChunkOperands` (what instructions name, by opcode), `ChunkLayout` and `ChunkSpelling`
(the bytes of a chunk), `ScopeLimits` (when a name can be resolved). The generator and
the bytecode checker are models of their own, and `CodeAccepted` says that what the one
makes the other accepts.

## Findings

- A literal that decides `and` or `or` is compiled to a jump that takes pending jumps
  along without stripping the values they deliver (src/lcode.c:59-66, 547-549,
  575-577). `local b = ((1 or false) and true) or false` leaves 1 in `b`
  (`CodeExamples.StaleValue`).
- The same happens to a jump that is pending from the statement before
  (src/lparser.c:1160): `local a; if a then end; local b = false and 1` leaves nil in
  `b` (`CodeExamples.StaleCondition`). `CodeTheorems.ValueIff` says exactly which
  expressions suffer from either, at which places.
- The checker accepts a LOADBOOL with operand C above 1 without looking where it
  skips to, and the machine skips for any C but 0 (src/ldebug.c:374-381,
  src/lvm.c:411-415): `ChunkControl.Escapes`; `Confined` says exactly when it matters.
- The short cut of `string.find` looks for special characters in a pattern that it
  takes to end at the first zero, and does not count `)` among them
  (src/lstrlib.c:183, 502-503). So `)` is found as text by `find` and is an error for
  `match` (`MatchFind.ParenthesisInPattern`), and for a pattern with an embedded zero
  and nothing special before it `find` compares all its bytes while `match` stops at
  the zero (`MatchFind.ZeroInPattern`). `MatchFind.PlainExactly`: where the short cut
  is taken, the two agree on all texts exactly if the pattern has neither.

## Model

| member | source | states |
|---|---|---|
| GcSafety.Safety | src/lgc.c:556-607 | in every state of every run, whatever the program does between steps, no reachable object has been freed or is dead |
| GcSafety.NoBlackToWhite | src/lgc.h:86-97 | in every state of every run, while the collector marks no black object refers to a white one: the barriers and the gray lists see to it |
| GcSafety.NothingDangles | src/lgc.c:407-428 | in every state of every run, the references in an object that is not dead lead to objects that exist and are not dead |
| GcSafety.NextInv | src/lgc.c:556-659 | every step of a run keeps the invariant: links, colours by kind, no dead references, tri-colour while marking, swept parts white |
| GcSafety.OpInv | src/lgc.h:86-97 | every operation of the program keeps it: allocation, barriered stores into tables and other objects, unbarriered stack writes, captures, closing, interning |
| GcEffects.DoEffect | src/lvm.c:133-158 | every operation of the program has its effect and no other: a store stores, a made object is there, a string is there once, a captured slot has its upvalue held, an assigned upvalue has the value, closing closes; beyond that barriers change nothing but colours and gray lists |
| GcEffects.AssignedAlone | src/lvm.c:447-452 | assigning to an upvalue changes what that upvalue reads and what no other upvalue reads |
| GcReads.ReadSafe | src/lgc.c:69-121 | in every state of every run whatever is read from a field of a reachable object is reachable, has not been freed and is not dead |
| GcReads.ReachableExactly | src/lgc.c:493-517 | reachable is exactly what every set has that holds the roots and is closed under reading fields |
| GcReads.StronglyExactly | src/lgc.c:158-200 | strongly reachable is the same without the keys and values that the table's `__mode` says are weak |
| GcAllowed.StoreAllowed | src/lvm.c:133-158 | a table that can be reached can become any table from which nothing more can be read than from itself and the two values stored |
| GcAllowed.TableActions | src/lvm.c:133-158 | so slots, entries and the metatable of a reachable table can be set to anything at hand |
| GcAllowed.StackActions | src/lvm.c:447-452 | slots of stacks and upvalues can be assigned, slots captured, upvalues closed, threads resumed |
| GcAllowed.ReturnAllowed | src/lvm.c:635-641 | a function can close its upvalues and then give its part of the stack up |
| GcSafety.RunExtends | src/lgc.c:610-633 | a run goes on with any step from its last state |
| GcInvariant.BlackToWhite | src/lgc.c:277-320 | one state of the marking phase: what is black has been traversed, so all it refers to is marked |
| GcSteps.StepRegisters | src/lgc.c:556-607 | the phases in their order; the whites change places when marking ends; one chain loses its dead strings at a time; at the end of a sweep a string table of more than 64 chains and less than a quarter full is halved; other registers stay |
| GcExact.FullGcExact | src/lgc.c:636-659 | from any state of the collector a full collection leaves exactly the fixed objects, the strongly reachable ones, and strings held by weak tables that survive |
| GcExact.FullGcKeeps | src/lgc.c:636-659 | in particular it frees nothing strongly reachable, although it throws the marks of an unfinished cycle away |
| GcFull.StepLess | src/lgc.c:556-607 | every step towards the end of a cycle makes a measure smaller: cycles end |
| GcKeep.CollectorKeeps | src/lgc.c:556-607 | a step of the collector leaves every strongly reachable object alive with its contents, but for weak entries whose key or value is dead |
| GcClose.CloseUpvalsEffect | src/lfunc.c:96-112 | `luaF_close` closes, with the values of their stack slots, exactly the open upvalues of the thread at or above the level that are not dead, frees the dead ones, and changes nothing else; in any phase |
| GcClose.CloseKeepsValues | src/lfunc.c:96-112 | the value read through any upvalue that is there afterwards is the value read before |
| GcCapture.CaptureShared | src/lfunc.c:53-79 | two captures of the same live local give the same upvalue, which has the value of the local |
| GcCapture.FindUpvalInv | src/lfunc.c:53-79 | capturing keeps the invariant, in particular lists that descend strictly by level, also when a dead upvalue is revived in the middle of a sweep |
| GcCollector.InternResult | src/lstring.c:75-92 | the string returned is the only object with these bytes, and is not dead, whatever the phase |
| GcCapture.InternInv | src/lstring.c:50-92 | interning keeps the invariant, in particular the string table: one chain for every string, by its hash, and the right count |
| StringHash.FindBucket | src/lstring.c:75-81 | the loop over the characters computes the hash |
| StringHash.Sampled | src/lstring.c:75-81 | the hash depends on the length and on the characters from the last one back in steps that grow with every 32, on no others |
| StringHash.Examples | src/lstring.c:75-81 | the hashes of three short strings |
| GcStrings.ResizeTable | src/lstring.c:22-47 | resizing the string table keeps all strings, each in the bucket of its hash, and changes nothing else |
| GcCollector.InitialInv | src/lstate.c:143-190 | the invariant holds in the first state, before any string is there |
| GcSafety.FixedStrings | src/lstate.c:70-81 | from any state of any phase there is a run that makes any strings given and fixes them, as the reserved words, the metamethod names and the memory message are, keeps those fixed before, and ends holding none of them |
| GcFixed.FixInv | src/lstring.h:24 | fixing a string keeps the invariant in every phase |
| GcCollector.Collector.FixString | src/lstring.h:24 | `luaS_fix` |
| GcCollector.Collector.Step | src/lgc.c:556-607 | the imperative step does what the step of the state machine does |
| GcCollector.Collector.FullCollection | src/lgc.c:636-659 | the imperative full collection ends in pause and leaves exactly the survivors |
| GcCollector.Collector.NewLStr | src/lstring.c:75-92 | search in the bucket, revival, allocation and growth of the table together |
| GcCollector.Collector.FindUpvalue | src/lfunc.c:53-79 | the loop down the open list finds or inserts the upvalue that the model says |
| GcCollector.Collector.CloseUpvalues | src/lfunc.c:96-112 | the loop of `luaF_close` |
| GcCollector.Collector.BarrierTable | src/lgc.h:89-90 | the guarded back barrier makes a black table that gets a white value gray again, and puts it on the list of those traversed at the end |
| MarkBits.EncodeFaithful | src/lgc.h:42-60 | the colours and flags of the model are the bits of the mark byte |
| MarkBits.DeadTest | src/lgc.h:70-75 | `isdead` is the dead test of the model |
| MarkBits.SweepTest | src/lgc.c:414-416 | the sweep's test on the mark byte keeps exactly what is not dead or is fixed |
| MarkBits.ColorTests | src/lgc.h:66-68 | so are the tests for white, black and gray |
| MarkBits.ChangeWhite | src/lgc.h:73 | `changewhite` turns one white into the other; on no other colour does it leave a colour |
| MarkBits.MakeWhite | src/lgc.c:34-35 | `makewhite` gives the current white and keeps the flags |
| MarkBits.MakeGray | src/lgc.c:37-38 | clearing the white bits of an object that is not black, or the black bit of one that is not white, gives a gray one with the same flags |
| MarkBits.MakeBlack | src/lgc.h:74 | setting the black bit gives a black object with the same flags exactly if it has left white |
| CodeMeaning.Comparisons | src/lcode.c:681-694 | in a world that compares, the meaning given to the six operators is comparing, each in its direction |
| CodeMeaning.Logic | src/lcode.c:524-591 | `and` and `or` give one of their operands, and nothing is asked of the second if the first decides; only false and nil are false |
| CodeWords.EncodedFields | src/lopcodes.h:60-107 | the word of an instruction has its opcode and its operands in their fields |
| CodeObeys.WordsObeyed | src/lvm.c:403-606 | the machine does what the words say by the numbers of their opcodes: which register gets what, what is asked, where a test and a jump go |
| CodeObeys.ObeysOnce | src/lvm.c:403-606 | and the words leave no freedom: two outcomes have the same place, questions and values |
| CodeWords.GoesExactly | src/lvm.c:403-606 | the machine can go from one word to another exactly where the control flow that the checker's theorems use has an edge |
| CodeWords.StepNames | src/lvm.c:403-606 | what an instruction does depends on no registers and constants but those it names, and it changes no others, but what a call leaves above its result |
| CodeRuns.GenRuns | src/lcode.c:304-626 | control that comes to the code of any expression, from before it or by a pending jump, leaves it as `Out` says, with the same questions to the world in the same order, whatever code follows and wherever its jumps will be sent |
| CodeTheorems.ValueCorrect | src/lcode.c:390-420 | where an expression has no leak its code puts its value in the next register, keeps the registers in use, and asks the world what the language says |
| CodeTheorems.ConditionCorrect | src/lcode.c:539-591 | a condition goes on behind the test or to the target of its list according to its truth value, with literals in it or not, as long as the operands of its comparisons have no leak |
| CodeTheorems.ValueExact | src/lcode.c:59-66 | without risk, right on every run and from every entry; with risk, there is a run on the machine to the end of the code with a wrong value or wrong questions |
| CodeTheorems.ValueIff | src/lcode.c:59-66 | generated code followed by a jump out of it is right on all runs, from its start and along every pending jump, exactly if there is no risk |
| CodeTheorems.ConditionExact | src/lcode.c:539-591 | the same for conditions: the only risk is a leak in the operands of their comparisons, and then some run on the machine asks a wrong question |
| CodeTheorems.StopsOnce | src/lvm.c:373-386 | a configuration one step before the machine stops is reached once |
| CodeExact.RightIffNoLeak | src/lcode.c:539-591 | for every expression, locals included, and for both ways of being come to: right on all runs exactly if there is no leak whichever locals are true |
| CodeExact.RunsRight | src/lcode.c:524-591 | a run without stale operands asks the right questions and leaves by the exit that the proper value says |
| CodeExact.PlainNoLeak | src/lcode.c:539-591 | where no literal decides an `and` or `or` there is no leak: locals, globals, calls, comparisons, numbers and strings are safe operands |
| CodeExamples.StaleValue | src/lcode.c:575-577 | the first failing program, run on the machine |
| CodeExamples.StaleCondition | src/lparser.c:1141-1161 | the second one: no leak by itself, wrong because of the pending jump |
| CodeLists.PatchListSpec | src/lcode.c:150-160 | patching a list sends each member that can deliver a value to one target, with its register, the others to the other, and touches nothing else |
| CodeCorrect.GenGood | src/lcode.c:94-196 | after compiling any expression its true, false and pending lists are disjoint lists of distinct jumps not fixed yet; of the code before only pending jumps and their tests have changed; no jump is lost: one that is not fixed is on one of the lists or was not fixed before; and the value is where its kind says |
| CodeFuncState.FuncState.Concat | src/lcode.c:185-196 | concatenation of chains threaded through the code, changing one link |
| CodeFuncState.FuncState.PatchListAux | src/lcode.c:150-160 | the loop over a chain does what patching the list does; other chains keep their links |
| CodeFuncState.FuncState.Expression | src/lparser.c:828-853 | the imperative generator leaves the code of the model, threaded |
| CodeFuncState.FuncState.ExpressionToNextReg | src/lcode.c:414-419 | so it does with the value in the next register |
| CodeFuncState.FuncState.Condition | src/lcode.c:539-591 | and as a condition, with the chain of exits |
| CodeBlocks.StatGood | src/lparser.c:285-307 | through all statements, and in the middle of conditionals and loops, the break list, the exits of conditions, the escape list and the pending list are disjoint lists of distinct jumps not fixed yet; the break list only grows, and what waits is not touched |
| CodeBlocks.LoopExits | src/lparser.c:991-1007 | after a `while` loop exactly the jumps of its `break`s and of its condition go to the instruction that follows, the jump back and those held with it go to the condition, the break list of the loop around waits on, and nothing else in condition and body has changed |
| CodeLoops.StatRuns | src/lparser.c:965-1163 | from every entry the code of a statement without risk leaves control where the statement ends, behind the code or on a jump of the break list, with the same values of the locals and the same questions |
| CodeLoops.ProgramCorrect | src/lparser.c:1325-1336 | a statement without risk that ends, ends on the machine, at the end of its code, with the same values of the locals and the same questions |
| CodeLoops.PlainCorrect | src/lparser.c:1325-1336 | so does every program in which no literal decides an `and` or `or` |
| CodeLoops.ExecMore | src/lparser.c:991-1033 | the bound on the rounds of loops does not change what a statement means |
| CodeFine.GenFine | src/lcode.c:304-626 | while any expression is compiled the code is in order at every instruction: registers and constants are there, a test has its jump behind it, jumps stay in the code, and only the test of a jump that waits has no register for its value |
| CodeAccepted.StatFine | src/lparser.c:965-1163 | so it is while any statement is compiled, in as many registers as its expressions need |
| CodeAccepted.StatKept | src/lcode.c:163-182 | a jump that could still deliver a value is one that waits |
| CodeAccepted.CompiledAccepted | src/lparser.c:346-361 | the words of any body without a stray `break`, ended by a RETURN, are accepted by the checker, and control never leaves them |
| CodeParser.Parser.Statement | src/lparser.c:1271-1322 | the parser's procedures, with their chains of blocks and of jumps, compile what the model says; a `break` is an error exactly outside a loop |
| CodeParser.Parser.Break | src/lparser.c:975-988 | the loop up the blocks finds the innermost loop, and the new jump and those held with it join its list |
| CodeParser.Parser.LeaveBlock | src/lparser.c:296-307 | leaving a block sends its break list here and gives its registers up; other jumps keep their links |
| CodeParser.Parser.If | src/lparser.c:1141-1163 | the loop over `elseif` parts |
| CodeParser.Parser.Chunk | src/lparser.c:356-361 | at the end of a function no jump is left unfixed: the real instructions are the model's, and the machine does with them what the body means |
| Tables.Table.Get | src/ltable.c:435-488 | reading a key gives its value in the map that the table is |
| Tables.Table.Set | src/ltable.c:494-505 | setting a key changes the map at that key and nowhere else, whatever moves or is rebuilt; nil and NaN keys are errors |
| Tables.Table.NewKey | src/ltable.c:399-429 | a new key gets a place, and all chains, main positions and values are as they should be, in each of the cases of Brent's variation |
| Tables.Table.Rehash | src/ltable.c:333-349 | the array part gets the best size, the nodes are the least power of two that has room for the other keys, every pair is kept, and there is room for the pending key |
| Tables.Table.Resize | src/ltable.c:297-324 | every pair is kept whatever the new sizes, if the keys that stay outside the array part fit the nodes, which are the least power of two that will do |
| Tables.Table.Next | src/ltable.c:137-179 | the pair after a key in slot order, the end, or an error for a key that is not there |
| Tables.Table.GetN | src/ltable.c:532-576 | an index that is in use while the next one is not, or 0 |
| TableSizes.ComputeSizes | src/ltable.c:189-208 | the largest power of two such that more than half of the slots are in use |
| TableSizes.Log2 | src/lobject.c:59-74 | the shifts and the byte table, entry by entry, compute the integer logarithm |
| TableSizes.TableIsDigits | src/lobject.c:60-69 | each of the 256 entries of the byte table is the logarithm of its index |
| TableCount.NumUseArray | src/ltable.c:222-244 | the counts by slices, in one pass over the array |
| TableNext.TraversalComplete | src/ltable.c:137-179 | a traversal visits no key twice, only keys with a value, and every key that has a value all the time, although values of existing keys are changed or cleared on the way |
| TableNext.TraversalStops | src/ltable.c:137-179 | it stops after as many steps as there are slots |
| TableRefs.RefTable.Ref | src/lauxlib.c:481-501 | a new reference is not one that is live, live ones keep their values, and what was given back last is used first |
| TableRefs.RefTable.Unref | src/lauxlib.c:504-512 | exactly this reference is no longer live |
| TableRefs.RefTable.Deref | src/lapi.c:567-574 | fetching a live reference gives what it stands for |
| MatchSearch.SearchIsBest | src/lstrlib.c:301-440 | for every pattern: the search fails exactly if all choices of repetition counts are lost, and otherwise ends as the first choice that is not, with its captures or its error: longest first for `*`, `+` and `?`, shortest first for `-` |
| MatchSearch.NoError | src/lstrlib.c:186-221 | with a well-formed pattern there is no error |
| MatchMeaning.PlayPasses | src/lstrlib.c:353-412 | an item without choice is passed exactly if it takes characters as written out: a back reference the same characters as its finished capture, a frontier a change of membership, an anchor the end |
| MatchMeaning.SearchPasses | src/lstrlib.c:353-412 | so is it by the search |
| MatchManual.KindIs | src/lstrlib.c:225-243 | the letters of classes stand for the characters listed, upper-case letters for all others |
| MatchManual.ElemRead | src/lstrlib.c:365-440 | the text of every element of a pattern is read as an item that matches what the manual says of the element |
| MatchManual.PlayReads | src/lstrlib.c:365-440 | for every choice of counts the text of a pattern wins with the same end and captures as the pattern does by the manual |
| MatchManual.SearchReads | src/lstrlib.c:365-440 | searching for the text of a pattern whose captures nest gives its preferred match, or fails exactly if there is none |
| MatchManual.FindReads | src/lstrlib.c:519-531 | `string.find` and `string.match` with such a pattern report the leftmost match, of those that start there the preferred one, and its captures by text or place |
| MatchErrors.SetEndExactly | src/lstrlib.c:208-218 | a set ends at the first closing bracket that is not its first member and has an even number of escapes before it |
| MatchErrors.BadExactly | src/lstrlib.c:202-221 | which of the errors a pattern raises at a place, by its characters |
| MatchErrors.FaultExactly | src/lstrlib.c:186-199 | which errors captures raise: one too many, none to close, a reference to one that is not there or not finished |
| MatchErrors.FindExactly | src/lstrlib.c:519-531 | for every pattern, right or wrong: the reply comes from the leftmost start where a choice is not lost, from the first such choice, be it an error, with an error for captures that are not finished |
| MatchSearch.BalanceEnd | src/lstrlib.c:281-298 | the scan for `%b` finds the shortest balanced string if there is one |
| MatchState.Matcher.Match | src/lstrlib.c:365-440 | the matcher with its capture array does what the search does; a failed call leaves the captures as they were |
| MatchState.MatchBracketClass | src/lstrlib.c:245-265 | the scan of a set decides membership in the set written |
| MatchState.Matcher.MaxExpand | src/lstrlib.c:301-313 | greedy repetition |
| MatchState.Matcher.MinExpand | src/lstrlib.c:316-326 | lazy repetition |
| MatchFind.FirstIsLeftmost | src/lstrlib.c:519-531 | for complete patterns: the leftmost match, of those that start there the first choice, with its captures; none exactly if none matches anywhere |
| MatchFind.PlainExactly | src/lstrlib.c:502-511 | where the short cut is taken, matching and comparing text agree at all places of all texts exactly if the pattern has no closing parenthesis and no zero |
| MatchFind.ZeroInPattern | src/lstrlib.c:502-503 | the pattern `a`, zero, `b` and the text `ab`: not found as text, but matched |
| MatchFind.ParenthesisInPattern | src/lstrlib.c:183 | the pattern `)` and the text `)`: found as text, an error for matching |
| MatchFind.PlainAgrees | src/lstrlib.c:502-511 | without either, matching any rest of a pattern in which nothing is special is comparing text |
| MatchFind.LMemFind | src/lstrlib.c:444-463 | the first occurrence, or none |
| MatchFind.StartAt | src/lstrlib.c:36-40 | places count from 1, or from the end if negative, and are moved inside the text |
| MatchFind.StrFindAux | src/lstrlib.c:495-535 | position, short cut, anchor and the loop over starts together |
| TableSort.AuxSort | src/ltablib.c:193-254 | for every strict weak order: sorted, the same elements, nothing outside touched, no error, and recursion no deeper than the logarithm of the size |
| TableSort.Scan | src/ltablib.c:223-240 | the scans stay inside the window and split it by the pivot |
| TableSort.Sort | src/ltablib.c:256-264 | `table.sort` on the whole array |
| SortOrder.AroundPerm | src/ltablib.c:244-253 | what is sorted around a window stays so while the window is permuted |
| SortOrder.SplitSorted | src/ltablib.c:244-253 | with one side of a split sorted, only the other is left |
| ChunkChecker.CheckCode | src/ldebug.c:317-475 | the checker's loops decide acceptance and never look outside the code, whatever the code |
| ChunkOperands.AcceptedExactly | src/ldebug.c:317-475 | a function is accepted exactly if its header is in order and, at the start of every instruction, the registers, constants, upvalues and functions that the opcode names are there, unused fields are zero, and control goes on properly |
| ChunkOperands.WordFields | src/lopcodes.h:60-107 | the fields of a word are what it has been made of |
| ChunkOperands.GoesByNumber | src/lvm.c:373-757 | where control can go from a word, by the number of its opcode |
| ChunkOperands.ConcatenationAccepted | src/ldebug.c:402-405 | the code of a function that concatenates its two parameters is accepted |
| ChunkControl.Parity | src/ldebug.c:348-361 | among words that look like a SETLIST with a count, the one after them is an instruction exactly if their number is even |
| ChunkControl.Confined | src/ldebug.c:317-475 | in accepted code every place the machine can reach is the start of an instruction inside the code, and so are the words it looks at, exactly if the LOADBOOLs it can reach with C above 1 skip to one |
| ChunkControl.PlainConfined | src/ldebug.c:374-381 | so it is for code whose LOADBOOLs have C at most 1 |
| ChunkControl.Escapes | src/lvm.c:411-415 | two words that are accepted and that control leaves |
| ChunkTree.RoundTrip | src/lundump.c:161-209 | loading a dumped tree of accepted functions, not nested too deeply, gives the tree back; stripped, it gives it back without debug information and with the source `=?`; what follows is left unread |
| ChunkExact.RoundTripExactly | src/lundump.c:161-209 | a dumped tree is loaded exactly if it is nested no deeper than the calls that are left of 200 and all functions, as they come back, are accepted |
| ChunkSpelling.LoadsExactly | src/lundump.c:76-209 | bytes are loaded as a tree exactly if they are the header, a spelling of the tree and what is left unread, the functions are accepted and the nesting is within the limit; the freedom in spelling is any byte but 0 for true, the byte behind a string, and a source that may be left out |
| ChunkLayout.HeaderDescribes | src/lundump.c:213-227 | the header has the signature, the version, the byte order and the widths, and what follows it is written in that byte order and those widths |
| ChunkLayout.FunctionWritten | src/ldump.c:61-141 | a dumped function is its fields one after the other |
| ChunkLayout.EmptyDumped | src/ldump.c:61-141 | the chunk of an empty file, byte by byte |
| ChunkLayout.ConstantsDumped | src/ldump.c:80-103 | a constant of each type, byte by byte |
| ChunkTree.RestoredSame | src/ldump.c:129-141 | unstripped, nothing changes exactly if no source is missing; none is after compiling, where src/lparser.c:345 sets it, or after loading |
| ChunkTree.LoadedSourced | src/lundump.c:161-181 | in a tree that has been loaded every function has a source |
| ChunkTree.LoadedAgain | src/lundump.c:161-181 | so what has been loaded, from whatever bytes, can be dumped and loads again unchanged |
| ChunkTree.LoadedAccepted | src/lundump.c:161-181 | whatever bytes are loaded successfully, all functions of the tree have been accepted and the nesting is bounded |
| ChunkTree.RestoredAccepted | src/lundump.c:177 | stripping does not change what the checker says |
| ChunkDump.DumpState.DumpChunk | src/ldump.c:153-164 | the writer's loops and recursion write the format |
| ChunkLoad.LoadState.LoadChunk | src/lundump.c:195-209 | the loader's result is a function of the bytes alone, not of the blocks they come in |
| ChunkLoad.Zio.Read | src/lzio.c:58-71 | the next bytes across any blocks, or how many are missing |
| ParseExpr.TheOneTree | src/lparser.c:828-853 | what is accepted is the one tree with exactly these tokens that respects the priorities |
| ParseExpr.Unique | src/lparser.c:810-821 | no two trees that respect the priorities have the same tokens |
| ParseExpr.Accepts | src/lparser.c:828-853 | every such tree is accepted, unless it is nested too deeply |
| ParseExpr.AcceptsExactly | src/lparser.c:276-282 | a tree that respects the priorities is accepted exactly if it is not nested more deeply than the limit |
| ParseExpr.SubExprGood | src/lparser.c:828-853 | the same for any limit: the tree is proper and above the limit, its tokens are those consumed, and the first operator left does not exceed the limit |
| ParseExpr.TableIsManual | src/lparser.c:810-821 | the two numbers per operator encode the levels and associativities of section 2.5.6 of the Lua 5.1 Reference Manual |
| ParseExpr.LexState.ParseSubExpr | src/lparser.c:828-853 | the imperative parser computes it |
| ScopeResolve.ResolveDenotes | src/lparser.c:224-245 | at run time what a name was resolved to is the innermost visible declaration, for any nesting of functions, whatever is compiled later; a global exactly if there is none |
| ScopeLimits.ResolveExactly | src/lparser.c:183-245 | there are too many upvalues exactly if a function on the way to the declaration has no upvalue for the variable and 60 others |
| ScopeLimits.RoomForAll | src/lparser.c:194 | with fewer than 60 upvalues in every function every name is resolved |
| ScopeLimits.ResolveAllExactly | src/lparser.c:183-245 | the names of a body are all resolved exactly if no function captures more than 60 different ones |
| ScopeLimits.ResolveMarks | src/lparser.c:217-221 | of all blocks only the one that the variable belongs to is marked, if the use is in an inner function |
| ScopeResolve.ResolveKeeps | src/lparser.c:183-245 | every upvalue is a local or upvalue of the function around it with the same name, and the block of such a local is marked |
| ScopeResolve.MakeClosure | src/lvm.c:719-738 | the words of `pushclosure`, read by OP_CLOSURE, link the new closure to the activation that makes it |
| ScopeResolve.PushClosure | src/lparser.c:310-325 | `pushclosure` writes one word for each upvalue, saying where it comes from |
| ScopeResolve.SingleVarAux | src/lparser.c:224-245 | the recursion over the functions being compiled computes it, the error for too many upvalues included |
| ScopeCells.SharedVariables | src/lfunc.c:53-112 | at any time of any run registers and upvalues, open or closed, read the value last assigned to the variable, by whichever closure; different upvalues are different variables |
| ScopeCells.SameUpvalue | src/lfunc.c:53-79 | a variable that has an upvalue and is captured again, while in scope, gets the same one |
| ScopeCells.CloseDownAgrees | src/lparser.c:296-307 | leaving a marked block gives its captured variables places of their own |
| ScopeCells.NoneOpen | src/lparser.c:217-221 | an unmarked block has none to close |

## Left out

Collector:

- finalizers: `luaC_separateudata`, `GCTM` and the list of userdata to be finalized; the finalize phase goes straight to pause.
- the pace of collection: thresholds, debt and sizes in bytes decide when steps are taken, and here any number of steps may be taken at any time.
- shrinking of stacks and buffers (`checkstacksizes`, `checkSizes` for the buffer), and stack slots above the top, which are cleared.
- `luaC_freeall`: the end of the world needs no collector.
- dead keys left behind by `removeentry` in entries that were empty already: nothing reads them.
- `lua_setupvalue` and the debug library, which could store without the rules that programs keep.
- allocation failure.

Code generator:

- `luaK_nil` merging with an instruction before it, and eliding it at the start of a function (src/lcode.c:35-55).
- arithmetic, concatenation and indexing operators, and constant folding.
- widths of operands and the limits on constants, registers, jumps and nesting, whose errors end compilation.
- callees that change the caller's locals through upvalues while an expression is evaluated, and the OP_CLOSE and the other shape of `repeat` in blocks whose locals are upvalues.
- `for` loops, `return`, calls as statements, and assignments to anything but one local.
- CodeLoops.ProgramCorrect: one way, since an expression at risk may be one that no run comes to; for expressions `ValueIff` goes both ways. That a loop without end has none on the machine is not stated.

Tables:

- dead keys of emptied entries, which the collector leaves in node chains.
- `table overflow` and sizes beyond the 26 bits of an array part.
- numbers other than integers are distinguished only by their hash; NaN and nil keys are cases of their own.
- metatables and metamethods.

Others:

- `gmatch` and `gsub`, locales other than C, and the depth of the C stack in the matcher.
- a meaning by the manual for patterns that it gives none, like ranges between classes; of those the matcher's account by items is the only one.
- the three slots above those named in which TFORLOOP calls its iterator, which the checker does not count either.
- sorting with an order function that is no strict weak order, for which the source promises nothing, and reading elements through a table rather than an array.
- the tracing mode of `symbexec`, used for error messages.
- a writer that reports an error, and machines with other sizes of int, size and number, or the other byte order.
- suffixes of primary expressions, which are part of a token in the parser model, and the code generated while parsing.
- the statement grammar as text: statements are trees in the model of control, and in the scoping model blocks and declarations are operations of an activation, and `break` is leaving several blocks.
- the limit on local variables per function.
