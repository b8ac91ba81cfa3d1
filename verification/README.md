# qmake: the project language, and the algorithms around it

A verification project for qmake, the project-file tool in the Qt tree. It models

- the **compiler** of `.pro` files: the parser's stack of scopes, which resolves
  one-line bodies, braces and dangling else, and writes a flat stream of 16-bit
  tokens with block lengths patched in afterwards;
- the **interpreter** of that stream: a walk by position with skips by length,
  conditions through three flags, a stack of variable maps with tombstones, user
  functions, loops and `bypassNesting`;
- two protocols of several threads, the **parsed-file cache** and the **shared base
  environment**, as atomic steps between lock, unlock and wait;
- the **dependency algorithms**: `sort_depends()` and `resolve_depends()`, the walk
  over include files, and the chain of extra compilers;
- **printers that a reader must undo**: value expressions and `quoteValue()` against
  the tokenizer, and quoting for Unix shells and the Windows command line;
- **string and state machines**: `fileFixify()`, backslash-newline splicing in place,
  the `!!IF` filter, and the XML writer.

## How the layers of the language fit together

1. `Tokens` and `Stream` hold the token stream, as trees and flat, and what is found
   at each position of an encoded tree.
2. `Evaluator` has the class that walks the flat stream. Each of its methods is proved
   equal to a function of `Semantics`, which works on the tree. `Discipline`,
   `CallBudget` and `ScopedEnv` prove properties of that semantics; `WordBuilding`,
   `Assigning`, `Parameters`, `Looping` and `Numerals` state what words, assignments,
   calls and loops come to by places and lengths, without its functions.
3. `Parser` has the class that writes the flat stream. Each of its methods is proved
   equal to a step of `ScopeMachine`, whose scopes are trees. `ScopeInvariant` proves
   what every step keeps, `Placement` where jumps come to stand.
4. `Structured` is the abstract syntax of programs with its direct meaning, in which
   a function is the body it was defined with; `SourceText` their text as parser
   events. `SourceParse` proves what the machine makes of the text, `Meaning` what
   running the result does, `LineMarkers` that line markers do not matter, and
   `CompileAndRun` puts all of it together. `ShortCircuit` and `OneLineScopes` prove
   where the meaning and the text are not what one would expect.

The parser is driven by events (a separator with the words in front of it, a call, an
assignment, a line end); expressions are token trees. What the interpreter gets from
elsewhere (built-in functions, properties, the process environment, aliases of names)
is a parameter, `Semantics.Env`, and every result holds for all of them. The functions
of the semantics take a budget of nested calls, because `bypassNesting` can recurse
for ever; `CallBudget` proves that the budget is no part of any result.

## Where the code does less than it seems to

Some properties one would expect do not hold of the code. Each has a lemma with an
input that shows it, and the exact condition under which the code does meet it.

- A skipped jump counts as a failed test, and a skipped `return()` has stored its value:
  `SkippedBreakFails`, `SkippedReturnLeaks`. Exactly when an operator short-circuits as
  in a textbook: `ShortCircuit.JoinExact`, and for a condition with everything it begins
  with, `AgreesExact`.
- A closing brace on the line of a one-line body is refused behind `else:`, `for():`,
  `defineTest():`, `defineReplace():` and `bypassNesting():`, exactly:
  `OneLineScopes.ClosedOnSameLine`.
- `break()` is looked up in the scope of a one-line loop or function that is already
  finished: `OneLineScopes.BreakAfterLoop`, `BreakAfterFunction`. Exactly when a jump is
  accepted, and when it is refused in a loop or accepted outside:
  `Placement.JumpsExactly`, `FunctionCallsExactly`; exactly which accepted files have
  all jumps in their places: `AcceptedIsPlaced`.
- `export()` of a numbered parameter loses its visible value, exactly:
  `ScopedEnv.ExportKeepsValue`.
- A dependency named twice can make its item come out twice: `DependencySort.NamedTwice`.
  Exactly when nothing does in a run: the contract of `DependencySorter.Sort`. Exactly
  when nothing does whatever the priorities: the same contract one way, and
  `ComesTwiceIfLate` the other.
- `quoteValue()` writes control characters other than carriage return, line feed and
  tab in a form that `escape_expand()` does not read, exactly:
  `QuoteRoundTrip.QuoteRoundTrips`.
- A backslash in front of a newline at the end of an argument is doubled for the Windows
  command line: `ShellQuoting.NewlineDoubles`; exactly then: `WinRoundTrip`.
- Compilers that have an order need not come out in order, because the jumps are bounded:
  not even a pipeline of six, each of which feeds only the next
  (`CompilerChain.PipelineCutShort`, and `BoundCutsShort` for four that feed one another
  all). Exactly when they do: `ChainedExactly`. Numbers seen beforehand that suffice:
  `ForestIsOrdered`, `TransitiveIsOrdered`.
- A directory above the output directory is written by `fileFixify()` with one step up
  more than it takes: `FileFixify.TooHigh`. Exactly then: `FewestSteps`, `AboveSteps`.

## Model

| member | source | states |
|---|---|---|
| CompileAndRun.CompileAndRun | qmake/library/qmakeevaluator.cpp:498-713 | Parsing the text of any structured program into the flat 16-bit stream and walking the stream ends with the return status, the variables, the function definitions and the sequence of evaluated tests that the program means when it is read directly, calls of its functions meaning their bodies; line markers in stored function bodies aside. A stream too long for its 32-bit lengths is the one exception |
| CompileAndRun.ReadAndVisit | qmake/library/qmakeparser.cpp:877-1068 | For any well-formed sequence of parser events, the flat parser accepts exactly what the scope machine accepts, and walking the accepted stream by position gives what visiting its tree of items gives |
| CompileAndRun.ProgramParsed | qmake/library/qmakeparser.cpp:886-1063 | The text of a structured program is always accepted, and the items it is parsed to are, without line markers, the items the program compiles to |
| CompileAndRun.ParsedMeans | qmake/library/qmakeevaluator.cpp:498-713 | Visiting the parsed items, from any state, is the meaning of the program |
| CompileAndRun.OneMeaning | qmake/library/qmakeevaluator.cpp:1691-1721 | A program without bypassNesting has one and the same meaning for every bound of 100 nested calls or more, and overflows none of them |
| SourceText.ConditionDone | qmake/library/qmakeparser.cpp:984-1068 | Tests joined by colons and bars, negated or not, are put down in order with their operators in the scope that the flush returns to |
| SourceParse.ElseFound | qmake/library/qmakeparser.cpp:1033-1060 | After a then body, in braces or on one line, an else finds the branch it belongs to, and no other |
| SourceParse.ChoiceDone | qmake/library/qmakeparser.cpp:1021-1068 | An if with its else-if chain, whatever mixture of braces, one-line bodies and tests alone on their line, adds the tests and one branch with exactly its then and else blocks |
| SourceParse.StmtDone | qmake/library/qmakeparser.cpp:877-1168 | Any statement, among them for loops, function definitions and bypassNesting blocks, also behind tests or as the body of another on its line, leaves the parser ready for the next one, with the code of the statement in the scope the statement belongs to |
| SourceParse.ProgramDone | qmake/library/qmakeparser.cpp:877-1168 | The same for whole programs, nested to any depth |
| Meaning.RunCondition | qmake/library/qmakeevaluator.cpp:624-678 | The three flags of the evaluator compute the truth value, the effects and the early ends of a condition read left to right with equal precedence |
| Meaning.RunLoop | qmake/library/qmakeevaluator.cpp:726-834 | The loop over compiled items means the loop over the body, with break, next, empty list elements and the iteration limit |
| Meaning.CompiledMeans | qmake/library/qmakeevaluator.cpp:498-713 | Visiting the items a program compiles to is the meaning of the program |
| Meaning.CallMeans | qmake/library/qmakeevaluator.cpp:1691-1721 | Calling a user function means running its body, read directly, in a frame of its own up to its return, with the depth limit; the calls in the body mean their bodies in turn, to any depth |
| LineMarkers.VisitStripped | qmake/library/qmakeevaluator.cpp:498-511 | Line markers have no effect: stripping them from the items and from the stored functions commutes with the whole evaluator |
| CallBudget.VisitSame | qmake/library/qmakeevaluator.cpp:1691-1721 | The bound on nested calls in the model is no part of the meaning: a result that does not overflow it stays the same when it grows |
| CallBudget.OneResult | qmake/library/qmakeevaluator.cpp:1691-1721 | Without bypassNesting every bound of 100 calls or more gives one and the same result, never an overflow |
| ShortCircuit.JoinExact | qmake/library/qmakeevaluator.cpp:624-697 | An operator is evaluated as the textbook short circuit if and only if its operand is evaluated, or is skipped without a trace: a test whose first words are expanded without error or effect, no jump behind a bar, no return whose words change the value stored |
| ShortCircuit.AgreesExact | qmake/library/qmakeevaluator.cpp:624-697 | The evaluator agrees with the textbook on a condition and all it begins with if and only if every operand is evaluated or skipped without a trace |
| ShortCircuit.CallFreeSkips | qmake/library/qmakeevaluator.cpp:624-697 | For operands whose words contain no calls that is: no jump behind a bar, and no return whose words are not the value stored |
| ShortCircuit.ConventionalIsIdeal | qmake/library/qmakeevaluator.cpp:624-697 | Conditions whose jumps stand first or behind a colon, whose returns stand first, and whose later tests begin with words without calls are evaluated as in a textbook |
| ShortCircuit.SkippedBreakFails | qmake/library/qmakeevaluator.cpp:685-697 | Not so in general: a break() that is skipped behind a bar, after a true test, counts as a failed test, and a test joined by a colon behind it is not evaluated |
| ShortCircuit.SkippedReturnLeaks | qmake/library/qmakeevaluator.cpp:679-697 | Not so in general: a test function that skips return(false) and ends with a true test is false |
| ShortCircuit.NothingLeaks | qmake/library/qmakeevaluator.cpp:1691-1721 | A function whose returns all stand first in their conditions returns nothing when it falls off its end, whatever it calls |
| OneLineScopes.ClosedOnSameLine | qmake/library/qmakeparser.cpp:727-743 | An assignment inside braces may be followed by the closing brace on its line if and only if it is not the one-line body of an else, a for, a function definition or a bypassNesting |
| OneLineScopes.LoopClosedOnSameLine | qmake/library/qmakeparser.cpp:727-743 | "{ for(i, l): A = 1 }" on one line is refused |
| OneLineScopes.BreakAfterLoop | qmake/library/qmakeparser.cpp:1188-1207 | A break() on the line after a one-line loop is accepted, and put behind the loop |
| OneLineScopes.BreakAfterFunction | qmake/library/qmakeparser.cpp:1188-1207 | A break() on the line after a one-line function definition is refused, in whatever loop it stands |
| ScopeInvariant.StepInv | qmake/library/qmakeparser.cpp:886-1233 | Every event keeps the invariant of the scope stack: scopes nest, each open branch has its one then block, else blocks are due only where nothing is open, and all items are well formed |
| ScopeInvariant.AcceptedIsWellFormed | qmake/library/qmakeparser.cpp:886-1233 | Whatever the events, an accepted file is well formed: each branch has exactly a then and an else block, and bodies are complete |
| Placement.StepPlaced | qmake/library/qmakeparser.cpp:877-1233 | After an event everything stands where it may if and only if everything did, and the break, next, return or bypassNesting, if it is one, may stand in the scope it is put into: what is misplaced stays misplaced |
| Placement.AcceptedIsPlaced | qmake/library/qmakeparser.cpp:1152-1207 | In an accepted file every break and next stands in a loop, and every bypassNesting and return of a value in a function, if and only if along the run each could stand in the scope it was put into |
| Placement.JumpsExactly | qmake/library/qmakeparser.cpp:1185-1207 | A break or next is accepted if and only if the scope on top is in a loop, and is put where the flush ends. It is refused inside a loop exactly when a finished one-line function is nearest to the top, and accepted outside exactly when a finished one-line loop is |
| Placement.FunctionCallsExactly | qmake/library/qmakeparser.cpp:1152-1184 | The same for bypassNesting and a return with a value: never refused inside a function, and accepted outside exactly when a finished one-line function waits on the stack |
| Stream.LenRoundTrip | qmake/library/qmakeevaluator.cpp:228-233 | A 32-bit length survives the encoding as two units |
| Parser.QMakeParser.EnterScope | qmake/library/qmakeparser.cpp:886-898 | Entering a scope leaves a gap for its length in the flat buffer |
| Parser.QMakeParser.LeaveScope | qmake/library/qmakeparser.cpp:900-914 | Leaving a scope closes its branch, ends its block and patches its length, so that the buffer is the code of the scopes of the machine again |
| Parser.QMakeParser.FlushScopes | qmake/library/qmakeparser.cpp:916-929 | Flushing leaves the finished one-line scopes and closes a branch without an else |
| Parser.QMakeParser.FlushCond | qmake/library/qmakeparser.cpp:931-940 | After tests a branch is begun and its then block entered; otherwise the scopes are flushed |
| Parser.QMakeParser.PutOperator | qmake/library/qmakeparser.cpp:984-996 | A pending operator is put, an AND only between tests |
| Parser.QMakeParser.FinalizeTest | qmake/library/qmakeparser.cpp:998-1008 | What stands in front of a test: the flush, the line marker, the operator and the negation |
| Parser.QMakeParser.FinalizeCond | qmake/library/qmakeparser.cpp:1021-1068 | A word in front of a separator: nothing, an else, or a test |
| Parser.QMakeParser.FindElse | qmake/library/qmakeparser.cpp:1044-1060 | The search for the branch of an else, leaving scopes until one takes it |
| Parser.QMakeParser.CallFor | qmake/library/qmakeparser.cpp:1081-1124 | The three forms of for(), and the loop scope |
| Parser.QMakeParser.CallDefine | qmake/library/qmakeparser.cpp:1125-1151 | Function definitions and their scope |
| Parser.QMakeParser.CallBypass | qmake/library/qmakeparser.cpp:1152-1170 | bypassNesting, in functions only |
| Parser.QMakeParser.CallReturn | qmake/library/qmakeparser.cpp:1171-1184 | return, with a value in functions only |
| Parser.QMakeParser.CallJump | qmake/library/qmakeparser.cpp:1185-1207 | next and break, in loops only |
| Parser.QMakeParser.OpenScope | qmake/library/qmakeparser.cpp:700-713 | An opening brace |
| Parser.QMakeParser.CloseScope | qmake/library/qmakeparser.cpp:728-743 | A closing brace, and the excess one |
| Parser.QMakeParser.PutAssignment | qmake/library/qmakeparser.cpp:756-782 | An assignment, with exactly one word on its left |
| Parser.QMakeParser.Read | qmake/library/qmakeparser.cpp:288-866 | A whole file: the flat buffer is the encoding of exactly the items the scope machine makes of the events, and the file is refused exactly when the machine fails |
| Evaluator.QMakeEvaluator.GetBlockLen | qmake/library/qmakeevaluator.cpp:228-233 | Reads back the block length that was written |
| Evaluator.QMakeEvaluator.SkipExpression | qmake/library/qmakeevaluator.cpp:450-488 | Skipping nested calls and arguments ends right behind the terminator, whichever functions they name |
| Evaluator.QMakeEvaluator.EvaluateExpression | qmake/library/qmakeevaluator.cpp:387-448 | Evaluating ends at the same place as skipping, and gives the words and the state of the tree semantics, joined or not: the words that `WordBuilding` builds of what the elements give |
| Evaluator.QMakeEvaluator.ExpandVariableReferences | qmake/library/qmakeevaluator.cpp:1648-1671 | Joined arguments: the values of the tree semantics, and unless there is an error the same end as skipping |
| Evaluator.QMakeEvaluator.PrepareFunctionArgs | qmake/library/qmakeevaluator.cpp:1673-1689 | List arguments: the values of the tree semantics, and unless there is an error the same end as skipping |
| Evaluator.QMakeEvaluator.EvaluateFunction | qmake/library/qmakeevaluator.cpp:1691-1721 | A user function call on the flat stream: the depth limit is an error; else the body runs where exactly the arguments are seen, as `Parameters` states, and the frame is popped on every path |
| Evaluator.QMakeEvaluator.EvaluateExpandFunction | qmake/library/qmakeevaluator.cpp:1778-1803 | Built-in, user-defined and unknown replace functions |
| Evaluator.QMakeEvaluator.EvaluateConditionalFunction | qmake/library/qmakeevaluator.cpp:1751-1776 | Built-in, user-defined and unknown test functions, and the truth of what a user function returns |
| Evaluator.QMakeEvaluator.ValuesOf | qmake/library/qmakeevaluator.cpp:1892-1909 | The value of a name through the frames, tombstones and numbered parameters |
| Evaluator.QMakeEvaluator.FindValues | qmake/library/qmakeevaluator.cpp:1846-1864 | The innermost frame that binds a name, if it is not a tombstone |
| Evaluator.QMakeEvaluator.ValuesRef | qmake/library/qmakeevaluator.cpp:1866-1890 | Fetching a name for writing copies its value to the top frame |
| Evaluator.QMakeEvaluator.ExportVariable | qmake/library/qmakebuiltins.cpp:1444-1463 | export() on the frames, in place |
| Evaluator.QMakeEvaluator.UnsetVariable | qmake/library/qmakebuiltins.cpp:1688-1701 | unset() on the frames, in place |
| Evaluator.QMakeEvaluator.VisitProVariable | qmake/library/qmakeevaluator.cpp:836-941 | The five assignment operators: which words the new value has, by their places in the old value and on the right-hand side, as `Assigning` states |
| Evaluator.QMakeEvaluator.VisitProBlock | qmake/library/qmakeevaluator.cpp:498-713 | The walk over a block by position: it never leaves the block, and its result, state and log are those of the tree semantics |
| Evaluator.QMakeEvaluator.VisitProLoop | qmake/library/qmakeevaluator.cpp:726-834 | The loop on the flat stream: one round for each value its word stands for, as `Looping` states, with break, next and the iteration limit, and the loop variable restored |
| Evaluator.QMakeEvaluator.VisitProFunctionDef | qmake/library/qmakeevaluator.cpp:716-724 | A definition stores the offset of its body |
| Evaluator.QMakeEvaluator.VisitBypass | qmake/library/qmakeevaluator.cpp:576-595 | A bypassNesting block sees the global frame only, and the others are put back on every path |
| WordBuilding.WordsAreBuilt | qmake/library/qmakeevaluator.cpp:336-448 | For every expression, joined or not: a word begins where an element says so; an unquoted list glues its first string to an open word and puts each further one in a word of its own, a first empty string being eaten where no word is open; a quoted list is its strings with single blanks between them; joined, there is one word of all these with single blanks, in which no empty word comes first |
| WordBuilding.VariableAlone | qmake/library/qmakeevaluator.cpp:351-385 | So a variable alone gives its list without a first empty string, and quoted one word, or none if the list is empty |
| Assigning.OperatorMakes | qmake/library/qmakeevaluator.cpp:836-941 | The value after each operator, by places: `=` has exactly the non-empty words in order; `+=` puts them behind the old value; `*=` puts the first occurrences there of those not in it; `-=` leaves exactly the old words that are empty or not among the given ones; `~=` substitutes, or on an error changes nothing. No other name and no other scope changes |
| Assigning.MakesOne | qmake/library/proitems.cpp:358-386 | These conditions have one solution: the value is determined by them |
| Assigning.AssignmentMakes | qmake/library/qmakeevaluator.cpp:836-941 | The same for a whole assignment, whose right-hand side is evaluated first; without exactly one name nothing happens |
| Parameters.ArgumentsInOrder | qmake/library/qmakeevaluator.cpp:1648-1689 | Arguments are evaluated once each, in order, each in the state the one before has left, up to the first error: one list for each, or for built-in functions one word |
| Parameters.FrameSeen | qmake/library/qmakeevaluator.cpp:1701-1709 | For all argument lists: a function sees argument n under the decimal numeral of n, nothing under any other name of digits, in `ARGS` all arguments one behind the other, in `ARGC` the numeral of their number, and under every other name what its caller sees |
| Parameters.ReplaceFunction | qmake/library/qmakeevaluator.cpp:1778-1803 | A call of a user replace function: its arguments in order, then its body where exactly these are seen, and the list it returns |
| Parameters.TestFunction | qmake/library/qmakeevaluator.cpp:1723-1776 | The same for a user test function, which is true if and only if it returns nothing, `true`, or an integer other than zero; errors and early ends are passed on |
| Parameters.BuiltinTest | qmake/library/qmakebuiltins.cpp:1414-1701 | A built-in test function on its evaluated words: export() and unset() of exactly one name and what is visible at every depth after them; any other sets what it sets in the innermost scope |
| Numerals.DigitsRead | qmake/library/qmakeevaluator.cpp:1706-1709 | The digits of a number read back as the number, without a leading zero |
| Numerals.OneNumeral | qmake/library/qmakeevaluator.cpp:1706-1709 | A number has one numeral |
| Looping.RangeCounts | qmake/library/qmakeevaluator.cpp:762-784 | A word with an integer a in front of its first two dots and an integer b behind them stands for abs(b - a) + 1 numerals, the k-th reading back as a + k, or a - k downwards; any other word for nothing |
| Looping.LoopRuns | qmake/library/qmakeevaluator.cpp:726-834 | A loop has one round for each value, in order: the non-empty strings of the variable its word names, else the numbers from 0 up to the limit for `forever`, else those that the word counts. A round runs the body with the variable set, from where the round before has left off, until one breaks out, returns or fails; then the variable has its old value |
| Discipline.CallUserGood | qmake/library/qmakeevaluator.cpp:1691-1721 | A call leaves every frame of its caller but the global one as it was, up to exported names |
| Discipline.VisitGood | qmake/library/qmakeevaluator.cpp:498-713 | The same for any items, with the bound on nested calls |
| Discipline.ScopeDiscipline | qmake/library/qmakeevaluator.cpp:576-596 | Whatever code runs and however it ends, also by error, break, return or inside bypassNesting, the depth of the map stack is restored, and frames below the top lose exported names only |
| Discipline.CallsAreBounded | qmake/library/qmakeevaluator.cpp:1691-1721 | Without bypassNesting evaluation ends: 100 nested calls are always enough |
| Discipline.BypassNeverEnds | qmake/library/qmakeevaluator.cpp:576-595 | With bypassNesting it need not end: "f() { bypassNesting() { f() } }" overflows every bound |
| ScopedEnv.MaterializeKeepsViews | qmake/library/qmakeevaluator.cpp:1866-1890 | Fetching a name for writing, without a write, changes nothing visible at any depth |
| ScopedEnv.SetTopViews | qmake/library/qmakeevaluator.cpp:1866-1890 | A write changes one name in the innermost scope only |
| ScopedEnv.PushViews | qmake/library/qmakeevaluator.cpp:1691-1721 | What a function sees: its own frame, and through it everything but numbered parameters |
| ScopedEnv.UnsetViews | qmake/library/qmakebuiltins.cpp:1688-1701 | unset() hides a name in the innermost scope only |
| ScopedEnv.UnsetThenPop | qmake/library/qmakebuiltins.cpp:1688-1701 | The name stays hidden until its frame is popped; then the outer value is visible again |
| ScopedEnv.ExportViews | qmake/library/qmakebuiltins.cpp:1444-1463 | export() of a name bound above the global frame makes its innermost value the one at every depth, a numbered parameter's in the global frame only, and the binding of the global frame the only one, and touches no other name |
| ScopedEnv.ExportKeepsValue | qmake/library/qmakebuiltins.cpp:1444-1463 | export() keeps the visible value of a name if and only if the name is not a numbered parameter with a value in the frame of a function |
| ParsedFileCache.StepInv | qmake/library/qmakeparser.cpp:159-221 | Every atomic step of every thread keeps the invariant of the parsed-file cache |
| ParsedFileCache.CacheIsSafe | qmake/library/qmakeparser.cpp:159-221 | After every interleaving: each file was parsed at most once, nothing was read before it was stored or used after it was freed, all calls for a file returned the same ProFile, and its references are one for the cache and one for each holder |
| ParsedFileCache.CallsReturnWhatWasRead | qmake/library/qmakeparser.cpp:159-221 | After every interleaving: a call has returned a ProFile if the one parse of its file could read it, and null if it could not |
| ParsedFileCache.LockersAreFreed | qmake/library/qmakeparser.cpp:204-214 | When no call is under way every Locker has been freed, and each once |
| ParsedFileCache.NoLostWakeup | qmake/library/qmakeparser.cpp:176-187 | While a call waits, the thread that will wake it is on its way and can step |
| ParsedFileCache.CallReturns | qmake/library/qmakeparser.cpp:159-221 | Every call returns: in every interleaving it is under way for at most five steps of its own thread and of the one that fills the entry it waits for, and as long as it is, that thread can step |
| BaseEnvironment.StepInv | qmake/library/qmakeevaluator.cpp:1358-1409 | Every atomic step keeps the invariant of the shared base environment |
| BaseEnvironment.SpecIsLoadedOnce | qmake/library/qmakeevaluator.cpp:1358-1409 | After every interleaving: loadSpec was started at most once for a key, nothing was initialized from a spec that is not loaded, isOk was not read before it was set, and all calls for a key come out alike |
| BaseEnvironment.CallsComeOutAsLoaded | qmake/library/qmakeevaluator.cpp:1358-1409 | After every interleaving: a call has come out as the one load of its spec did |
| BaseEnvironment.NoLostWakeup | qmake/library/qmakeevaluator.cpp:1370-1376 | While a call waits, the loading thread is on its way and can step |
| BaseEnvironment.CallReturns | qmake/library/qmakeevaluator.cpp:1358-1409 | Every call returns: in every interleaving it is under way for at most five steps of its own thread and of the one that loads what it waits for, and as long as it is, that thread can step |
| DependencySort.DependencySorter.PopulateDeps | qmake/library/qmakebuiltins.cpp:534-556 | The discovery ends on cyclic graphs too, adds exactly reachable items with all they depend on, and fills the three tables for them |
| DependencySort.DependencySorter.Release | qmake/library/qmakebuiltins.cpp:1104-1110 | Taking an emitted item off the dependencies of its dependees, by the recursive definition |
| DependencySort.DependencySorter.Sort | qmake/library/qmakebuiltins.cpp:1088-1114 | For any lists, also with repetitions: the loop ends; exactly the wanted items come out that are reachable and reach no cycle, each before everything it depends on, and as often as its namings of what was emitted last say; no item is emitted twice if and only if every emitted item names the last emitted of its dependencies once, and whatever the priorities if each dependency an item names twice is reached by another of its dependencies; and always one of the lowest priority among those that are ready is emitted next |
| DependencySort.EmittedReachesNoCycle | qmake/library/qmakebuiltins.cpp:1100-1112 | An item that is emitted reaches no cycle |
| DependencySort.StuckReachesCycle | qmake/library/qmakebuiltins.cpp:1100-1112 | An item that is never emitted reaches a cycle |
| DependencySort.ReadyOncePerNaming | qmake/library/qmakebuiltins.cpp:1104-1110 | A dependee becomes ready as often as it names the dependency taken off last |
| DependencySort.OnceEach | qmake/library/qmakebuiltins.cpp:1100-1112 | Nothing is emitted twice if and only if what is emitted names the last emitted of its dependencies once |
| DependencySort.NamedTwice | qmake/library/qmakebuiltins.cpp:1104-1110 | With "a" depending on "b b", resolve_depends() of "a" returns "a a b" |
| DependencySort.ComesTwiceIfLate | qmake/library/qmakebuiltins.cpp:1088-1114 | Conversely, if an item that comes out names a dependency twice and depends on nothing else that reaches it, there are priorities with which resolve_depends() returns an item twice |
| IncludeDependencies.QMakeSourceFileInfo.DependTreeWalker | qmake/generators/makefiledeps.cpp:151-161 | The walk marks and lists each file once, only files that exist and are included by the one it starts from, and leaves nothing they include unmarked |
| IncludeDependencies.QMakeSourceFileInfo.Dependencies | qmake/generators/makefiledeps.cpp:174-197 | Exactly the existing files reachable by one or more include edges through existing files, each once, on cyclic graphs too; and all marks are taken off again |
| IncludeDependencies.FoundAll | qmake/generators/makefiledeps.cpp:151-197 | What a finished walk has found is what the file includes |
| ValueQuoting.QuoteValue | qmake/library/qmakebuiltins.cpp:269-335 | The loop writes the text that is defined character by character |
| ValueQuoting.EscapeExpand | qmake/library/qmakebuiltins.cpp:935-967 | The expansion in place is the expansion defined on strings; a doubled backslash stays doubled |
| ValueQuoting.ExpandedExactly | qmake/library/qmakebuiltins.cpp:935-967 | Expanding replaces exactly the backslashes in front of n, t and r, where a doubled backslash stands for itself, read from the left |
| ValueTokenizer.ValueReader.Read | qmake/library/qmakeparser.cpp:428-660 | The tokenizer with its context stack reads a value as its step function does, with its error cases |
| ValueText.TextRoundTrips | qmake/library/qmakeparser.cpp:501-670 | For every value expression, of characters, escapes, quoted parts, the four forms of references, the five replaced names, and calls with any number of arguments, parentheses and blanks in them, nested to any depth: its text is read back as exactly its elements, with their quoted and new-word flags |
| ValueGrammar.ExactlyTheTexts | qmake/library/qmakeparser.cpp:501-853 | A text is accepted if and only if it is the text of such an expression, and then it is read as that: a quote, bracket or call left open, and a call of a replaced name, are refused |
| QuoteRoundTrip.QuoteRoundTrips | qmake/library/qmakebuiltins.cpp:269-335 | For every string, reading quoteValue() back and evaluating it joined gives exactly one word; it is the string if and only if the string has no control characters but carriage return, line feed and tab |
| ShellQuoting.HasSpecialChars | qmake/library/ioutils.cpp:133-141 | The bit table lookup over a string, both ways |
| ShellQuoting.ShellQuoteUnix | qmake/library/ioutils.cpp:143-160 | A POSIX shell reads the quoted argument as exactly that one word, for every argument |
| ShellQuoting.UnixTable | qmake/library/ioutils.cpp:145-149 | Every character with a meaning to the shell outside quotes is in the table |
| ShellQuoting.ShellQuoteWin | qmake/library/ioutils.cpp:162-212 | The loop puts carets in place as defined, on the escaped text |
| ShellQuoting.WinReads | qmake/library/ioutils.cpp:162-212 | For every argument, taking out the carets as cmd.exe does and splitting by the rules for backslashes and quotes gives exactly one argument: the one given, but with a backslash doubled that is followed by a last newline |
| ShellQuoting.WinRoundTrip | qmake/library/ioutils.cpp:162-212 | So the argument comes back if and only if it does not end in a backslash and a newline |
| ShellQuoting.NewlineDoubles | qmake/library/ioutils.cpp:189-190 | The command line for a backslash and a newline is read as two backslashes and a newline |
| FileFixify.MakeRelative | qmake/generators/makefile.cpp:3026-3062 | The loop over the output directory gives the path that is defined on the names |
| FileFixify.CleanMeans | qmake/option.cpp:503-509 | Cleaning a path, relative or absolute, with any "." and "..", does not change what it means in whatever directory |
| FileFixify.Fixify | qmake/generators/makefile.cpp:2976-3064 | For every file, written in whatever way, and any two directories: in the output directory the result means the file that was given, an absolute path means it everywhere, and a path that is not to be fixed is cleaned only |
| FileFixify.FixedMeansFile | qmake/generators/makefile.cpp:3024-3067 | For all cleaned absolute paths and any depth, resolving the result against the output directory gives the file back |
| FileFixify.FewestSteps | qmake/generators/makefile.cpp:3042-3060 | Of all relative paths that mean the file the result has the fewest steps up, if and only if the file is not a directory above the output directory |
| FileFixify.AboveSteps | qmake/generators/makefile.cpp:3042-3060 | A directory above is written with exactly one step more than it takes, and the name that leads back down; it stays absolute if that is too deep, or the root |
| FileFixify.TooHigh | qmake/generators/makefile.cpp:3042-3060 | "/a/b" for use in "/a/b/c" is "../../b", although ".." means it |
| FileFixify.StaysAbsolute | qmake/generators/makefile.cpp:3024-3062 | The path stays absolute exactly when the file is not in the output directory or below a directory, other than the root, within the depth |
| LineSplicing.SkipEscapedLineEnds | qmake/generators/makefiledeps.cpp:334-348 | Skips exactly the backslash and line end pairs at a place, and counts them |
| LineSplicing.SplicedExactly | qmake/generators/makefiledeps.cpp:334-348 | Splicing takes out exactly the backslashes in front of a line feed, a carriage return or both, with these, and counts them |
| LineSplicing.MatchWhileUnsplitting | qmake/generators/makefiledeps.cpp:350-366 | Succeeds exactly when the needle is a prefix of the spliced text; says where the text goes on, and counts exactly the lines of the pairs passed, also when it fails |
| LineSplicing.CompactName | qmake/generators/makefiledeps.cpp:738-765 | Leaves exactly the spliced name at its place with a zero behind it, at the end of the file if there is room, changes nothing in front of it or behind the terminator, counts exactly the lines passed, and tells a name from a line end and from the end of the file |
| LineSplicing.CompactKeyword | qmake/generators/makefiledeps.cpp:690-711 | Leaves exactly the spliced keyword at its place, changes nothing not yet scanned, counts exactly the lines passed, and recognizes include and import |
| ConditionFilter.Substitution.Filter | qmake/generators/makefile.cpp:513-562 | The loop over the lines with its stack of states, by the step function |
| ConditionFilter.FilterMeans | qmake/generators/makefile.cpp:513-562 | For every well-nested document: exactly the lines of the selected branches, in order, no test in a skipped region, and an empty stack at the end |
| CompilerChain.MakefileGenerator.OrderCompilers | qmake/generators/makefile.cpp:430-461 | The reordering in place, by its definition; it ends |
| CompilerChain.OrderIsSound | qmake/generators/makefile.cpp:430-461 | Always a permutation; and no compiler stands after one that reads what it writes, unless the bound on the jumps was hit |
| CompilerChain.ChainedExactly | qmake/generators/makefile.cpp:430-461 | No compiler stands after one that reads what it writes, if and only if without the bound the loop would end after at most one jump more than the bound |
| CompilerChain.ChainedIsKept | qmake/generators/makefile.cpp:430-461 | A list in order is left alone |
| CompilerChain.OneOutcome | qmake/generators/makefile.cpp:433-435 | A bound that is not hit is no part of the outcome, and one is hit if and only if it is lower than the jumps taken without it |
| CompilerChain.TransitiveIsOrdered | qmake/generators/makefile.cpp:430-461 | If compilers that feed one another through a third do so directly, the jumps are at most the pairs that stand out of order; with at most one more such pair than the bound the list comes out in order |
| CompilerChain.ForestIsOrdered | qmake/generators/makefile.cpp:430-461 | If each compiler feeds one other at most, as in a pipeline, the jumps are at most the runs of compilers that stand in front of one that feeds them; with at most one more such run than the bound the list comes out in order |
| CompilerChain.EndsIfOrderable | qmake/generators/makefile.cpp:430-461 | With some bound the loop ends in order if and only if there is an order at all; and every other bound is hit exactly when it is lower than the jumps |
| CompilerChain.BoundCutsShort | qmake/generators/makefile.cpp:433-435 | The bound can be hit without any cycle: four compilers with an order end out of order |
| CompilerChain.PipelineCutShort | qmake/generators/makefile.cpp:433-435 | And a pipeline of six, of which each feeds only the next |
| XmlOutput.XmlWriter.NewTagOpen | qmake/generators/xmloutput.cpp:213-224 | Exactly the end of a start tag that still takes attributes, and then the new one, are written |
| XmlOutput.XmlWriter.CloseTag | qmake/generators/xmloutput.cpp:239-264 | Writes exactly one end for the innermost tag: an end tag, or that of an empty one; without an open tag nothing |
| XmlOutput.XmlWriter.CloseTo | qmake/generators/xmloutput.cpp:266-279 | Closes tags up to and with the named one: what is written, with what would close the tags still open, is what would have closed all; a tag that is not open is left alone |
| XmlOutput.XmlWriter.CloseAll | qmake/generators/xmloutput.cpp:281-286 | Writes exactly the ends of the open tags, innermost first, and leaves nothing open: what was written is balanced |
| XmlOutput.XmlWriter.AddAttribute | qmake/generators/xmloutput.cpp:311-327 | Attributes are written in start tags only |
| XmlOutput.CompletionBalances | qmake/generators/xmloutput.cpp:206-286 | Whatever was written, closing the open tags, innermost first, makes it balanced |

## Left out

- The tokenizer of the full grammar: the parser starts from its events. Only the value grammar is modelled character by character (`ValueTokenizer`).
- The test grammar, `CONFIG` conditions as text, and all message texts; an error only fails.
- After a parse error the parser goes on to find more errors; the model stands still, since the file is not used.
- Cumulative evaluation and its skip level.
- Strings of 65536 units or more, whose lengths do not fit their unit in the stream, and the reservation of buffer space.
- Case folding of "else" beyond ASCII.
- Looping.LoopRuns: what counts as an integer is the parameter `toInt`, and integers are unbounded; in the source the counter of a range that ends at the largest or smallest `int` overflows.
- `eval()`, `include()`, `load()`, requirements, features and specs: one file is evaluated, and built-in functions other than `export()` and `unset()` are a parameter that may set variables in the top frame.
- Special handling of some assigned names (`TEMPLATE`, `REQUIRES` and the like) is the parameter `hook`; regular expressions are the parameter `substitute`.
- CompileAndRun.CompileAndRun: a function definition inside a loop whose body stands on the line of the definition has no text, because of `OneLineScopes.BreakAfterFunction`. What the parser reads otherwise has its text as that: tests behind the colon of a then body are more tests, and a choice behind `else:` is an else-if.
- ParsedFileCache.CacheIsSafe: discarding files from the cache, spurious wakeups and rehashing of the table under a pointer to an entry are left out, and the bound of the thread pool is not modelled.
- BaseEnvironment.SpecIsLoadedOnce: what loading a spec does is left out, as is the lock of the table of environments, which is never waited for.
- IncludeDependencies.QMakeSourceFileInfo.Dependencies: the chained hash table is a map, and the growth of the child arrays is not modelled.
- ShellQuoting.WinRoundTrip: a newline is an ordinary character to the reader of the command line; percent signs and exclamation marks, which cmd.exe expands in some modes, are ordinary characters.
- FileFixify.Fixify: both directories are given as clean absolute paths, which looking them up in the file system gives; `QDir::cleanPath()` is the function its documentation describes. A "~" in front, environment variables, the variant that is not canonicalized, and separators of other systems are left out.
- LineSplicing.CompactName: at the end of the file the zero is written only if the name leaves room for it in the buffer.
- Raw strings, character literals, UI files and resource files in the include scanner.
- XmlOutput.XmlWriter.CloseTo: with no tag open the code takes the last of an empty list for its warning; the model only does nothing. Indentation, line ends and the conversion of text are left out.
- QtConcurrent, the tables of command-line options, the text of makefiles, and mkspecs.
