# Grafcet toolchain in Dafny

This project models the two halves of a small Grafcet (Sequential Function Chart) toolchain written in C.

**The declaration preprocessor (`preprocessor.c`).** It reads a C source text and finds every `newState(...)` and `newTransition(...)` call that is not right after a `define` token. It splits each call's arguments at top-level commas and checks their count. For each accepted call it prints one stub function to standard output, and at the end it prints two enumerations of the accepted names. The model covers:
- the lexer: `eatAllWhitespace`, `getToken` and the character classifiers;
- the nested skips `parseParentheses` and `parseBraces`;
- `parseFunction`, with its fixed `Arguments[10]` array;
- the scan and emit loop of `main`.

**The execution engine (`main.c`).** It covers:
- the `newState`/`newTransition` registration macros;
- `checkTransitionState`;
- the per-cycle loop: the quit check, the output reset, the keyboard toggles, the timer update, and for each grafcet in index order: evaluate, deactivate, activate, outputs, unfreeze.

Each core file is modelled twice: as pure functions that state what a loop computes, and as imperative Dafny proved against those functions.

- `lexer.dfy` (module `Lexer`): the classifiers and the end positions of comments, strings and identifiers. `NextToken` models `getToken`. `SkipNested` models the recursive skips, and `MatchDepth` is a flat depth-counting reference definition for them. Lemmas state the shape of each token class. `Blank` describes the text `eatAllWhitespace` skips, as a run of whitespace characters and comments.
- `tokenizer.dfy` (module `TokenizerImpl`): class `Tokenizer`, whose cursor `at` advances in place. Its methods are `eatAllWhitespace`, `getToken`, `requireToken`, `parseParentheses` and `parseBraces`, each proved equal to the `Lexer` function. `TokenEquals` is the read-only comparison loop.
- `parser.dfy` (module `DeclParser`):
  - argument splitting (`SplitStep`, `SplitArguments`, `ParseCall`), stated against an independent description: the list of top-level tokens after the `(` (`TopTokens`) and the positions of its commas and `)` (`SeparatorsFrom`);
  - the acceptance switch (`Record`) and the scan loop (`Scan`);
  - the enumerations (`Footer`);
  - the whole run (`Preprocessed`), proved equal to a closed form: recognised calls, then accepted names, stubs and diagnostics, in source order.
- `preprocessor.dfy` (module `PreprocessorImpl`): class `Preprocessor`, whose fields are the `States`/`Transitions` buffers and the two output channels. `ParseFunction` fills a 10-slot `array<Argument>` as the C does. `Run` is proved to produce exactly `Preprocessed(source)`.
- `grafcet.dfy` (module `GrafcetModel`): the engine's data and one function per loop of the cycle.
  - The static `Chart` holds registration data: output actions as `Effect` lists, transitions as `Link`s with a `Cond` condition, member lists and input keys.
  - The dynamic `World` holds the per-cycle variables: Active flags, timers, transition flags, Frozen flags, input latches and outputs.
- `grafcet_properties.dfy` (module `GrafcetProperties`): what a cycle guarantees:
  - firing is decided on a snapshot and is independent of transition order;
  - the two-phase commit in closed form;
  - a frozen grafcet keeps its states;
  - outputs only accumulate;
  - a freeze set by one grafcet takes effect on a later grafcet in the same cycle;
  - the toggle rule for keys;
  - the QUIT stop.
- `engine.dfy` (module `GrafcetEngine`): class `Engine`, holding the `States`, `Transitions`, `Grafcets`, `Inputs` and `Outputs` arrays and the registration tables. It has one method per loop of `main.c`, each proved to leave the arrays exactly as the matching `GrafcetModel` function says.
- `scenario.dfy` (module `Scenario`): the two grafcets that `main` registers (main.c:186-198), built on a fresh `Engine`, plus a lemma about how they interact.

Differences between the code and its design description, where the model follows the code:
- The output reset loops over `ArrayCount(Inputs)` (7 entries), not over the 9 outputs. Outputs 7 and 8 are therefore never cleared (`OutputLatchedPastInputs`).
- A call cut off by the end of the input records nothing and prints no diagnostic. Only a wrong argument count and a missing `(` are reported (`AcceptedOrDiagnosed`).
- The state-name buffer is one byte too small; see Findings.

## Model

| member | source | states |
|---|---|---|
| Lexer.LineCommentEnd | preprocessor.c:144-147 | a `//` comment ends at the first end-of-line or at the NUL terminator, never past the input |
| Lexer.LineCommentBody | preprocessor.c:144-147 | every character inside a `//` comment is neither NUL nor an end-of-line |
| Lexer.BlockCommentEnd | preprocessor.c:153-158 | a block comment body ends at the first `*/` or at the NUL terminator |
| Lexer.BlockCommentBody | preprocessor.c:153-158 | no character inside a block comment body is NUL or the start of `*/` |
| Lexer.SkipWhitespace | preprocessor.c:133-170 | eatAllWhitespace only moves forward and stops at a character that is neither whitespace nor the start of a comment; SkipWhitespaceBlank and BlankStopIsSkipWhitespace show it skips blank text only, up to the first such character |
| Lexer.SkipWhitespaceBlank | preprocessor.c:133-170 | everything eatAllWhitespace skips is blank: whitespace characters, `//` comments up to their end of line or the end of text, and `/*` comments through their `*/` or up to the end of text |
| Lexer.BlankItemStep | preprocessor.c:133-170 | skipping from the start or from the end of one blank item stops at the same place, so the loop skips whole items |
| Lexer.BlankStopIsSkipWhitespace | preprocessor.c:133-170 | the converse: from any point, after a run of blank items that ends where no whitespace or comment starts, eatAllWhitespace stops exactly there and no earlier |
| Lexer.LineCommentEndIsFirst | preprocessor.c:144-147 | a `//` comment ends at the first end of line or end of text after it |
| Lexer.BlockCommentEndIsFirst | preprocessor.c:153-158 | a `/*` comment ends at the first `*/` or end of text after it |
| Lexer.UnterminatedBlockComment | preprocessor.c:149-163 | a block comment that is never closed runs to the end of the input |
| Lexer.StringEnd | preprocessor.c:201-210 | a string body ends at a `"` or at NUL, within the input |
| Lexer.StringEndText | preprocessor.c:199-216 | the text of a string literal is well escaped: no bare `"`, each `\` takes the next non-NUL character, a dangling `\` only when unclosed |
| Lexer.IdentifierEnd | preprocessor.c:225-230 | an identifier run stops at the first character that is not a letter, digit or `_` |
| Lexer.IdentifierRun | preprocessor.c:225-230 | every character of the run is a letter, digit or `_` |
| Lexer.NextToken | preprocessor.c:172-243 | getToken: the cursor never moves back; end of stream exactly at NUL, and it is sticky; every other token advances the cursor; punctuation is one character of its own kind |
| Lexer.TokenClasses | preprocessor.c:180-239 | the token kind is decided by its first character: identifier exactly at a letter, string exactly at `"`, unknown exactly for any other non-punctuation, non-NUL character, which is a one-character token |
| Lexer.IdentifierToken | preprocessor.c:219-233 | an identifier token is a letter followed by the longest run of letters, digits and `_` |
| Lexer.StringToken | preprocessor.c:195-217 | a string token's text lies between the quotes; the closing quote is consumed only when present, and otherwise the token runs to the end of the input |
| Lexer.SeparatorToken | preprocessor.c:184-187 | a `,` or `)` token is the single character at its start |
| Lexer.EndOfStreamSticky | preprocessor.c:178-182 | reading again after end of stream gives end of stream at the same place |
| Lexer.SkipNested | preprocessor.c:252-289 | parseParentheses/parseBraces stop at NUL or just after a closer of their own group |
| Lexer.MatchDepthAtEnd | preprocessor.c:256-259 | at the end of the input the depth scan stops at once |
| Lexer.SkipNestedThenDepth | preprocessor.c:252-289 | the recursive skip consumes exactly one complete nested group, as a depth counter measures it |
| Lexer.SkipNestedIsMatchingCloser | preprocessor.c:252-289 | the recursive skips end exactly at the matching closer found by depth counting; brackets `[ ]` and the other group do not count |
| TokenizerImpl.TokenEquals | preprocessor.c:115-131 | tokenEquals is true exactly when the token text equals the string; the token kind plays no part |
| TokenizerImpl.Tokenizer.constructor | preprocessor.c:390-391 | the cursor starts at the beginning of the file contents |
| TokenizerImpl.Tokenizer.EatAllWhitespace | preprocessor.c:133-170 | the in-place loop leaves the cursor where SkipWhitespace says, having skipped blank text only, at a character that neither is whitespace nor starts a comment |
| TokenizerImpl.Tokenizer.CommentLineEnd | preprocessor.c:144-147 | the inner `//` loop stops where LineCommentEnd says |
| TokenizerImpl.Tokenizer.CommentBlockEnd | preprocessor.c:153-158 | the inner block-comment loop stops where BlockCommentEnd says |
| TokenizerImpl.Tokenizer.GetToken | preprocessor.c:172-243 | getToken returns NextToken's token and leaves the cursor at NextToken's position |
| TokenizerImpl.Tokenizer.StringTextEnd | preprocessor.c:201-210 | the string loop stops where StringEnd says |
| TokenizerImpl.Tokenizer.IdentifierTextEnd | preprocessor.c:225-230 | the identifier loop stops where IdentifierEnd says |
| TokenizerImpl.Tokenizer.RequireToken | preprocessor.c:245-250 | requireToken consumes one token and is true exactly when its kind is the desired one |
| TokenizerImpl.Tokenizer.ParseParentheses | preprocessor.c:252-268 | parseParentheses leaves the cursor at SkipNested's position for `( )` |
| TokenizerImpl.Tokenizer.ParseBraces | preprocessor.c:273-289 | parseBraces leaves the cursor at SkipNested's position for `{ }` |
| DeclParser.WellSplitAppend | preprocessor.c:322-342 | closing one more argument at its separator keeps the argument list well split |
| DeclParser.WellSplitElements | preprocessor.c:312-342 | argument by argument: each span lies in the source, ends at its comma (the last at `)`), and follows the one before it |
| DeclParser.SplitStep | preprocessor.c:310-343 | one pass of the argument loop: end of stream stops the call, `)` closes it, any other token continues and never moves the cursor back; what the loop makes of these steps is stated by SplitArgumentsOutcome and SplitArgumentsSeparators |
| DeclParser.SplitArguments | preprocessor.c:308-344 | the argument loop never moves the cursor back and stays in the input; its outcome and the spans it closes are stated against the top-level tokens by SplitArgumentsOutcome and SplitArgumentsSeparators |
| DeclParser.NextTokenSeparated | preprocessor.c:322-342 | the token the loop reads starts after the cursor, and a `,` or `)` token is the one character it names |
| DeclParser.SplitStepShape | preprocessor.c:310-343 | one step adds at most one closed argument and drops none; a `)` closes a well-split list and the call ends just after it |
| DeclParser.SplitArgumentsExtends | preprocessor.c:308-344 | a closed list keeps every argument already closed and has at most ten |
| DeclParser.SplitArgumentsWellSplit | preprocessor.c:308-344 | every closed argument list is well split |
| DeclParser.SplitArgumentsEnd | preprocessor.c:338-342 | the call ends just after the `)` that closes its last argument |
| DeclParser.ParseCall | preprocessor.c:303-345 | a parsed call has one to ten arguments, well split, ending just before the cursor; ParseCallOutcome and ParseCallTopLevel state which arguments they are |
| DeclParser.PastGroup | preprocessor.c:328-336 | after a `(` or `{` the loop resumes past the matching close (parseParentheses, parseBraces), after any other token where that token ends; it never moves back |
| DeclParser.TopTokens | preprocessor.c:308-343 | the tokens the argument loop sees at top level, nested groups skipped: the last ends the list (end of stream or `)`) and no earlier one does |
| DeclParser.SeparatorsFrom | preprocessor.c:322-342 | the positions of the top-level commas and `)` from an index on, in increasing order, each a separator; SeparatorsComplete gives the converse |
| DeclParser.SeparatorsComplete | preprocessor.c:322-342 | every top-level comma or `)` from an index on is among the listed separators |
| DeclParser.TopTokensRest | preprocessor.c:308-336 | after a token that does not end the list, the remaining top-level tokens are those read from where the loop resumes |
| DeclParser.TopTokensLast | preprocessor.c:316-342 | the token that ends the list is the last top-level token; it is a separator exactly when it is `)`, and it is no comma |
| DeclParser.SplitArgumentsOutcome | preprocessor.c:308-344 | the loop reports too many arguments exactly when the closed arguments and the remaining top-level commas reach ten, an unterminated list exactly when the text ends first, and a closed list exactly when a top-level `)` ends it |
| DeclParser.SplitsAfterComma | preprocessor.c:322-325 | a top-level comma closes the argument being read at the comma and the next argument starts after it |
| DeclParser.SplitsAfterOther | preprocessor.c:312-314 | a token that separates nothing opens the argument being read if none is open, and splits nothing |
| DeclParser.SplitsAtLast | preprocessor.c:316-342 | end of stream closes nothing; a `)` closes the argument being read at the `)` |
| DeclParser.SplitArgumentsSeparators | preprocessor.c:308-344 | each argument the loop closes ends exactly at a top-level separator, one per separator in order, and starts at the first token after the previous separator |
| DeclParser.ParseCallOutcome | preprocessor.c:303-345 | after `(`, the call has too many arguments exactly when ten or more commas stand at top level, is unterminated exactly when the text ends before the top-level `)`, and is closed otherwise |
| DeclParser.ParseCallTopLevel | preprocessor.c:303-345 | a closed call has one argument per top-level comma or `)`: the first starts at the first token, each ends at its separator, and the next starts at the token after it; commas inside nested parentheses or braces split nothing |
| DeclParser.EmptyArgumentList | preprocessor.c:312-342 | `f()` yields exactly one argument, and it is empty |
| DeclParser.RecordAppends | preprocessor.c:346-381 | parseFunction only appends: the name and stub of an accepted call, or the diagnostic of a rejected one |
| DeclParser.AcceptedOrDiagnosed | preprocessor.c:346-381 | a call with 3 (state) or 5 (transition) arguments is accepted and prints its stub; any other closed or parenthesis-less call prints one diagnostic; a call cut off by end of stream leaves no trace |
| DeclParser.CollectedCons | preprocessor.c:396-422 | recording one call and then the rest equals recording them all at once |
| DeclParser.ScanCollects | preprocessor.c:394-422 | the scan loop appends, call by call in source order, each accepted name, stub and diagnostic, without de-duplication; it aborts exactly on argument-array overflow |
| DeclParser.DefineSuppressesCall | preprocessor.c:406-414 | the token right after a `define` token is passed over, so `#define newState(...)` never starts a call |
| DeclParser.EnumLinesAppend | preprocessor.c:426-428 | the enumeration lines of a concatenation are the two enumerations one after the other |
| DeclParser.PreprocessedClosedForm | preprocessor.c:393-437 | unless a call overflows the argument array, stdout is the header, the stubs of accepted calls in order, then both enumerations of the accepted names with their count sentinels; stderr is the diagnostics in order |
| PreprocessorImpl.Spans | preprocessor.c:294-296 | the argument slots become spans one for one |
| PreprocessorImpl.Preprocessor.constructor | preprocessor.c:291-292 | both name buffers and both output channels start empty |
| PreprocessorImpl.Preprocessor.Run | preprocessor.c:393-437 | main succeeds exactly when Preprocessed does, and then leaves exactly its names and output |
| PreprocessorImpl.Preprocessor.ScanSource | preprocessor.c:394-422 | the scan loop with PreviousToken ends exactly as Scan from the start of the file |
| PreprocessorImpl.Preprocessor.EmitFooter | preprocessor.c:423-437 | the footer appends `#else`, both enumerations and `#endif` to stdout and changes nothing else |
| PreprocessorImpl.Preprocessor.EmitEnum | preprocessor.c:425-429 | one enumeration loop prints its opening, one line per name in order, and its sentinel |
| PreprocessorImpl.Preprocessor.ParseFunction | preprocessor.c:303-382 | parseFunction aborts exactly on argument overflow; otherwise it leaves the cursor where ParseCall does and records what Record prescribes (the arguments ParseCallTopLevel describes) |
| PreprocessorImpl.Preprocessor.Accept | preprocessor.c:346-378 | the acceptance switch records an accepted call's name and stub, or the kind's count diagnostic |
| PreprocessorImpl.Preprocessor.AcceptState | preprocessor.c:347-358 | an accepted state pushes `"X"+name` and prints its output-action stub |
| PreprocessorImpl.Preprocessor.AcceptTransition | preprocessor.c:364-373 | an accepted transition pushes its name and prints its condition stub |
| PreprocessorImpl.Preprocessor.ReadArguments | preprocessor.c:305-344 | the argument loop fills the slots with exactly the spans SplitArguments computes, which SplitArgumentsSeparators places at the top-level separators, ends where it ends, and reports overflow exactly when it does |
| PreprocessorImpl.Preprocessor.ReadToken | preprocessor.c:308-343 | one pass of the argument loop advances unless at end of stream, keeps the slots in step with the spans, and moves SplitArguments one step on |
| PreprocessorImpl.FormatName | preprocessor.c:351-352 | corrected: the name buffer holds the prefix, the argument text and the terminating NUL, and is allocated with room for all of them |
| PreprocessorImpl.NameAllocation | preprocessor.c:351 | corrected: the allocation exceeds the prefix plus the name length |
| PreprocessorImpl.StateNameOverflowsAsWritten | preprocessor.c:351-352 | as written, the state-name allocation is one byte short of what `sprintf("X%.*s")` stores |
| PreprocessorImpl.TransitionNameFitsAsWritten | preprocessor.c:367-368 | as written, the transition-name allocation is exactly what `sprintf("%.*s")` stores |
| PreprocessorImpl.RecordedNameAllocationAsWritten | preprocessor.c:344-368 | for every recorded call as written: a newState name and its NUL overflow the allocation, a newTransition name and its NUL fill it exactly |
| PreprocessorImpl.StateNameOverflowExample | preprocessor.c:351-352 | a state named `one`: 4 bytes allocated, 5 stored |
| PreprocessorImpl.CallKind | preprocessor.c:406-414 | the scan loop's call test matches CallAt: `newState` or `newTransition` as an identifier, not right after `define` |
| GrafcetModel.SetAt | main.c:235 | a transition flag update keeps one flag per transition |
| GrafcetModel.EvaluateUpTo | main.c:233-236 | the first k iterations of the evaluate loop keep one flag per transition; EvaluateUpToPointwise states which flags they set |
| GrafcetModel.Evaluate | main.c:233-236 | the evaluate loop keeps one flag per transition; EvaluatePointwise states its flags |
| GrafcetModel.ClearAll | main.c:242-244 | the inner deactivate loop keeps one record per state; ClearAllPointwise states which it clears |
| GrafcetModel.SetAll | main.c:252-255 | the inner activate loop keeps one record per state; SetAllPointwise states which it activates |
| GrafcetModel.DeactivateUpTo | main.c:239-246 | the deactivate loop keeps one record per state; DeactivateUpToPointwise states which it clears |
| GrafcetModel.ActivateUpTo | main.c:249-257 | the activate loop keeps one record per state; ActivateUpToPointwise states which it activates |
| GrafcetModel.Committed | main.c:233-257 | evaluate, deactivate and activate keep one record per state; CommitPointwise gives the result in closed form |
| GrafcetModel.ApplyEffect | main.c:159-161 | `output(X)` and `FREEZE(g)` touch only outputs and Frozen flags |
| GrafcetModel.Toggle | main.c:213-218 | one character keeps one latch per input; TogglePointwise states which latch flips |
| GrafcetModel.ReadKeys | main.c:211-219 | reading the typed characters keeps one latch per input |
| GrafcetModel.Run | main.c:201-291 | the cycle loop keeps the chart's array sizes |
| Lexer.MatchDepth | preprocessor.c:252-289 | the depth scan only moves forward and stays within the input |
| GrafcetModel.UpdateTimers | main.c:222-227 | the timer update changes the states only |
| GrafcetModel.ResetOutputs | main.c:206-208 | the output reset changes the outputs only |
| GrafcetModel.FirstKey | main.c:213-218 | the key search finds the first input with the key, or reports that none has it |
| GrafcetModel.ApplyEffects | main.c:159-163 | output actions touch only outputs and Frozen flags |
| GrafcetModel.OutputsUpTo | main.c:260-265 | the output loop touches only outputs and Frozen flags |
| GrafcetModel.Phase | main.c:230-277 | one grafcet's phase keeps the array sizes and the inputs |
| GrafcetModel.Phases | main.c:230-277 | the grafcet loop keeps the array sizes and the inputs |
| GrafcetModel.Cycle | main.c:201-277 | a cycle keeps every array size |
| GrafcetProperties.HoldsOnSameView | main.c:147-163 | a condition reads only Active flags, timers and input latches |
| GrafcetProperties.EnabledOnSameView | main.c:169-182 | checkTransitionState's result does not depend on the transition flags, Frozen flags or outputs |
| GrafcetProperties.EvaluateUpToPointwise | main.c:233-236 | after k iterations of the evaluate loop, each listed transition's flag says whether it fires on the pre-loop snapshot, and every other flag is unchanged |
| GrafcetProperties.EvaluatePointwise | main.c:233-236 | after the evaluate loop, a member's flag is whether it fires on the snapshot; non-members keep theirs |
| GrafcetProperties.EvaluateOrderIndependent | main.c:233-236 | which transitions fire does not depend on the order or repetitions of the member list |
| GrafcetProperties.ClearAllPointwise | main.c:242-244 | the inner deactivate loop clears exactly the listed states' Active flags |
| GrafcetProperties.SetAllPointwise | main.c:252-255 | the inner activate loop activates exactly the listed states, with their timer at 0 |
| GrafcetProperties.DeactivateUpToPointwise | main.c:239-246 | a state is deactivated exactly when some fired member transition lists it as a precondition |
| GrafcetProperties.ActivateUpToPointwise | main.c:249-257 | a state is activated with timer 0 exactly when some fired member transition lists it as a target |
| GrafcetProperties.CommitPointwise | main.c:233-257 | after evaluate, deactivate and activate: every target of a fired transition is active with timer 0, even when it was already active or is also a precondition; every other precondition of a fired transition is inactive; every other state is unchanged |
| GrafcetProperties.CommitOrderIndependent | main.c:233-257 | the commit does not depend on the order or repetitions of the member list |
| GrafcetProperties.FrozenGrafcetKeepsStates | main.c:235-257 | a grafcet frozen at the start of its phase fires nothing and keeps every state's flag and timer |
| GrafcetProperties.ApplyEffectsPointwise | main.c:159-161 | an action sets exactly the outputs and Frozen flags it names, and clears nothing |
| GrafcetProperties.OutputsUpToPointwise | main.c:260-265 | after the output loop, an output is set exactly when it was set already or an active member's action sets it; likewise for Frozen flags |
| GrafcetProperties.PhaseFlags | main.c:230-277 | one phase: states are the committed ones; outputs and other grafcets' freezes only accumulate from active members' actions; the grafcet's own Frozen ends false |
| GrafcetProperties.FreezeSuppressesLaterGrafcet | main.c:230-276 | a freeze that grafcet g's action sets on a later grafcet h takes effect in the same cycle: h fires nothing and keeps its states |
| GrafcetProperties.PhasesKeepOutputs | main.c:230-277 | an output set before the grafcet loop is still set after it |
| GrafcetProperties.TogglePointwise | main.c:213-218 | a character flips the latch of the first input with that key and no other; an unknown key changes nothing |
| GrafcetProperties.ToggleTwice | main.c:213-218 | typing the same key twice restores every latch |
| GrafcetProperties.OutputLatchedPastInputs | main.c:206-208 | outputs at indices past the input count are never cleared, so once set they stay set |
| GrafcetProperties.TimerTicks | main.c:222-227 | the timer update adds exactly one tick to active states and changes nothing else |
| GrafcetProperties.QuitStops | main.c:202-204 | once QUIT is latched, the loop stops at the top of the next cycle without changing anything |
| GrafcetProperties.ResetClearsInputRange | main.c:206-208 | the output reset clears every output whose index is below the input count |
| GrafcetEngine.Engine.constructor | main.c:129-157 | the static arrays start with every flag false, every timer 0 and nothing registered |
| GrafcetEngine.Engine.NewState | main.c:74-80 | newState appends the state to its grafcet's member list and stores its output action; nothing else changes |
| GrafcetEngine.Engine.NewTransition | main.c:82-94 | newTransition appends the transition to its grafcet's member list and stores its preconditions, targets and condition; nothing else changes |
| GrafcetEngine.Engine.SetInitial | main.c:197-198 | the default marking activates one state and changes nothing else |
| GrafcetEngine.Engine.CheckTransitionState | main.c:169-182 | the result is true exactly when every precondition is active and the condition holds, and the condition is consulted exactly when every precondition is active |
| GrafcetEngine.Engine.EvaluateTransitions | main.c:233-236 | the evaluate loop changes only the transition flags, to Evaluate of the pre-loop state |
| GrafcetEngine.Engine.ClearStates | main.c:242-244 | the inner deactivate loop leaves the states as ClearAll says |
| GrafcetEngine.Engine.SetStates | main.c:252-255 | the inner activate loop leaves the states as SetAll says |
| GrafcetEngine.Engine.DeactivateAbove | main.c:239-246 | the deactivate loop changes only the states, as DeactivateUpTo says |
| GrafcetEngine.Engine.ActivateBelow | main.c:249-257 | the activate loop changes only the states, as ActivateUpTo says |
| GrafcetEngine.Engine.RunAction | main.c:263 | one call of `Output` applies its effects |
| GrafcetEngine.Engine.RunOutputs | main.c:260-265 | the output loop leaves the arrays as OutputsUpTo says |
| GrafcetEngine.Engine.RunGrafcet | main.c:231-276 | one grafcet's phase leaves the arrays as Phase says |
| GrafcetEngine.Engine.ClearOutputs | main.c:206-208 | the output reset leaves the arrays as ResetOutputs says |
| GrafcetEngine.Engine.ToggleKey | main.c:213-218 | one character toggles the latches as Toggle says |
| GrafcetEngine.Engine.ReadInputs | main.c:211-219 | the read loop toggles the latches as ReadKeys says and changes nothing else |
| GrafcetEngine.Engine.TickTimers | main.c:222-227 | the timer loop leaves the arrays as UpdateTimers says |
| GrafcetEngine.Engine.Cycle | main.c:201-277 | one pass of the `for(;;)` loop stops or continues, and leaves the arrays, as Cycle says |
| GrafcetEngine.Engine.Run | main.c:201-291 | the loop over successive batches of typed characters ends as Run says |
| Scenario.Setup | main.c:186-198 | main's registration and default marking build the example chart with X1 and X3 active |
| Scenario.RegisterGrafcetZero | main.c:186-189 | the registration of grafcet 0 |
| Scenario.RegisterGrafcetOne | main.c:191-194 | the registration of grafcet 1 |
| Scenario.ActiveX2HoldsGrafcetOne | main.c:186-194 | in the example, whenever X2 is active after grafcet 0 commits, grafcet 1 fires nothing and its states do not move in that cycle |

## Left out

- Reading the source file (`readEntireFileIntoMemoryAndNullTerminate`) and the argument-count check of the preprocessor's `main`. The source text is a parameter, with an implicit NUL at its end.
- `printf`/`fprintf` formatting. Standard output and standard error are character sequences that the model appends to. `%.*s` is a substring.
- `stretchy_buffer.h` is not part of this model. `sb_push` is sequence append.
- Reads past the NUL terminator. The C steps past NUL after an end-of-stream token, including inside the nested skips and after `parseFunction` returns. The model makes end of stream sticky instead.
- The `assert` on the 10-slot argument array. The model turns it into an explicit abort of the run (`TooManyArguments`, `ArgumentArrayOverflow`).
- Terminal and timing plumbing in main.c: `_kbhit`, termios/ioctl, `getchar`, `clear()`, `usleep` and all status printing. The characters waiting in a cycle are a parameter of `Cycle`.
- The macro and `#include "preprocessor_output.h"` machinery, token pasting and calls through function addresses. An output action is a list of `Effect`s (`output(X)` or `FREEZE(g)`), and a condition is a side-effect-free `Cond` expression over inputs, Active flags and timers.
- The `strncpy` of names into 16-byte display buffers and the `Name` fields.
- `uint64_t` timer wrap-around. Timers are unbounded naturals.
- GrafcetEngine.Engine.NewState: requires a free slot in the 1024-entry member array and in-range ids. The C checks neither.
- GrafcetEngine.Engine.NewTransition: requires a free slot in the 1024-entry member arrays and precondition and target ids in range. The C checks neither.
- GrafcetEngine.Engine.Cycle: requires every stored id to be in range (`Valid`). The C indexes its arrays without checking, so an out-of-range id is undefined behaviour there. The pure functions of `GrafcetModel` instead ignore out-of-range ids.

## Findings

| source | as written | input that shows it | evidently intended | confidence | as-written member | corrected member |
|---|---|---|---|---|---|---|
| preprocessor.c:351-352 | the state name buffer is `calloc(1, len + 1)`, but `sprintf(Name, "X%.*s", …)` writes the `X`, the `len` name characters and a NUL: `len + 2` bytes | `newState(0, one, {})`: 4 bytes allocated, 5 written | allocate `len + 2` bytes, one for the prefix and one for the NUL, as the transition branch does for its prefix-less name | not executed | PreprocessorImpl.StateNameOverflowsAsWritten | PreprocessorImpl.FormatName |
