# A verified model of a small Unix shell's parse-and-execute core

The shell reads a line and splits it into tokens. `parseTokens` turns the tokens into a
CommandChain: a linked list of Commands, each a pipeline of SimpleCommands. The parser
opens files and pipes eagerly. `executeCommandChain` then runs each Command's
SimpleCommands through their execution functions. A builtin runs in the shell itself;
`executeProcess` forks a child. This project models that core in Dafny:

- `tokens.dfy` (module `Tokens`): the token classification macros of `include/parser.h`.
- `utils.dfy` (module `Utils`): `COPY`, the descriptor constants, `tokenizeString`,
  `getTokenCount` and `removeQuotes`.
- `system.dfy` (module `System`): `open`, `pipe` and `glob` as oracles over a set of open
  descriptors. A new descriptor is the lowest one not open, as POSIX requires.
- `history.dfy` (module `ShellHistory`): the history linked list (`add_to_history`,
  `clean_history`) as a class, and `get_command` and `find_last_command_with_prefix` as
  functions of its entries.
- `builtins.dfy` (module `Builtins`): `getExecutionFunction`, the builtins' argument
  checks, the `history` argument dispatch, and `executeProcess`'s status translation. A
  `Runtime` oracle reports what fork/wait and the builtins' side effects return.
- `pipelines.dfy` (module `Pipelines`): the values a SimpleCommand (`Stage`) and a Command
  (`Pipeline`) hold, and `pushArgs` on those values.
- `commands.dfy` (module `Commands`): the classes `SimpleCommand`, `Command` and
  `CommandChain` of `include/command.h`, their initialisers, `pushArgs`,
  `addSimpleCommand`, `addCommandToChain` and the three clean-up routines.
- `executor.dfy` (module `Executor`): `executeCommand` and `executeCommandChain`. Each
  method is proved equal to a specification function (`RunPipeline`, `RunChain`), and
  the stop-at-first-failure and never-stop rules are proved about those functions.
- `parser_spec.dfy` (module `ParserSpec`): `parseTokens` as a pure walk over the token
  array (`Step`, `Segment`, `ParseFrom`), with one lemma per grammar rule and worked
  examples.
- `parser.dfy` (module `Parser`): `parseTokens` over the classes, including the in-place
  overwrite of the token array. It is proved to compute `ParserSpec.Parse`.

Each token array is a sequence. Position `|tokens|` stands for the NULL sentinel. A
NULL-or-string value is `Option<string>`. Descriptors are natural numbers, and the
descriptor table is the set of open ones, so closing a descriptor removes it from the set.

Three behaviours of the source are easy to miss; the model follows the source:
- `executeCommand` closes a stage's redirected input and output only after the stage
  succeeds. It never closes the stderr descriptor itself (the `setUpFD` of `pwd` and
  `history` does; see "## Left out").
- A failed `open` for `<` or `2>` releases only the chain. The current Command and
  SimpleCommand leak, and no descriptor opened during the parse is ever closed.
- `cleanUpCommand` does not free the Command struct itself.

## Model

| member | source | states |
|---|---|---|
| `Tokens.BackgroundIsChaining` | include/parser.h:25-35 | `&` is a chaining operator, and a chaining operator that is not background is `;` |
| `Tokens.AppendIsOutputRedirection` | include/parser.h:55-105 | `>>` is an output redirection, and the other output redirection is `>` |
| `Tokens.OperatorClassesDisjoint` | include/parser.h:25-75 | no token is in more than one of the chaining, pipe, output, input and stderr classes |
| `Tokens.IgnorableIsNotAnOperator` | include/parser.h:85-95 | ignorable tokens are non-NULL and are no operator; NULL is neither ignorable nor background |
| `Utils.Copy` | include/utils.h:26-29 | `COPY` keeps a prefix of at most 1024 characters, and the whole string if it is no longer |
| `Utils.StringsOfTerminated` | src/utils.c:57-64 | reading a NULL-terminated array up to its NULL gives back the tokens stored in it |
| `Utils.Scan` | src/utils.c:29-49 | the state of the tokenizer loop after `i` characters; the current token starts at or before `i` |
| `Utils.SplitJoin` | src/utils.c:33-55 | joining the tokens with the delimiter reproduces the input exactly |
| `Utils.InsideIsQuoteParity` | src/utils.c:44-47 | the one shared quote flag is set exactly when an odd number of `'` or `"` characters were read |
| `Utils.TokenCount` | src/utils.c:35-55 | there is one token more than there are delimiters preceded by an even number of quotes |
| `Utils.SourceCapacityOverflows` | src/utils.c:26-55 | the `input_length` slots are too few exactly when every character is an unquoted delimiter (the empty input included) |
| `Utils.SourceCapacityCounterexample` | src/utils.c:26-52 | `" "` split on spaces writes two token slots into a one-slot buffer |
| `Utils.TokenCapacity` | src/utils.c:26 | `input_length + 1` slots hold the tokens for every delimiter |
| `Utils.TokenizeString` | src/utils.c:23-67 | the result is the NULL-terminated array of `Split(input, delimiter)` |
| `Utils.GetTokenCount` | src/utils.c:77-85 | the count is the index of the first NULL, and every entry before it is non-NULL |
| `Utils.RemoveQuotes` | src/utils.c:112-139 | the result is the interior, two characters shorter, iff the string is at least 2 long and starts and ends with the same quote; otherwise it is unchanged |
| `Utils.RemoveQuotesOfQuoted` | src/utils.c:124-133 | quoting a string with `'` or `"` and then removing the quotes gives it back |
| `Utils.RemoveQuotesMismatched` | src/utils.c:124-138 | a `"` … `'` pair is not stripped |
| `Utils.RemoveQuotesNotIdempotent` | src/utils.c:124-133 | `""a""` loses one layer of quotes per call |
| `System.Open` | src/parser.c:149-152 | `open` gives -1 exactly when the file system refuses, else a descriptor that was not open |
| `System.Pipe` | src/parser.c:91-99 | `pipe` fails exactly when the oracle says so, else gives two distinct descriptors that were not open |
| `System.Expand` | src/parser.c:250-261 | `glob` with GLOB_NOCHECK fails only on a glob error, never yields nothing, and gives the literal pattern when nothing matches |
| `ShellHistory.HistoryNode.constructor` | src/shell_builtins.c:35-37 | a node holds the command and has no successor |
| `ShellHistory.HistoryList.Init` | src/shell_builtins.c:161-163 | the history starts empty with size 0 |
| `ShellHistory.HistoryList.AddToHistory` | src/shell_builtins.c:30-56 | a NULL command gives -1 and changes nothing; otherwise a copy is appended and `size` grows by 1 |
| `ShellHistory.HistoryList.CleanHistory` | src/shell_builtins.c:87-102 | after the walk, head and tail are NULL, size is 0 and the list is empty |
| `ShellHistory.HistoryList.Entries` | src/shell_builtins.c:405-414 | walking from head to NULL visits the entries in insertion order |
| `ShellHistory.GetCommandAsWrittenDereferencesNull` | src/shell_builtins.c:67-78 | the source's `get_command` dereferences NULL exactly for index 0 on a non-empty list, gives the 1-based entry for 1..size, and NULL otherwise |
| `ShellHistory.GetCommandZeroCounterexample` | src/shell_builtins.c:72-77 | index 0 on `["ls"]` dereferences NULL |
| `ShellHistory.GetCommand` | src/shell_builtins.c:67-78 | the corrected lookup gives an entry iff 1 <= index <= size, and that entry is the index-th, 1-based |
| `ShellHistory.GetCommandAgrees` | src/shell_builtins.c:67-78 | away from index 0 the corrected lookup agrees with the source |
| `ShellHistory.FindLastFrom` | src/shell_builtins.c:119-133 | the loop's result is the last matching entry from `k` on, or the match it already held if there is none |
| `ShellHistory.FindLastWithPrefix` | src/shell_builtins.c:113-134 | a result is an entry starting with the prefix with no later entry matching; NULL with a list and a prefix means no entry matches |
| `Builtins.LookupFrom` | src/shell_builtins.c:594-600 | the registry loop falls back to `executeProcess` exactly when no later entry has the name |
| `Builtins.GetExecutionFunction` | src/shell_builtins.c:575-603 | exactly `cd`, `pwd`, `exit`, `history` and `prompt` select their builtins; every other name selects `executeProcess` |
| `Builtins.DigitsValue` | src/shell_builtins.c:421-424 | `atoi` of an all-digit string; the empty string gives 0 |
| `Builtins.DigitsValueExamples` | src/shell_builtins.c:424 | `atoi` of `0`, `12` and `007` |
| `Builtins.ExitCode` | src/shell_builtins.c:516-519 | `WEXITSTATUS` lies in 0..255 |
| `Builtins.ProcessStatus` | src/shell_builtins.c:477-525 | -1 iff the fork fails or a foreground wait fails; 0 without waiting under `noWait`; otherwise the child's exit code |
| `Builtins.ProcessStatusExamples` | src/shell_builtins.c:509-525 | a signal-killed child counts as success; exit code 1 is returned; a background child is not waited for |
| `Builtins.HistoryTarget` | src/shell_builtins.c:418-443 | an all-digit argument selects by 1-based index; any other argument selects the latest entry with that prefix |
| `Builtins.HistoryStatus` | src/shell_builtins.c:392-465 | more than one argument gives -1; otherwise -1 iff `setUpFD` fails or the lookup finds nothing |
| `Builtins.HistoryIndexZero` | src/shell_builtins.c:421-431 | `history 0` and `history ""` ask for entry 0, which the source's lookup cannot serve; the corrected one refuses them |
| `Builtins.Invoke` | src/shell_builtins.c:289-553 | `cd` with argc > 2, `pwd` with argc > 1, `prompt` unless argc == 2, `exit` with argc > 2 or a non-digit argument give -1; `cd` and `pwd` give only 0 or -1, 0 exactly when their effect succeeds; `prompt` with argc == 2 gives 0; `history` and `executeProcess` give their own statuses |
| `Pipelines.PushProperties` | src/command.c:136-168 | `pushArgs` appends exactly the copy, names the stage only on the first push and changes nothing else |
| `Pipelines.PushAllProperties` | src/parser.c:263-275 | pushing a list appends every copy in order; the first one names a nameless stage |
| `Commands.SimpleCommand.Init` | src/command.c:20-39 | no name, no args, argc 0, descriptors 0/1/2, `noWait` 0, no handler, pid -1 |
| `Commands.SimpleCommand.ValueWellFormed` | src/command.c:156-165 | a valid SimpleCommand has a name iff it has args, the name is args[0], and the array read to NULL is its args |
| `Commands.PushArgs` | src/command.c:136-168 | NULL gives -1; otherwise argc grows by 1, the copy goes at argc-1, the NULL sentinel follows, earlier entries are unchanged, and the name is set only at argc 1 |
| `Commands.Command.Init` | src/command.c:42-57 | no SimpleCommands, not background, no operator, no next |
| `Commands.AddSimpleCommand` | src/command.c:102-133 | a NULL pointer gives -1 and changes nothing; otherwise the stage is appended at the end and the count grows by 1 |
| `Commands.CommandChain.Init` | src/command.c:60-72 | an empty chain with NULL head and tail |
| `Commands.AddCommandToChain` | src/command.c:77-99 | a NULL chain gives -1; otherwise the Command becomes the tail (and the head of an empty chain), and the earlier Commands keep their order |
| `Commands.CleanUpSimpleCommand` | src/command.c:253-287 | the name and every argument are released; descriptors, flags and pid are unchanged |
| `Commands.CleanUpCommand` | src/command.c:290-315 | every stage and the operator are released; the Command struct itself stays |
| `Commands.CleanUpCommandChain` | src/command.c:318-339 | every Command of the chain is released, in list order |
| `Commands.CleanUpFrom` | src/command.c:324-334 | the loop from head to NULL releases each Command it reaches |
| `Executor.RunStage` | src/command.c:213-230 | the background flag is copied into `noWait` first; a nameless stage gives -1; otherwise the status of its execution function |
| `Executor.Closes` | src/command.c:239-244 | after a stage, its input is closed unless it is 0 and its output unless it is 1; stderr is never closed |
| `Executor.ClosedBetweenMembers` | src/command.c:239-244 | the descriptors closed for a run of stages are exactly their redirected inputs and outputs |
| `Executor.RunFrom` | src/command.c:213-247 | the pipeline loop from stage `i`; the result keeps one entry per remaining stage |
| `Executor.RunFromSucceeds` | src/command.c:230-247 | the pipeline gives 0 iff every stage gives 0, and then every redirected input and output has been closed |
| `Executor.RunFromStopsAtFirstFailure` | src/command.c:233-237 | the first failing stage's status is returned, later stages never run, and only earlier stages' descriptors are closed |
| `Executor.KeepsOtherDescriptors` | src/command.c:239-244 | `executeCommand`'s own closes leave open every descriptor that no stage uses as redirected input or output, so they never close a stderr file |
| `Executor.RunPipeline` | src/command.c:198-248 | an empty Command gives -1 and closes nothing |
| `Executor.BackgroundStagesDoNotWait` | src/command.c:218-220 | in a background Command every stage that is reached runs with `noWait` set |
| `Executor.RunChain` | src/command.c:173-195 | one status and one updated pipeline per Command |
| `Executor.ChainStatus` | src/command.c:184-194 | the chain's status is the last Command's status, 0 for an empty chain |
| `Executor.RunChainRunsEveryCommand` | src/command.c:186-192 | whatever earlier statuses were, Command `k` runs from the descriptors the first `k` left, and its status is recorded |
| `Executor.RunChainOnlyCloses` | src/command.c:173-195 | `executeCommand`'s own closes never open a descriptor over a whole chain |
| `Executor.RunSimpleCommand` | src/command.c:216-230 | one loop iteration up to the status check gives the stage's outcome from `RunStage` |
| `Executor.CloseRedirections` | src/command.c:239-244 | closes exactly the descriptors `Closes` names |
| `Executor.ExecuteStage` | src/command.c:213-245 | one iteration moves the loop on after a success and ends it as `RunFrom` says after a failure |
| `Executor.ExecuteStages` | src/command.c:213-247 | the loop gives the status, stages and open descriptors of `RunFrom` |
| `Executor.ExecuteCommand` | src/command.c:198-248 | NULL gives -1; otherwise the status and descriptors of `RunPipeline`, and the Command holds the updated stages |
| `Executor.ExecuteNode` | src/command.c:189 | running Command `k` changes only that Command |
| `Executor.ExecuteCommandChain` | src/command.c:173-195 | NULL gives -1; otherwise every Command runs in order and the result is `RunChain`'s last status |
| `ParserSpec.Target` | src/parser.c:145-147 | the file name is the first non-ignorable token after the operator, or the sentinel |
| `ParserSpec.Step` | src/parser.c:52-279 | one token: never closes a descriptor, never touches finished Commands, leaves the index on a token |
| `ParserSpec.Segment` | src/parser.c:52-279 | a segment that ends stops on a chaining operator or on the sentinel |
| `ParserSpec.ParseFrom` | src/parser.c:30-302 | finished Commands are only ever appended, and no descriptor is closed |
| `ParserSpec.PipeRules` | src/parser.c:70-117 | a pipe token fails without a name, after an output redirection, or when `pipe` fails; otherwise the stage writes to a fresh pipe and joins the Command, and the next stage reads from the same pipe |
| `ParserSpec.OutputRedirectionRules` | src/parser.c:118-164 | `>`/`>>` need a name and no earlier output redirection; the file is the next non-ignorable token; append-create or truncate-create with mode 0644; a failed open fails the parse |
| `ParserSpec.InputRedirectionRules` | src/parser.c:165-191 | `<` needs only no earlier input redirection; read-only open; a failed open fails the parse |
| `ParserSpec.StderrRedirectionRules` | src/parser.c:192-219 | `2>` needs only no earlier stderr redirection; truncate-create with mode 0644 |
| `ParserSpec.SecondRedirectionFails` | src/parser.c:165-201 | a second `<` or `2>` on one SimpleCommand fails |
| `ParserSpec.IgnorableRule` | src/parser.c:220-224 | space, tab, newline and empty tokens change nothing |
| `ParserSpec.HistoryBangRule` | src/parser.c:225-245 | `!x` before a name gives args `["history", x]` with name `history`; `x` is neither quote-stripped nor globbed |
| `ParserSpec.WordRule` | src/parser.c:246-278 | a plain token is quote-stripped in place and every expansion is pushed in order; an unmatched pattern is pushed literally; a glob error fails the parse |
| `ParserSpec.EndSegmentRules` | src/parser.c:281-301 | a stage joins only if named, with its name's handler; the operator is a copy of the stopping token (NULL at the end); background iff it is `&`; the index skips the operator |
| `ParserSpec.ParsedChainIsFinished` | src/parser.c:281-292 | every parsed Command has named stages with resolved handlers and a chaining operator or NULL, and only the last can lack an operator, so the executor's precondition holds |
| `ParserSpec.ParseKeepsDescriptors` | src/parser.c:183-187 | a parse never closes a descriptor, on success or on failure |
| `ParserSpec.PipeExample` | src/parser.c:91-116 | `a`, pipe, `b`: stage 0 writes to descriptor 4 and stage 1 reads from 3, the two ends of one pipe |
| `ParserSpec.ChainExample` | src/parser.c:288-301 | `a ; b &`: two Commands in order, with operators `;` and `&` and background false and true |
| `ParserSpec.InputBeforeNameExample` | src/parser.c:165-190 | `< f wc` is accepted |
| `ParserSpec.FailureLeaksDescriptor` | src/parser.c:82-163 | `a > f`, pipe, `b` fails, and the descriptor opened for `f` stays open |
| `ParserSpec.RedirectionWithoutTarget` | src/parser.c:144-147 | a redirection followed only by ignorable tokens reaches the sentinel |
| `ParserSpec.TrailingRedirectionOverruns` | src/parser.c:145-147 | `a >` and `a 2> " "` reach the sentinel |
| `Parser.FindTarget` | src/parser.c:145-147 | the skip loop stops where `Target` says |
| `Parser.OpenTarget` | src/parser.c:144-163 | finds the file name, opens it and stores the descriptor in the redirected stream, as `Redirect` says |
| `Parser.ParsePipe` | src/parser.c:70-117 | the pipe branch does what `Step` says, with the error exit that releases all three |
| `Parser.LinkPipe` | src/parser.c:101-116 | the stage gets the write end and its handler and joins the Command; a fresh stage gets the read end |
| `Parser.JoinStage` | src/parser.c:103 | `addSimpleCommand` adds the stage at the end |
| `Parser.ParseRedirection` | src/parser.c:118-219 | the three redirection branches do what `Step` says; the exit releases only the chain exactly when the failure is the `open` of a `<` or `2>` that passed its duplicate check |
| `Parser.PushPaths` | src/parser.c:264-275 | every glob path is pushed in order |
| `Parser.ParseWord` | src/parser.c:225-278 | the bang and plain-token branches do what `Step` says, including the in-place token overwrite |
| `Parser.ParseToken` | src/parser.c:52-279 | one pass of the token loop's body does what `Step` says |
| `Parser.SegmentToken` | src/parser.c:52-279 | one token of a segment: the segment goes on from the next token, or fails here |
| `Parser.ParseSegment` | src/parser.c:52-279 | the token loop of one segment does what `Segment` says |
| `Parser.CloseStage` | src/parser.c:281-287 | the current stage joins, with its handler, only if it has a name |
| `Parser.SetOperator` | src/parser.c:289-292 | the operator is a copy of the stopping token, and background is set iff it is `&` |
| `Parser.FinishCommand` | src/parser.c:281-292 | the Command holds the pipeline `Closed` describes |
| `Parser.Release` | src/parser.c:183-188 | an error exit releases the chain; the all-release exit also releases the Command and SimpleCommand, and the chain-only exit leaves both untouched |
| `Parser.AddToChain` | src/parser.c:294-295 | the chain holds one more Command, at the end |
| `Parser.AppendCommand` | src/parser.c:281-301 | the chain gains the segment's Command, and the index moves past the operator |
| `Parser.StartSegment` | src/parser.c:32-49 | a fresh Command and SimpleCommand run through one segment |
| `Parser.StartCommand` | src/parser.c:32-49 | the same, and the chain is left as it was |
| `Parser.ParseCommand` | src/parser.c:30-302 | one pass of the outer loop: an error exit releases the chain's Commands; otherwise the chain gains the segment's Command |
| `Parser.ParseTokens` | src/parser.c:18-305 | returns a chain iff `Parse` succeeds, holding exactly `Parse`'s pipelines; the descriptors and the overwritten tokens are `Parse`'s on success and failure |

## Left out

- `src/main.c` is not part of this model: reading lines, printing the prompt, the REPL
  loop, the signal handlers and the `SIGCHLD` reaper are I/O and process-level
  concurrency.
- Logging (`include/log.h`), `printCommandChain` and `printSimpleCommand` are output only.
- `setUpFD`/`resetFD` depend on the process's descriptor table and `dup`/`dup2`. What
  `setUpFD` reports enters `history`'s status as an oracle value. The missing `resetFD`
  on `history`'s error returns is not modelled.
- `Executor.RunChainOnlyCloses`: the descriptor set records only `executeCommand`'s own
  `close` calls. `setUpFD` in `pwd` and `history` saves the standard streams with `dup`
  and closes the redirected ones (src/shell_builtins.c:204-238), and `resetFD` leaves the
  saved copies open; `history`'s re-parse of an entry opens descriptors too. So `pwd > f`
  really leaves a new descriptor open, and the property holds only for
  `executeCommand`'s closes.
- `Executor.KeepsOtherDescriptors`: for the same reason, a stderr file of a `pwd` or
  `history` stage is closed by `setUpFD` (src/shell_builtins.c:238), although the model
  keeps it open; the property holds only for `executeCommand`'s own closes.
- `fork`, `execvp` and `waitpid` are not modelled. `executeProcess` sees only the oracle's
  `SpawnResult`; the child side (descriptor set-up, `execvp`, `exit(1)`) is left out.
- `open`, `pipe` and `glob` (with tilde expansion) are oracles. Only which calls succeed,
  the descriptor numbers (lowest free) and the matched paths are modelled.
- The effects of `cd`, `pwd`, `exit` and `prompt` (`chdir`, `getcwd`, process exit, the
  prompt copy) are left out. Their argument checks are modelled. Whether the `chdir`, or
  the `getcwd` and `setUpFD` of `pwd`, succeed is an oracle flag; the `prompt` copy reports
  no failure, so `prompt` with one argument gives 0. An argument of 1024 bytes (the
  `COPY` limit) makes that `strcpy` write one byte past the 1024-byte prompt buffer;
  the overflow is outside the model. `exit` terminating the shell is not
  modelled: its status after the checks is an oracle value.
- The history listing and the re-tokenize/parse/execute of the selected entry inside
  `history` are left out. The model keeps the argument checks, the lookup and the status.
- `Builtins.Runtime`: the oracle is indexed by the position of the call (Command number
  and stage number). The C code has no such counter; the index only lets the same command
  behave differently at different points of one line.
- Strings are sequences of characters; a character stands for one byte of the C string,
  and no string contains NUL. `Utils.Copy`'s 1024 limit therefore counts bytes as `COPY`
  does.
- Allocation failure is not modelled: `malloc`, `realloc` and `strndup` always succeed,
  so the allocation-failure exits of `parseTokens` never happen.
- Releasing memory is not observable: a released name, argument or operator becomes NULL,
  and freed structs stay as they were. No "no leak" or "every descriptor closed once"
  property is claimed, because the source does not have it.
- `Parser.ParseTokens`: requires that the parse never reaches a redirection whose file
  name would be the NULL sentinel. There the source passes NULL to `open`; if `open`
  returned a descriptor, the loop would step past the end of the token array.
  `ParserSpec.TrailingRedirectionOverruns` shows inputs that reach that point.
- `Builtins.DigitsValue`: does not model `atoi` overflow or the cast to `unsigned int`
  for digit strings beyond the `int` range.
- `Builtins.HistoryTarget`: uses the corrected `get_command`, so `history 0` gives -1
  instead of dereferencing NULL.
- `Utils.TokenizeString`: allocates `input_length + 1` slots instead of the source's
  `input_length`; the source's sizing is modelled separately (see Findings).
- `freeTokens` (`src/utils.c:94-101`) only releases memory and is not modelled.

## Findings

| source | as written | input that shows it | evidently intended | confidence | as-written member | corrected member |
|---|---|---|---|---|---|---|
| src/utils.c:26 | `tokenizeString` allocates `input_length` token slots, but writes one more slot than there are unquoted delimiters | `" "` split on `' '` (two tokens, one slot); also the empty input (one token, zero slots) | allocate `input_length + 1` slots | high (not executed) | `Utils.SourceCapacityCounterexample` | `Utils.TokenizeString` |
| src/shell_builtins.c:69-77 | `get_command` with index 0 on a non-empty list walks off the end and dereferences NULL | history `["ls"]`, index 0 (reachable as `history 0`, `!0` or `history ""`) | return NULL for index 0 | high (not executed) | `ShellHistory.GetCommandZeroCounterexample` | `ShellHistory.GetCommand` |
