# VortexShell in Dafny

A model of the decision-making core of `VortexShell.c`, a small interactive
shell. Each input line is classified by the first operator test that holds:
`|` without `||` makes a pipeline, `=` a reverse pipeline, `~` a cross-append
of two files, a leading `#` a word count, `+` a concatenation, `;` a sequence,
and `&&`/`||` a conditional chain. Anything else is a single command. The
line is then cut into segments. Each segment is parsed into a command
record: words, `<` input file, `>`/`>>` output file and mode, at most five
words. The segments are handed to the mode's handler.

The model covers:

- the record and its parser and cleanup (`Command`);
- the splitting loops of `main` (`Split`, `Chain`, `ChainLaws`) and the
  classifier (`Dispatch`);
- the `&&`/`||` short-circuit runner (`ShortCircuit`);
- the `;` runner, which re-tokenises without redirection (`Sequential`);
- the wiring and descriptor bookkeeping of both pipe handlers (`Pipes`);
- the word counter (`WordCount`);
- the kill-all selection and the process-name extraction (`KillAll`);
- the content effect of the two file operations (`Files`).

Operating-system effects are parameters:

- how each child exits: `exits` in `ShortCircuit`;
- how many `pipe()` calls succeed: `made` in `Pipes`;
- the `ps` listing and `/proc/self/cmdline` contents, in `KillAll`;
- file contents: a byte sequence, or a map from names to contents.

Loops that the source runs over arrays and counters are Dafny methods. Each
is proved equal to a specification function, and the properties are proved
about those functions. The record is a class whose fields the parser
updates in place.

## Model

| member | source | states |
|---|---|---|
| Text.FieldsJoin | VortexShell.c:229-251 | tokens without the delimiter, joined by single delimiters, come back exactly from the `strtok` split |
| Text.TrimSpaces | VortexShell.c:112-119 | the leading-space skip plus the trailing-space loop yield `Trim(s)`, a string that neither starts nor ends with a space |
| Text.FindPairFinds | VortexShell.c:78 | the `strstr` search for a doubled character succeeds exactly when the pair occurs somewhere |
| Command.Scan | VortexShell.c:230-252 | the token loop collects at most MAX_ARGS words, keeps the words already held, and never stores `<`, `>` or `>>` as a word |
| Command.Step | VortexShell.c:232-251 | one pass consumes at least one token and either keeps the words or adds the token, which is then no redirection operator |
| Command.Parsed | VortexShell.c:255-260 | after parsing, the word list is empty (rejected) or has 1 to 5 words, none a redirection operator |
| Command.Command.constructor | VortexShell.c:314 | a zeroed record: no words, every slot NULL, no redirection |
| Command.Command.Free | VortexShell.c:264-272 | every word slot below `argc` becomes NULL and `argc` becomes 0; the slots above and the redirection fields are unchanged |
| Command.Command.AddWord | VortexShell.c:249-250 | the record's word list grows by exactly the token |
| Command.Command.Terminate | VortexShell.c:253 | the slot after the last word becomes NULL, the record's value unchanged |
| Command.Command.ReadToken | VortexShell.c:232-251 | one pass of the loop moves the record and the position exactly as one `Step`: `<` sets the input file, `>`/`>>` the output file and mode, each to the next token or NULL |
| Command.Command.Parse | VortexShell.c:220-261 | the record ends up holding `Parsed(input)`, with a NULL after the last word |
| Command.ScanWords | VortexShell.c:230-252 | the words collected are the first MAX_ARGS words of the segment, in order |
| Command.ScanItems | VortexShell.c:232-248 | with at most 5 words every redirection is applied and the last `<` and the last `>`/`>>` win |
| Command.ParseLine | VortexShell.c:220-261 | a segment written from words and redirections parses back to exactly those words and the last redirections when it has 1 to 5 words, and to no words otherwise |
| Command.TerminatorOverrun | VortexShell.c:253 | with six or more plain words the NULL is written at index 6 of the source's six-slot array |
| Split.Segments | VortexShell.c:79-84 | at most six segments, each non-empty and without the separator |
| Split.SplitSegments | VortexShell.c:79-84 | the `|` and `=` loops store exactly the first six `strtok` fields |
| Split.SegmentsJoin | VortexShell.c:79-84 | segments joined by the separator split back into (at most six of) themselves |
| Split.FileNames | VortexShell.c:135-144 | at most six names, no more than the `+` fields |
| Split.SplitFiles | VortexShell.c:135-144 | the `+` loop stores the first six fields, each trimmed |
| Split.FileNamesJoin | VortexShell.c:135-144 | a `+` line built from pieces gives back the first six pieces, trimmed |
| Split.CrossAppendFiles | VortexShell.c:106-122 | the two names found in a `~` line never contain `~` |
| Split.CrossAppendJoin | VortexShell.c:106-122 | `a ~ b` names the two files `Trim(a)` and `Trim(b)` |
| Split.CrossAppendMissing | VortexShell.c:109-125 | a `~` line with text on one side only reports the missing file |
| Split.WordCountFile | VortexShell.c:128-131 | the file counted is the suffix after `#` with leading spaces skipped |
| Split.WordCountFileOf | VortexShell.c:128-131 | `#`, any spaces, then a name: the name is what is counted |
| Split.Kept | VortexShell.c:155-163 | at most `room` commands, each non-empty and neither starting nor ending with a space |
| Split.SequentialSegments | VortexShell.c:148-164 | at most four `;` commands, none empty |
| Split.SplitSequential | VortexShell.c:148-164 | the `;` loop stores the first four trimmed, non-empty fields |
| Split.KeptIsFilter | VortexShell.c:155-163 | what the `;` loop keeps is: trim every field, drop the empty ones, keep the first four |
| Split.SequentialJoin | VortexShell.c:148-164 | a `;` line built from pieces gives back the first four non-empty trimmed pieces |
| Chain.CondSplit | VortexShell.c:180-201 | with room for r commands: at most r segments, at least one when r > 0, and one operator between neighbours unless the room runs out |
| Chain.Conditional | VortexShell.c:180-201 | one to six segments, with one operator between neighbours (or six of each when the scan runs out of room) |
| Chain.NextSegment | VortexShell.c:181-200 | one pass cuts at the earlier of `&&` and `\|\|` (`&&` on a tie), skips the spaces after it, and leaves the rest for the next pass |
| Chain.SplitConditional | VortexShell.c:170-201 | the arrays hold exactly the segments and operators of `Conditional(line)` |
| ChainLaws.CondSplitClean | VortexShell.c:180-201 | no segment handed to `parse_command` contains `&&` or `\|\|` |
| ChainLaws.CondJoin | VortexShell.c:180-201 | commands joined by `&&`/`\|\|` split back into those commands and operators, up to the room available |
| ChainLaws.ConditionalOperatorOverrun | VortexShell.c:186-193 | seven commands make the scan record six operators, one more than `operators[MAX_PIPES]` holds |
| ShortCircuit.StatusOf | VortexShell.c:589 | the status is 0 exactly for a normal exit with code 0; a child that did not exit normally never counts as success |
| ShortCircuit.Started | VortexShell.c:573-594 | among the first k commands at most k are started (which ones: `StartedExactly`) |
| ShortCircuit.LastAfter | VortexShell.c:573-593 | `last_status` is always 0 or the status of a command already considered |
| ShortCircuit.ExecuteConditional | VortexShell.c:572-595 | the loop starts exactly `Started(n)`, ends with `LastAfter(n)`, and frees every command once, in order |
| ShortCircuit.StartedExactly | VortexShell.c:576-578 | the commands started are in increasing order, and command i is started iff its run condition holds |
| ShortCircuit.Consider | VortexShell.c:576-593 | a command that runs is appended and sets the status; one that is skipped changes neither |
| ShortCircuit.FirstStarts | VortexShell.c:576 | the first command always runs |
| ShortCircuit.AndChain | VortexShell.c:577 | in an all-`&&` chain the status is 0 iff every command so far succeeded |
| ShortCircuit.AndChainRuns | VortexShell.c:577 | in an all-`&&` chain a command runs iff all before it succeeded |
| ShortCircuit.OrChain | VortexShell.c:578 | in an all-`\|\|` chain the status is non-zero iff every command so far failed |
| ShortCircuit.OrChainRuns | VortexShell.c:578 | in an all-`\|\|` chain a command runs iff all before it failed |
| ShortCircuit.FailedAndThenOr | VortexShell.c:573-593 | `false && A \|\| B` runs commands 0 and 2 and ends with B's status |
| ShortCircuit.SkipKeepsStatus | VortexShell.c:591-592 | a skipped command leaves `last_status` unchanged and is not started |
| Sequential.SegmentTokens | VortexShell.c:315-325 | at most MAX_ARGS tokens, each non-empty and without spaces |
| Sequential.RunSegment | VortexShell.c:328-340 | a segment that runs has 1 to 5 words and no redirection; one that is refused reports a non-empty name without spaces |
| Sequential.Tokenize | VortexShell.c:321-325 | the `strtok` loop yields the first MAX_ARGS space-separated fields |
| Sequential.Fill | VortexShell.c:329-333 | the zeroed record holds exactly the tokens, no redirection, and a NULL after the last |
| Sequential.RunSegmentIn | VortexShell.c:313-341 | one segment's outcome is `RunSegment(seg)`: nothing, a rejection naming the first token, or a run |
| Sequential.ExecuteSequential | VortexShell.c:312-343 | every segment is handled in order, each as `RunSegment` says |
| Sequential.RunsWords | VortexShell.c:321-339 | 1 to 5 words run with exactly those words as arguments and no redirection, whatever the words are |
| Sequential.RejectsMany | VortexShell.c:335-337 | six or more words are refused, naming the first |
| Sequential.BlankDoesNothing | VortexShell.c:328 | a segment of spaces runs nothing |
| Sequential.RedirectionIgnored | VortexShell.c:321-339 | `cat < f` in a `;` line passes `<` and `f` as arguments, while `parse_command` would make `f` the input |
| Sequential.SequentialTerminatorOverrun | VortexShell.c:333 | six or more words put the NULL at index 6 of the six-slot array |
| Pipes.Ends | VortexShell.c:351-356 | an endpoint belongs to the pipes made so far iff its pipe index is below their number |
| Pipes.SpawnOrder | VortexShell.c:359 | the fork loop takes the indices 0 up to n-1, and in reverse (line 407) n-1 down to 0 |
| Pipes.Reaps | VortexShell.c:387-390 | the last loop only waits and frees, and only for indices below n |
| Pipes.Plan | VortexShell.c:346-391 | the children are forked iff every `pipe()` succeeds, and then there are n of them; otherwise fewer pipes exist than the pipeline needs and nothing is forked |
| Pipes.Replay | VortexShell.c:361-385 | a process that follows its steps without a `dup2` of a released endpoint ends holding only endpoints it started with |
| Pipes.CreatePipesAsWritten | VortexShell.c:351-356 | creation succeeds iff every `pipe()` does; on a failure the pipes already made stay open |
| Pipes.PlanAsWritten | VortexShell.c:351-356 | as written, the handlers agree with `Plan` when every pipe is made; after a failed `pipe()` the shell takes no step and forks nothing |
| Pipes.HandlePipesAsWritten | VortexShell.c:346-391 | both handlers as written (the reverse one at lines 394-439) give `PlanAsWritten(n, made, reverse)` |
| Pipes.CreationFailureLeaks | VortexShell.c:351-356 | after a failure past the first pipe, the shell as written ends holding every endpoint it made, both ends of pipe 0 among them, where the corrected plan ends holding none |
| Pipes.CreatePipes | VortexShell.c:351-356 | corrected creation: on a failure the shell closes both ends of each pipe made and holds none afterwards |
| Pipes.CloseAll | VortexShell.c:382-385 | the steps are both ends of pipes 0..count-1 closed, read end first (also lines 371-374, 419-422, 430-433) |
| Pipes.ForwardChild | VortexShell.c:361-374 | child i takes the steps `ChildSteps(i, n, false)`; each `dup2` names an endpoint it still holds, and it holds no endpoint at `execvp` |
| Pipes.ReverseChild | VortexShell.c:409-422 | child i takes the steps `ChildSteps(i, n, true)`, with the same guarantees as a forward child |
| Pipes.WaitAll | VortexShell.c:387-390 | the steps are `Reaps(n)`: each child waited for and then its command freed, in index order |
| Pipes.HandlePipes | VortexShell.c:346-391 | the children and the shell's steps are `Plan(n, made, false)`: forks 0..n-1, then every close, then waits and frees |
| Pipes.RunForward | VortexShell.c:359-390 | once every pipe exists, the forward handler's steps are those of `Plan` |
| Pipes.HandleReversePipes | VortexShell.c:394-439 | the children and the shell's steps are `Plan(n, made, true)`: forks n-1 down to 0, then every close, then waits and frees |
| Pipes.RunReverse | VortexShell.c:407-438 | once every pipe exists, the reverse handler's steps are those of `Plan` |
| Pipes.ChildDups | VortexShell.c:362-369 | a child calls `dup2` onto standard input (output) with endpoint e iff its wiring reads (writes) e |
| Pipes.ChildReleases | VortexShell.c:361-374 | starting from every endpoint, each `dup2` of a child names an endpoint still held, and none is held at `execvp` |
| Pipes.OneReaderOneWriter | VortexShell.c:362-369 | each pipe has exactly one reader and one writer in both modes, and which children they are |
| Pipes.WiringInRange | VortexShell.c:410-417 | stdin is only ever a read end, stdout only a write end, of a pipe that exists |
| Pipes.ReverseMirrorsForward | VortexShell.c:410-417 | reverse child i is wired as forward child n-1-i with pipe p renamed n-2-p |
| Pipes.Flow | VortexShell.c:362-369 | data flows from each command to the next forward, and to the previous one in reverse |
| Pipes.PlanClosesAll | VortexShell.c:382-390 | the shell holds no endpoint when it first waits and at every later wait, and none at the end; a failed creation forks, waits and frees nothing |
| Pipes.PlanChildrenClose | VortexShell.c:359-378 | every child runs one of the n commands, calls `dup2` as its wiring says, only on endpoints it holds, and reaches `execvp` holding none |
| Pipes.PlanOnce | VortexShell.c:359-390 | after successful creation the shell's steps fork, wait for and free each command exactly once |
| WordCount.Words | VortexShell.c:526-534 | the number of maximal runs of non-separator bytes, at most the length |
| WordCount.CountWords | VortexShell.c:522-534 | the `in_word`/`words` loop returns `Words(file)` |
| WordCount.WordsSplit | VortexShell.c:527-528 | a separator between two texts adds their word counts |
| WordCount.OneWord | VortexShell.c:529-532 | a non-empty run without separators is one word |
| WordCount.WordsOfJoin | VortexShell.c:526-534 | n words written one space apart count n |
| WordCount.AsSignedChar | VortexShell.c:523 | storing `fgetc` in a signed `char` makes exactly byte 0xFF equal EOF |
| WordCount.BeforeFF | VortexShell.c:526 | the bytes before the first 0xFF, all of them when there is none |
| WordCount.CountWordsAsWritten | VortexShell.c:522-534 | as written, the count is `Words` of the bytes before the first 0xFF |
| WordCount.StopsAtFF | VortexShell.c:526 | "a", 0xFF, " b" holds two words, of which the loop as written counts one |
| KillAll.Others | VortexShell.c:636-639 | this shell's own pid is never among the others signalled |
| KillAll.Signals | VortexShell.c:630-653 | its own pid is signalled iff a listing was read and it appears in it |
| KillAll.KillAllShells | VortexShell.c:615-653 | the pids signalled are `Signals(listing)`: the other matches in order, then itself if listed, nothing without a listing |
| KillAll.OthersExactly | VortexShell.c:630-645 | a pid other than its own is signalled iff some listed entry with this shell's name has it |
| KillAll.SelfLast | VortexShell.c:640-653 | its own pid is signalled at most once, only if listed, and always last |
| KillAll.BaseName | VortexShell.c:604-607 | the result has no '/', is a suffix of the path, and follows a '/' when shorter |
| KillAll.BaseNameOf | VortexShell.c:604-607 | `dir/name` gives `name` |
| KillAll.BaseNameIdempotent | VortexShell.c:604-607 | taking the base name twice changes nothing |
| KillAll.ProcessName | VortexShell.c:598-612 | the name has no '/', and is "w25shell" when the command line cannot be read |
| KillAll.ProcessNameOf | VortexShell.c:598-607 | a shell started as `dir/name args` finds `name` |
| Files.CrossAppended | VortexShell.c:442-513 | a cross-append leaves both named files existing, creates no other file and leaves every other file unchanged |
| Files.Disk.OpenAndRead | VortexShell.c:443-481 | opening with "a+" fails for the empty name, otherwise creates a missing file empty and reads its contents |
| Files.Disk.Append | VortexShell.c:487-503 | the data goes at the end of the file |
| Files.Disk.HandleFileAppend | VortexShell.c:442-513 | succeeds iff both names can be opened, and the disk becomes `CrossAppended(old, f1, f2)`; otherwise the name that could be opened exists and nothing is appended |
| Files.CrossAppendDistinct | VortexShell.c:497-503 | for two files, file1 becomes old1 followed by old2 and file2 becomes old2 followed by old1; both exist, nothing else changes |
| Files.CrossAppendSame | VortexShell.c:497-503 | naming one file twice leaves its contents three times over |
| Files.Disk.ConcatenateFiles | VortexShell.c:541-569 | the output is `Concatenation(names)` and the names reported are `Missing(names)` |
| Files.Missing | VortexShell.c:543-546 | every name reported was asked for and cannot be opened for reading: it does not exist or is empty |
| Files.ConcatenationAppend | VortexShell.c:542-567 | concatenating a list of names is concatenating its parts |
| Files.MissingSkipped | VortexShell.c:543-546 | a name that cannot be opened adds nothing to the output and is reported |
| Files.EmptyNameSkipped | VortexShell.c:543-546 | an empty name, as in `a + + b`, is reported and adds nothing, whatever the disk holds |
| Dispatch.Classify | VortexShell.c:66-207 | "killterm" and nothing else quits; a line taken as a single command has no `\|`, `=`, `~`, `+`, `;`, leading `#` or `&&` |
| Dispatch.Rank | VortexShell.c:66-212 | every mode has its place in the order of the tests |
| Dispatch.ClassifyFirstMatch | VortexShell.c:66-212 | the mode chosen is the first, in `main`'s order, whose test holds, and the only mode with that property |
| Dispatch.PipeBeforeAndOr | VortexShell.c:78 | a lone `\|` wins over `&&`: `a && b \| c` is a pipeline |
| Dispatch.SequenceBeforeAndOr | VortexShell.c:148-170 | with `;` present and no earlier operator, `&&` and `\|\|` are text of the `;` commands |
| Dispatch.PlanBounds | VortexShell.c:79-203 | the work handed on fits `main`'s arrays: six pipe commands or files, one to six chained commands with operators between, one to four `;` commands, a single command only with 1 to 5 words |
| Dispatch.ParseEach | VortexShell.c:85-88 | each segment is parsed into its own record |
| Dispatch.HandleLine | VortexShell.c:66-212 | running the splitters and the parser on a line yields `Plan(line)` |

## Left out

- Process creation, `execvp`, `dup2` and `waitpid` are not executed. The
  pipe handlers record, for the shell and for each child, the ordered steps
  it takes on descriptors and processes: forks, `dup2`, `close`, waits and
  frees. The conditional runner takes each child's exit
  as a parameter. A `fork` that fails is not modelled.
- `execute_single_command` (VortexShell.c:275-309) is not part of this
  model beyond the record handed to it: opening the redirection files and
  running the program are operating-system effects.
- `setpgid`, the process group and SIGKILL delivery are left out. The
  kill-all model returns the pids signalled, in order.
- Running `ps` with `popen` and reading its lines with `sscanf` are left
  out. The listing is a parameter, with an unreadable line as None. The
  `comm` field of `ps` is at most 15 characters on Linux, so a longer shell
  name never matches; this depends on the system, not on the program.
- Reading `/proc/self/cmdline` is a parameter. The source's `fread` does not
  NUL-terminate `self_name` when the command line fills 255 bytes, and
  `strcpy` copies between overlapping parts of one buffer. The model takes
  the first NUL-terminated argument of the bytes read.
- The prompt, `fgets` and every message printed are left out. The model
  starts from the line with its newline stripped.
- `handle_file_append` and `concatenate_files` are modelled only by their
  effect on file contents. The open failures modelled are those of a
  missing file opened with "r" and of the empty name, which comes from a
  blank side that is still a field: `   ~ b` opens `""` with "a+"
  (VortexShell.c:443-455) and `a + + b` opens it with "r" (line 543).
  Other open failures of an existing or creatable file, `malloc` failure,
  and short reads or writes are left out.
- Files.CrossAppendSame: each `fwrite` is taken to land whole at the end of
  the file. Lines 486-508 write through two "a" streams open on the same
  file at once; with stdio buffering, contents larger than one buffer reach
  the file in interleaved blocks, so a file named on both sides of `~` need
  not end as three copies of itself.
- WordCount.CountWords: the failure to open the file (VortexShell.c:516-520)
  is not modelled; the counter is given the bytes of the file.
- ShortCircuit.ExecuteConditional: a segment that `parse_command` rejects
  (no words) is still forked and handed to `execvp` (VortexShell.c:582, and
  likewise at lines 375 and 423 in the pipe handlers), where such a child
  can only end with status 1. The model keeps those segments, as
  `Dispatch.Plan` does, but `exits` leaves the status of each child free
  rather than fixing it at 1 for them.
- `strtok`'s hidden state is not modelled; tokenising is the function
  `Fields`. `strdup` and `free` are not modelled either: freeing is
  clearing the word slots.
- `parse_command` points `input_file` and `output_file` into its own local
  copy of the line, which is gone once it returns. The model keeps the
  file names as values.
- The `strncpy` copies into MAX_CMD_LEN buffers are modelled only in the
  `;` runner. Lines come from a 256-byte `fgets` buffer, so the truncation
  never shortens a line.
- Pipes.PlanOnce: the model does not distinguish pids. Each child is
  identified by its command index, and the wait for `pids[i]` is a wait
  for child i.
- Pipes.HandlePipes, Pipes.HandleReversePipes: after a failed `pipe()` the
  model releases the pipes already made (see Findings). The source leaves
  them open and does not free the parsed commands; the model records no
  frees in that case, as the source does.

## Findings

| source | as written | input that shows it | evidently intended | confidence | as-written member | corrected member |
|---|---|---|---|---|---|---|
| VortexShell.c:253, VortexShell.c:333 | `args[argc] = NULL` with `char *args[MAX_ARGS]`: after six words the NULL goes to index 6, past the array | `a b c d e f` as a command, or as one `;` segment | a slot for the terminator (MAX_ARGS + 1 slots) | high (not executed) | Command.TerminatorOverrun | Command.Command.Parse |
| VortexShell.c:186-193 | `operators[op_idx++]` with `char operators[MAX_PIPES]`: the sixth segment followed by an operator writes `operators[5]` | `a && b && c && d && e && f && g` | room for one operator per stored command (MAX_PIPES + 1 slots) | high (not executed) | ChainLaws.ConditionalOperatorOverrun | Chain.SplitConditional |
| VortexShell.c:351-356, VortexShell.c:399-404 | on a failed `pipe()` the function returns with the pipes already made still open in the shell | three commands with the second `pipe()` failing (made = 1) | close the pipes made before returning | medium (not executed) | Pipes.CreationFailureLeaks | Pipes.CreatePipes |
| VortexShell.c:521-526 | `char c = fgetc(f)` compared with EOF: where `char` is signed, byte 0xFF reads as EOF and ends the count early; where it is unsigned, EOF is never matched and the loop does not end | a file holding `a`, 0xFF, ` b` | count every byte up to the real end of file (`int c`) | medium (not executed) | WordCount.CountWordsAsWritten | WordCount.CountWords |
