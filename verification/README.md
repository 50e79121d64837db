# tsh: a verified model of the tokenizer and command scan

tsh is a small interactive shell written in C (`tsh.c`). It reads a line,
splits it into tokens, and runs the commands those tokens describe. Commands
are separated by `&&` (sequencing), `|` (pipe) and `>` (output appended to a
file). This project models the four routines that do the work and proves
what they compute:

- `tshTokenizeCmdLine`, the tokenizer:
  - the pure specification `Tokens.Lex` / `Tokens.Tokenize` follows the
    source's character switch one case per branch;
  - the imperative `Tokenizer.TokenizeCmdLine` keeps the source's form,
    growing its character buffer and its token array by doubling, and is
    proved to return exactly `Tokenize(line)`;
- `toggleOutputPostprocessing`, as a flip of the terminal's OPOST bit;
- `tshExecuteCmd`:
  - the built-ins `cd` and `exit`;
  - fork, and rewiring descriptors 0 and 1 in the child;
- `tshParseCmdArgs`, the left-to-right scan over the token array, including
  the in-place `memmove` done for `>`.

The effects on the operating system are modelled as values (module `Os`):

- File descriptors are symbolic (`Fd`): a standard stream, an end of the
  n-th pipe, or an open file.
- Every effect the shell has is appended to a log of `Event`s.
- The system's own decisions are parameters of the `World`:
  - whether standard input is a terminal;
  - which directories `chdir` accepts;
  - which calls of `fork` fail, counted from the first (a set of call
    numbers, so each call fails or succeeds on its own).
- `Os.Execute` and `Scan.ScanFrom` / `Scan.Parse` are the specifications.
- The class `Tsh.Shell` holds the state the source changes in place:
  - the working directory;
  - the OPOST bit;
  - whether the process has exited;
  - the log.
- The methods of `Tsh.Shell` are the source's loops and branches, each proved
  equal to its specification.

How `tshParseCmdArgs` ends is an `Outcome`:

- `Finished`: it returned.
- `Exited`: `exit` ended the shell.
- `Hung`: a `<` token.
  - `continue` skips the index increment, so the source loops for ever.
- `Fault`: a command with no words.
  - The source would copy an empty array and read its first element.

Where the source's behaviour differs from what a reader might expect of a
shell, the model follows the source:

- `&&` does not short-circuit: the next command runs whatever the previous
  one returned (`Scan.SequenceRunsBoth`).
- `cmd > file`:
  - runs `cmd` into the file;
  - then moves its words to index 2 of the token array (`m` below);
  - the scan resumes at the token after the `>`, that is, at the file name,
    and the next command starts two cells after the redirected command's old
    start. When only words follow, that command is the cells of the moved
    array from that start up to the sentinel, whatever the move left there
    (`Scan.RedirectNextCommand`).
  - When the command starts the line, the move rewrites cells 2 up to and
    including the file name's cell with the command's words. So on a line
    `cmd > f`, with any number of words in `cmd`, the command runs a second
    time, to standard output: `a b > f` runs `a b` twice
    (`Scan.RedirectRunsTwice`).
  - Words after the file name join that rerun: `a > f g` runs `a g`
    (`Scan.TrailingWordJoinsRerun`).
  - In `x && a > f`, with one-word `x` and `a`, the move changes nothing
    and the file name `f` itself is run as a command
    (`Scan.RedirectAfterAndRunsFileName`). With two words, as in
    `x && a b > f`, the next command is `> f` (`Scan.MultiWordAfterAnd`).
- The child closes each descriptor it duplicated (`Os.ChildSeesItsWiring`).
  - Input descriptor 1 with output standard output: descriptor 0 refers to
    standard output and descriptor 1 is closed.
  - Input descriptor 1 with output descriptor 0: descriptor 1 refers to
    standard output and descriptor 0 is closed.
  - Input descriptor 1 with any other output: descriptor 0 refers to
    standard output and descriptor 1 to the output.
  - Any other input with output descriptor 0: descriptor 1 refers to the
    input and descriptor 0 is closed.
  - Input and output the same descriptor other than 0 and 1: the first close
    shuts it, the second `dup2` fails and descriptor 1 stays standard
    output.
  - The scan itself only ever passes standard input or a pipe's read end as
    input, and standard output, a pipe's write end or a file as output, so
    its children read `in` on 0 and write `out` on 1.
- A backslash before a character other than `n`, `r`, `\`, `"` or `'` is
  dropped. The character after it is then read on its own, so `\ ` still
  splits a token outside quotes (`Tokens.UnknownEscapeDropped`,
  `Tokens.EscapedSpaceSplits`).
- `\n` puts a carriage return and a newline into the token, `\r` a carriage
  return (`Tokens.EscapeInWord`).
- A `"` can appear inside a token, through the escape `\"`.
  - Quote characters never do on a line without backslashes
    (`Tokens.QuotesNeverInTokens`).
- `cd` to a directory that exists changes the directory and then still
  forks a child that runs `cd` (`Os.ExecuteDispatch`).
- An operator directly before the end of the line is an ordinary word of
  the last command (`Scan.TrailingOperatorIsWord`).

## Model

| member | source | states |
|---|---|---|
| Tokens.EscapeRules | tsh.c:189-220 | a known escape consumes two characters and appends its text; an unknown one drops only the backslash and re-reads the next character |
| Tokens.TrailingBackslashVanishes | tsh.c:179-191 | a backslash at the end of the line contributes nothing |
| Tokens.TokenizeShape | tsh.c:179-184 | the token list ends with the sentinel "", which occurs nowhere else; every other token is non-empty |
| Tokens.BlankLine | tsh.c:179-230 | a line of spaces only yields just the sentinel |
| Tokens.QuotesNeverInTokens | tsh.c:185-188 | on a line without backslashes no token contains a `"` |
| Tokens.QuotedKeepsSpaces | tsh.c:185-234 | a quoted run of ordinary characters, spaces included, is one token without its quotes |
| Tokens.WordEnd | tsh.c:221-234 | the end of a run of non-space characters: the run has no space and is followed by a space or the end |
| Tokens.PlainLineTokens | tsh.c:221-234 | a line without quotes, backslashes or NULs is split into its maximal runs of non-spaces, then the sentinel |
| Tokens.TokenizeJoin | tsh.c:175-246 | joining plain words with single spaces and tokenizing gives back the words followed by the sentinel |
| Tokens.EchoHelloWorld | tsh.c:166-254 | `echo hello world` yields `echo`, `hello`, `world` and the sentinel |
| Tokens.EchoQuoted | tsh.c:185-234 | `echo "a b" c` yields `echo`, `a b`, `c` and the sentinel |
| Tokens.EscapedSpaceSplits | tsh.c:189-230 | `x\ y\` yields `x`, `y` and the sentinel: an escaped space still splits and a final backslash vanishes |
| Tokens.EscapedBackslash | tsh.c:199-203 | `a\\b c` yields `a\b`, `c` and the sentinel |
| Tokens.EscapedQuote | tsh.c:204-208 | `\"` yields a token made of one `"`, then the sentinel: an escaped quote does not open a quoted run |
| Tokens.LexWordRun | tsh.c:221-234 | outside quotes, a run without spaces, quotes, backslashes or NULs is copied into the current token |
| Tokens.LexSameRest | tsh.c:175-246 | the tokenizer only reads forward: two lines with the same remainder give the same tokens from there |
| Tokens.EscapeInWord | tsh.c:189-220 | inside a word of plain characters, `\n` becomes carriage return and newline, `\r` a carriage return, and `\\`, `\"`, `\'` the character itself; the word stays one token |
| Tokens.UnknownEscapeDropped | tsh.c:189-220 | after a plain spaceless prefix, a backslash before any character other than a known escape or NUL is dropped: the line tokenizes as if it were absent |
| Tokenizer.Grow | tsh.c:237-241 | the reallocated array has the new size and keeps the old contents; the cells after them hold the given fill |
| Tokenizer.Put | tsh.c:231-241 | the buffer holds the old characters plus the new one, and has room for the next |
| Tokenizer.ReadToken | tsh.c:176-242 | the inner loop reads exactly the next token of `Lex`; it either ends the line or finishes a non-empty token at an unquoted space |
| Tokenizer.Push | tsh.c:244-252 | the token array holds the old tokens plus the new one, has room for the next, and its unused cells stay "" |
| Tokenizer.Finish | tsh.c:179-184 | the array ends with the last token, if any, then the sentinel; the cells after it stay "" |
| Tokenizer.TokenizeCmdLine | tsh.c:166-254 | the first n cells of the returned array are exactly `Tokenize(line)` and every cell after them is "" |
| Os.ToggleFlips | tsh.c:18-30 | on a terminal OPOST is flipped and 0 returned; otherwise nothing changes and 1 is returned; two toggles restore the bit |
| Os.ChildSeesItsWiring | tsh.c:56-66 | after its dup2 and close calls the child reads `in` on 0 and writes `out` on 1, unless `in` is descriptor 1, `out` descriptor 0, or both the same other descriptor, where a close leaves the stated descriptor closed or the second dup2 fails; it rewires 0 iff `in` is not 0 and 1 iff `out` is not 1 |
| Os.RewireAppend | tsh.c:56-66 | rewiring by two lists of calls is rewiring by the first, then by the second |
| Os.ExecuteDispatch | tsh.c:43-75 | the result status and the new world for every case: `cd` without a directory, a failed chdir, a successful chdir, `exit`, a failed fork, a child run; `fork` is called, and counted, exactly when neither a failed `cd` nor `exit` returned first, and fails when its call number is a failing one |
| Os.RedirectedBuiltinsSpawn | tsh.c:47-53 | with output to a pipe or file, `cd` and `exit` are ordinary children: directory and process state untouched, one fork called |
| Scan.MemmoveCells | tsh.c:138 | after the move, cells `dst..dst+len` hold what cells `src..src+len` held, all others keep their value |
| Scan.MemmoveKeepsSentinel | tsh.c:138-139 | moving a command's words to index 2 keeps the final sentinel |
| Scan.RedirectExtends | tsh.c:134-137 | opening, running into and closing the file only extends the log and never ends the shell |
| Scan.ScanEndStep | tsh.c:104-109 | at the sentinel the last command runs to standard output; the scan faults on an empty command, reports Exited after `exit`, otherwise finishes |
| Scan.ScanAndStep | tsh.c:110-118 | at `&&` the command runs to standard output and the scan goes on after it with standard input |
| Scan.ScanPipeStep | tsh.c:119-129 | at `\|` a pipe is opened, the command writes into it, its write end is closed and the scan goes on reading from it |
| Scan.ScanRedirectFault | tsh.c:130-136 | `>` with no command before it opens the file and faults |
| Scan.ScanRedirectStep | tsh.c:130-140 | `>` after a command: its effects into the file, then the scan of the shifted array, whose sentinel stays in place |
| Scan.ScanLessStep | tsh.c:141-142 | at `<` the scan stops where it is |
| Scan.ScanWordStep | tsh.c:143-147 | any other token, including an operator before the sentinel, widens the current command |
| Scan.ScanOverWords | tsh.c:143-147 | a run of ordinary words only widens the current command |
| Scan.ScanKeepsTerminal | tsh.c:103-148 | the scan never touches OPOST or the system's decisions, only extends the log, and reports Exited exactly when the shell exited |
| Scan.ScanAndKeepsTerminal | tsh.c:110-118 | the same for a step at `&&` |
| Scan.ScanPipeKeepsTerminal | tsh.c:119-129 | the same for a step at `\|` |
| Scan.ScanRedirectKeepsTerminal | tsh.c:130-140 | the same for a step at `>` |
| Scan.EmptyLineIsNoOp | tsh.c:100 | an empty token array changes nothing and returns |
| Scan.ParseRestoresTerminal | tsh.c:100-152 | a scan that returns leaves OPOST as it was, with exactly one toggle before and one after all command effects; one that exits, hangs or faults leaves it toggled |
| Scan.SequenceRunsBoth | tsh.c:110-118 | `a && b` runs `a` then `b`, both on standard input and output, whatever `a` returned |
| Scan.PipeWiring | tsh.c:119-129 | `a \| b` opens pipe 0, runs `a` into its write end, closes it and runs `b` from its read end |
| Scan.RedirectRunsTwice | tsh.c:130-146 | for a line `cmd > f` where `cmd` is one or more plain words, `cmd` runs appending to `f`, then runs again to standard output, and the shifted token array is left behind |
| Scan.RedirectFirstRun | tsh.c:130-140 | the scan of `a > f` up to the `>` runs `a` into `f` and shifts the array |
| Scan.ShiftedArgs | tsh.c:138 | the shifted array of `a > f` is the two overwritten cells, then `a`, then the sentinel |
| Scan.RedirectSecondRun | tsh.c:143-147 | in the shifted array the scan meets `a` again and runs it to standard output |
| Scan.RedirectAfterAndRunsFileName | tsh.c:110-147 | in `x && a > f` the memmove leaves the array unchanged and, after `x` and `a` into `f`, the file name `f` runs as a command to standard output |
| Scan.RedirectThenFileName | tsh.c:130-147 | the part of that scan from `a` on |
| Scan.RedirectNextCommand | tsh.c:130-147 | after `>` at `idx`, when only words follow up to the sentinel, the scan runs the command into the file, then runs cells `start+2` up to the sentinel of the moved array to standard output, and faults when that range is empty |
| Scan.TrailingWordJoinsRerun | tsh.c:130-147 | in `a > f g`, after `a` runs into `f`, the command run to standard output is `a g` |
| Scan.MultiWordAfterAnd | tsh.c:130-147 | in `x && a b > f`, after `a b` runs into `f`, the command run to standard output is `> f` |
| Scan.FailedForkDoesNotStopSequence | tsh.c:55-118 | in `a && b`, when only the first fork fails, the log records the failed fork and then `b` run, and the scan finishes |
| Scan.ScanPadded | tsh.c:103-148 | spare cells after the sentinel that end with "" change nothing in the scan; the array comes back with them unchanged |
| Scan.AndPadded | tsh.c:110-118 | the same for a step at `&&` |
| Scan.PipePadded | tsh.c:119-129 | the same for a step at `\|` |
| Scan.RedirectPadded | tsh.c:130-140 | the same for a step at `>` after a command |
| Scan.RedirectPaddedArrays | tsh.c:138 | the memmove of a padded array is the memmove of the array, padded |
| Scan.MemmovePadded | tsh.c:138 | a memmove within the first cells does not touch the cells after them |
| Scan.ParsePadded | tsh.c:89-153 | tshParseCmdArgs on a token array with spare cells after the sentinel gives the same world and outcome |
| Scan.TrailingOperatorIsWord | tsh.c:110-146 | `&&`, `\|` or `>` before the sentinel is passed to the last command as an argument |
| Scan.LessThanHangs | tsh.c:141-142 | at a `<` the scan stops advancing, with OPOST toggled and nothing run |
| Tsh.MoveCells | tsh.c:138 | the array after the move is `Memmove` of the array before |
| Tsh.Shell.ToggleOutputPostprocessing | tsh.c:18-30 | new state and status are those of `Toggle` |
| Tsh.Shell.ExecuteCmd | tsh.c:43-75 | new state and status are those of `Execute`, with the child's dup list built as `ChildWiring` |
| Tsh.Shell.RunCmd | tsh.c:105-108 | new state and success are those of `RunSegment` on the copied command |
| Tsh.Shell.AndStep | tsh.c:110-118 | the `&&` iteration: the scan result when it stops, otherwise the scan from the next token is unchanged |
| Tsh.Shell.PipeStep | tsh.c:119-129 | the same for the `\|` iteration |
| Tsh.Shell.RedirectSegment | tsh.c:130-140 | new state is `RedirectEffects` of the old, and the token array is shifted by `Memmove` |
| Tsh.Shell.RedirectStep | tsh.c:130-140 | the same for the `>` iteration, which keeps the sentinel |
| Tsh.Shell.Step | tsh.c:104-147 | one iteration of the loop: either the scan's result, or the scan from the next token equals the scan from this one |
| Tsh.Shell.ParseCmdArgs | tsh.c:89-153 | new state, token array and outcome are those of `Parse` on the old state and array |
| Tsh.Shell.RunLine | tsh.c:270-272 | tokenizing a line and parsing the resulting array gives the world and outcome of `Parse` on `Tokenize(line)` |
| Tsh.TokensAreTerminated | tsh.c:179-184 | the tokenizer's output is what the scan requires: it ends with the sentinel, and starts with it only when it is nothing else |

## Left out

- `main`, the prompt, the line reader and the read loop: these are I/O
  around the core. One round of the loop after the line is read, tokenizing
  and then parsing, is `Tsh.Shell.RunLine`; the frees are not modelled.
- What `execvp` runs, the child's exit status and the `waitpid` retry loop
  (tsh.c:65-71):
  - a successful fork is one `ChildRan` event;
  - no concurrency is modelled.
- Failures of `tcgetattr`/`tcsetattr`, `pipe` and `fopen`: they are assumed
  to succeed.
  - fopen's failure would make `fileno(NULL)` undefined.
- Allocation failure (tsh.c:240, tsh.c:251): `Grow` always succeeds.
- Tokenizer.ReadToken:
  - For `\n` the source writes two characters and checks for room only once
    (tsh.c:193-196). With one free cell left it writes past the buffer.
  - The model checks for room after each of the two characters.
- Tokenizer.TokenizeCmdLine:
  - The source writes the sentinel into `cmdArgs[cmdArgsIndex+1]` without
    checking that this cell exists (tsh.c:182).
  - The model grows the array first.
  - The cells after the sentinel are zeroed by `calloc` or left as `realloc`
    leaves them in the source; the model fills them with "". The scan never
    reads them (`Scan.ScanPadded`).
- Os.Execute:
  - The argument array the source builds has no NULL terminator, so
    `cmd[1] == NULL` and `execvp` read past it.
  - The model reads "no second word" as the command having one word.
- Os.Execute:
  - `chdir` is modelled by the set of directories it accepts.
  - The new directory is the argument as written; relative paths are not
    resolved.
- Scan.ScanFrom:
  - A command with no words, as in `&& ls` or `> f`, is the `Fault` outcome.
  - What the source does there is undefined.
- Scan.ScanFrom: the `<` token is the `Hung` outcome rather than a loop
  that never ends.
- Pipe and file descriptors are symbolic and never equal 0 or 1.
- Descriptors the source leaks are not tracked. The file of a `>` is
  closed in the child (tsh.c:61-63) and in the shell (tsh.c:137), but the
  shell never closes the read end of a pipe (tsh.c:126), so every later
  child inherits it, and the child writing into a pipe inherits that pipe's
  read end too.
- `Os.Rewire` records what descriptors 0 and 1 of the child refer to, and
  only which other descriptors the child has closed, not what they refer
  to. A `dup2` from a closed descriptor changes nothing.
- The terminal's settings are one OPOST bit.
- The tokenizer's tokens are string values rather than `char*` buffers on
  the heap, and each token is written into the token array once, when it is
  finished.
- The `calloc`/`memcpy` copy of each command is a subsequence of the token
  array. The command copies the source leaks are not tracked.
