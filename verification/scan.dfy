/**
 * The command scan of tsh.c (tshParseCmdArgs) as a pure function: a left to
 * right walk over the token array with the same four variables as the source
 * (`idx` for cmdArgIndex, `start` and `end` for cmdArgStart and cmdArgEnd,
 * `input` for nextInputFd) plus a count of the pipes opened so far, and with
 * every effect on the system going through `Os.Execute` and the log.
 */
module Scan {
  import opened Os

  /** How tshParseCmdArgs ends. */
  datatype Outcome =
    | Finished   // returned 0
    | Hung       // spins for ever on a `<` token
    | Exited     // an `exit` ended the shell process
    | Fault      // reached a command with no words: the source reads cmd[0] of an empty array

  /** The world afterwards, the token array afterwards, and how the scan ended. */
  datatype ScanResult = ScanResult(world: World, args: seq<string>, outcome: Outcome)

  /** A token array as the tokenizer hands it over: it ends with the sentinel "". */
  predicate Terminated(args: seq<string>) {
    |args| > 0 && args[|args| - 1] == ""
  }

  /** `&&`, `|` and `>` split commands, but only when the sentinel does not follow them. */
  predicate ActsAsOperator(args: seq<string>, i: nat)
    requires i + 1 < |args|
  {
    (args[i] == "&&" || args[i] == "|" || args[i] == ">") && args[i + 1] != ""
  }

  /** `memmove(s + dst, s + src, len)` on an array of strings, as tsh.c:138 calls it. */
  function Memmove(s: seq<string>, dst: nat, src: nat, len: nat): (r: seq<string>)
    requires dst + len <= |s| && src + len <= |s|
    ensures |r| == |s|
  {
    s[..dst] + s[src..src + len] + s[dst + len..]
  }

  /** Cells `dst..dst+len` receive what cells `src..src+len` held; the others keep theirs. */
  lemma MemmoveCells(s: seq<string>, dst: nat, src: nat, len: nat)
    requires dst + len <= |s| && src + len <= |s|
    ensures forall k :: 0 <= k < |s| ==>
      Memmove(s, dst, src, len)[k] == if dst <= k < dst + len then s[src + (k - dst)] else s[k]
  {
  }

  /** Moving cells that end before the last one keeps the sentinel in place. */
  lemma MemmoveKeepsSentinel(s: seq<string>, dst: nat, src: nat, len: nat)
    requires Terminated(s) && dst + len < |s| && src + len <= |s|
    ensures Terminated(Memmove(s, dst, src, len))
  {
    MemmoveCells(s, dst, src, len);
  }

  /**
   * Copies the command `args[start..end]` and runs it (tsh.c:105-108 and the
   * same lines in each branch); `false` when the
   * command has no word, where the source would read past an empty array.
   */
  function RunSegment(w: World, args: seq<string>, start: nat, end: nat, input: Fd, output: Fd): (World, bool)
    requires start <= end <= |args|
  {
    if start == end then (w, false) else (Execute(w, args[start..end], input, output).0, true)
  }

  /** The scan loop of tshParseCmdArgs (tsh.c:103-148) from the head of an iteration. */
  function ScanFrom(w: World, args: seq<string>, idx: nat, start: nat, end: nat, input: Fd, pipes: nat): ScanResult
    requires Terminated(args) && idx < |args|
    requires start <= end == idx
    decreases |args| - idx, 1
  {
    var t := args[idx];
    if t == "" || ActsAsOperator(args, idx) then AtOperator(w, args, idx, start, end, input, pipes)
    else if t == "<" then
      // `continue` without advancing: the same iteration repeats for ever
      ScanResult(w, args, Hung)
    else
      ScanFrom(w, args, idx + 1, start, end + 1, input, pipes)
  }

  /** The iterations that run the command `args[start..end]`: at the sentinel, `&&`, `|` or `>` (tsh.c:104-140). */
  function AtOperator(w: World, args: seq<string>, idx: nat, start: nat, end: nat, input: Fd, pipes: nat): ScanResult
    requires Terminated(args) && idx < |args|
    requires start <= end == idx
    requires args[idx] == "" || ActsAsOperator(args, idx)
    decreases |args| - idx, 0
  {
    var t := args[idx];
    if t == "" then
      var (w1, ok) := RunSegment(w, args, start, end, input, Stdout);
      ScanResult(w1, args, if !ok then Fault else if w1.exited then Exited else Finished)
    else if t == "&&" then
      var (w1, ok) := RunSegment(w, args, start, end, input, Stdout);
      if !ok then ScanResult(w1, args, Fault)
      else if w1.exited then ScanResult(w1, args, Exited)
      else ScanFrom(w1, args, idx + 1, end + 1, end + 1, Stdin, pipes)
    else if t == "|" then
      var w0 := w.(log := w.log + [PipeOpened(pipes)]);
      var (w1, ok) := RunSegment(w0, args, start, end, input, PipeWrite(pipes));
      if !ok then ScanResult(w1, args, Fault)
      else
        var w2 := w1.(log := w1.log + [WriteEndClosed(pipes)]);
        ScanFrom(w2, args, idx + 1, end + 1, end + 1, PipeRead(pipes), pipes + 1)
    else
      // t == ">": the file named by the next token gets the output
      var fn := args[end + 1];
      if start == end then ScanResult(w.(log := w.log + [FileOpened(fn)]), args, Fault)
      else
        var w1 := RedirectEffects(w, args[start..end], fn, input);
        var args' := Memmove(args, 2, start, end - start);
        ScanFrom(w1, args', idx + 1, start + 2, end + 1, input, pipes)
  }

  /** tshParseCmdArgs (tsh.c:89-153): nothing for an empty line, otherwise the scan between two output toggles. */
  function Parse(w: World, args: seq<string>): ScanResult
    requires Terminated(args)
  {
    if args[0] == "" then ScanResult(w, args, Finished)
    else
      var r := ScanFrom(Toggle(w).0, args, 0, 0, 0, Stdin, 0);
      if r.outcome == Finished then r.(world := Toggle(r.world).0) else r
  }

  // ---------------------------------------------------------------------
  // One iteration of the scan at a time.

  /** At the sentinel: the last command runs to standard output and the scan ends. */
  lemma ScanEndStep(w: World, args: seq<string>, idx: nat, start: nat, input: Fd, pipes: nat)
    requires Terminated(args) && idx < |args| && start <= idx && args[idx] == ""
    ensures ScanFrom(w, args, idx, start, idx, input, pipes) ==
      var (w1, ok) := RunSegment(w, args, start, idx, input, Stdout);
      ScanResult(w1, args, if !ok then Fault else if w1.exited then Exited else Finished)
  {
    assert ScanFrom(w, args, idx, start, idx, input, pipes) == AtOperator(w, args, idx, start, idx, input, pipes);
  }

  /** At `&&`: the command runs to standard output, then the scan goes on with standard input. */
  lemma ScanAndStep(w: World, args: seq<string>, idx: nat, start: nat, input: Fd, pipes: nat)
    requires Terminated(args) && idx + 1 < |args| && start <= idx
    requires ActsAsOperator(args, idx) && args[idx] == "&&"
    ensures ScanFrom(w, args, idx, start, idx, input, pipes) ==
      var (w1, ok) := RunSegment(w, args, start, idx, input, Stdout);
      if !ok then ScanResult(w1, args, Fault)
      else if w1.exited then ScanResult(w1, args, Exited)
      else ScanFrom(w1, args, idx + 1, idx + 1, idx + 1, Stdin, pipes)
  {
    assert ScanFrom(w, args, idx, start, idx, input, pipes) == AtOperator(w, args, idx, start, idx, input, pipes);
  }

  /** At `|`: a pipe is opened, the command writes into it, the scan goes on reading from it. */
  lemma ScanPipeStep(w: World, args: seq<string>, idx: nat, start: nat, input: Fd, pipes: nat)
    requires Terminated(args) && idx + 1 < |args| && start <= idx
    requires ActsAsOperator(args, idx) && args[idx] == "|"
    ensures ScanFrom(w, args, idx, start, idx, input, pipes) ==
      var w0 := w.(log := w.log + [PipeOpened(pipes)]);
      var (w1, ok) := RunSegment(w0, args, start, idx, input, PipeWrite(pipes));
      if !ok then ScanResult(w1, args, Fault)
      else ScanFrom(w1.(log := w1.log + [WriteEndClosed(pipes)]), args, idx + 1, idx + 1, idx + 1, PipeRead(pipes), pipes + 1)
  {
    assert ScanFrom(w, args, idx, start, idx, input, pipes) == AtOperator(w, args, idx, start, idx, input, pipes);
  }

  /** At `>` with no command before it: the file is opened and the scan faults. */
  lemma ScanRedirectFault(w: World, args: seq<string>, idx: nat, input: Fd, pipes: nat)
    requires Terminated(args) && idx + 1 < |args|
    requires ActsAsOperator(args, idx) && args[idx] == ">"
    ensures ScanFrom(w, args, idx, idx, idx, input, pipes) == ScanResult(w.(log := w.log + [FileOpened(args[idx + 1])]), args, Fault)
  {
    assert ScanFrom(w, args, idx, idx, idx, input, pipes) == AtOperator(w, args, idx, idx, idx, input, pipes);
  }

  /** At `>` after a command: its effects, then the scan of the shifted array. */
  lemma ScanRedirectStep(w: World, args: seq<string>, idx: nat, start: nat, input: Fd, pipes: nat)
    requires Terminated(args) && start < idx && idx + 1 < |args|
    requires ActsAsOperator(args, idx) && args[idx] == ">"
    ensures Terminated(Memmove(args, 2, start, idx - start))
    ensures ScanFrom(w, args, idx, start, idx, input, pipes)
      == ScanFrom(RedirectEffects(w, args[start..idx], args[idx + 1], input), Memmove(args, 2, start, idx - start),
                  idx + 1, start + 2, idx + 1, input, pipes)
  {
    MemmoveKeepsSentinel(args, 2, start, idx - start);
    assert ScanFrom(w, args, idx, start, idx, input, pipes) == AtOperator(w, args, idx, start, idx, input, pipes);
  }

  /** At `<` the scan stops where it is. */
  lemma ScanLessStep(w: World, args: seq<string>, idx: nat, start: nat, input: Fd, pipes: nat)
    requires Terminated(args) && idx < |args| && start <= idx && args[idx] == "<"
    ensures ScanFrom(w, args, idx, start, idx, input, pipes) == ScanResult(w, args, Hung)
  {
  }

  /** A token that neither ends the line, nor splits commands, nor is `<` only widens the command. */
  lemma ScanWordStep(w: World, args: seq<string>, idx: nat, start: nat, input: Fd, pipes: nat)
    requires Terminated(args) && idx < |args| && start <= idx
    requires args[idx] != "" && args[idx] != "<" && !ActsAsOperator(args, idx)
    ensures ScanFrom(w, args, idx, start, idx, input, pipes) == ScanFrom(w, args, idx + 1, start, idx + 1, input, pipes)
  {
  }

  // ---------------------------------------------------------------------
  // Properties of the scan.

  /** A token that is neither the sentinel nor an operator. */
  predicate PlainWord(t: string) {
    t != "" && t != "&&" && t != "|" && t != ">" && t != "<"
  }

  predicate PlainWords(ws: seq<string>) {
    |ws| > 0 && forall i :: 0 <= i < |ws| ==> PlainWord(ws[i])
  }

  /** Ordinary words only move the end of the current command. */
  lemma {:induction false} ScanOverWords(w: World, args: seq<string>, idx: nat, start: nat, k: nat, input: Fd, pipes: nat)
    requires Terminated(args) && idx + k < |args| && start <= idx
    requires forall i :: idx <= i < idx + k ==> PlainWord(args[i])
    ensures ScanFrom(w, args, idx, start, idx, input, pipes) == ScanFrom(w, args, idx + k, start, idx + k, input, pipes)
    decreases k
  {
    if k > 0 {
      assert PlainWord(args[idx]);
      ScanOverWords(w, args, idx + 1, start, k - 1, input, pipes);
    }
  }

  /**
   * `w'` follows `w` without touching the terminal: same system decisions,
   * same OPOST, and a log that only grew, by effects other than a toggle.
   */
  predicate Extends(w: World, w': World) {
    && SameSystem(w, w') && w'.opost == w.opost
    && |w'.log| >= |w.log| && w'.log[..|w.log|] == w.log
    && OutputToggled !in w'.log[|w.log|..]
  }

  lemma ExtendsTrans(w: World, w1: World, w2: World)
    requires Extends(w, w1) && Extends(w1, w2)
    ensures Extends(w, w2)
  {
    assert w2.log[|w.log|..] == w1.log[|w.log|..] + w2.log[|w1.log|..];
  }

  lemma ExecuteExtends(w: World, argv: seq<string>, input: Fd, output: Fd)
    requires |argv| > 0
    ensures Extends(w, Execute(w, argv, input, output).0)
  {
    ExecuteDispatch(w, argv, input, output);
    var w1 := Execute(w, argv, input, output).0;
    assert w1.log[|w.log|..] == [] || w1.log[|w.log|..] == [w1.log[|w1.log| - 1]]
        || w1.log[|w.log|..] == [w1.log[|w.log|], w1.log[|w1.log| - 1]];
  }

  /** Appending one effect that is not a toggle. */
  lemma AppendExtends(w: World, e: Event)
    requires e != OutputToggled
    ensures Extends(w, w.(log := w.log + [e]))
  {
    assert (w.log + [e])[|w.log|..] == [e];
  }

  /**
   * The scan never touches the terminal and never changes what the system
   * decides; it only appends to the log; it ends with `Exited` exactly when
   * the shell has exited.
   */
  lemma {:induction false} ScanKeepsTerminal(w: World, args: seq<string>, idx: nat, start: nat, end: nat, input: Fd, pipes: nat)
    requires Terminated(args) && idx < |args| && start <= end == idx
    requires !w.exited
    ensures var r := ScanFrom(w, args, idx, start, end, input, pipes);
      Extends(w, r.world) && (r.outcome == Exited <==> r.world.exited)
    decreases |args| - idx, 1
  {
    var t := args[idx];
    if t == "" || (ActsAsOperator(args, idx) && t == "&&") {
      ScanAndKeepsTerminal(w, args, idx, start, end, input, pipes);
    } else if ActsAsOperator(args, idx) && t == "|" {
      ScanPipeKeepsTerminal(w, args, idx, start, end, input, pipes);
    } else if ActsAsOperator(args, idx) {
      assert t == ">";
      ScanRedirectKeepsTerminal(w, args, idx, start, end, input, pipes);
    } else if t == "<" {
      assert Extends(w, w) by { assert w.log[|w.log|..] == []; }
    } else {
      ScanKeepsTerminal(w, args, idx + 1, start, end + 1, input, pipes);
    }
  }

  lemma {:induction false} ScanAndKeepsTerminal(w: World, args: seq<string>, idx: nat, start: nat, end: nat, input: Fd, pipes: nat)
    requires Terminated(args) && idx < |args| && start <= end == idx && !w.exited
    requires args[idx] == "" || (ActsAsOperator(args, idx) && args[idx] == "&&")
    ensures var r := ScanFrom(w, args, idx, start, end, input, pipes);
      Extends(w, r.world) && (r.outcome == Exited <==> r.world.exited)
    decreases |args| - idx, 0
  {
    if args[idx] == "" {
      ScanEndStep(w, args, idx, start, input, pipes);
    } else {
      ScanAndStep(w, args, idx, start, input, pipes);
    }
    if start == end {
      assert Extends(w, w) by { assert w.log[|w.log|..] == []; }
    } else {
      var w1 := Execute(w, args[start..end], input, Stdout).0;
      ExecuteExtends(w, args[start..end], input, Stdout);
      if args[idx] != "" && !w1.exited {
        ScanKeepsTerminal(w1, args, idx + 1, end + 1, end + 1, Stdin, pipes);
        ExtendsTrans(w, w1, ScanFrom(w1, args, idx + 1, end + 1, end + 1, Stdin, pipes).world);
      }
    }
  }

  lemma {:induction false} ScanPipeKeepsTerminal(w: World, args: seq<string>, idx: nat, start: nat, end: nat, input: Fd, pipes: nat)
    requires Terminated(args) && idx < |args| && start <= end == idx && !w.exited
    requires args[idx] != "" && ActsAsOperator(args, idx) && args[idx] == "|"
    ensures var r := ScanFrom(w, args, idx, start, end, input, pipes);
      Extends(w, r.world) && (r.outcome == Exited <==> r.world.exited)
    decreases |args| - idx, 0
  {
    ScanPipeStep(w, args, idx, start, input, pipes);
    var w0 := w.(log := w.log + [PipeOpened(pipes)]);
    AppendExtends(w, PipeOpened(pipes));
    if start < end {
      RedirectedBuiltinsSpawn(w0, args[start..end], input, PipeWrite(pipes));
      ExecuteExtends(w0, args[start..end], input, PipeWrite(pipes));
      var w1 := Execute(w0, args[start..end], input, PipeWrite(pipes)).0;
      var w2 := w1.(log := w1.log + [WriteEndClosed(pipes)]);
      AppendExtends(w1, WriteEndClosed(pipes));
      ScanKeepsTerminal(w2, args, idx + 1, end + 1, end + 1, PipeRead(pipes), pipes + 1);
      var r := ScanFrom(w2, args, idx + 1, end + 1, end + 1, PipeRead(pipes), pipes + 1);
      ExtendsTrans(w, w0, w1);
      ExtendsTrans(w, w1, w2);
      ExtendsTrans(w, w2, r.world);
    }
  }

  lemma {:induction false} ScanRedirectKeepsTerminal(w: World, args: seq<string>, idx: nat, start: nat, end: nat, input: Fd, pipes: nat)
    requires Terminated(args) && idx + 1 < |args| && start <= end == idx && !w.exited
    requires ActsAsOperator(args, idx) && args[idx] == ">"
    ensures var r := ScanFrom(w, args, idx, start, end, input, pipes);
      Extends(w, r.world) && (r.outcome == Exited <==> r.world.exited)
    decreases |args| - idx, 0
  {
    if start == end {
      ScanRedirectFault(w, args, idx, input, pipes);
      AppendExtends(w, FileOpened(args[idx + 1]));
    } else {
      ScanRedirectStep(w, args, idx, start, input, pipes);
      var w2 := RedirectEffects(w, args[start..idx], args[idx + 1], input);
      RedirectExtends(w, args[start..idx], args[idx + 1], input);
      var args' := Memmove(args, 2, start, idx - start);
      ScanKeepsTerminal(w2, args', idx + 1, start + 2, idx + 1, input, pipes);
      ExtendsTrans(w, w2, ScanFrom(w2, args', idx + 1, start + 2, idx + 1, input, pipes).world);
    }
  }

  /** The effects of one `cmd > fn` (tsh.c:134-137): open the file, run the command into it, close the file. */
  function RedirectEffects(w: World, argv: seq<string>, fn: string, input: Fd): World
    requires |argv| > 0
  {
    var w0 := w.(log := w.log + [FileOpened(fn)]);
    var w1 := Execute(w0, argv, input, FileFd(fn)).0;
    w1.(log := w1.log + [FileClosed(fn)])
  }

  /** A redirection only extends the log (the command spawns, whatever it is) and never ends the shell. */
  lemma RedirectExtends(w: World, argv: seq<string>, fn: string, input: Fd)
    requires |argv| > 0
    ensures var w' := RedirectEffects(w, argv, fn, input); Extends(w, w') && w'.exited == w.exited
  {
    var w0 := w.(log := w.log + [FileOpened(fn)]);
    AppendExtends(w, FileOpened(fn));
    RedirectedBuiltinsSpawn(w0, argv, input, FileFd(fn));
    ExecuteExtends(w0, argv, input, FileFd(fn));
    var w1 := Execute(w0, argv, input, FileFd(fn)).0;
    AppendExtends(w1, FileClosed(fn));
    ExtendsTrans(w, w0, w1);
    ExtendsTrans(w, w1, w1.(log := w1.log + [FileClosed(fn)]));
  }

  /** An empty line (its first token is the sentinel) changes nothing and returns 0. */
  lemma EmptyLineIsNoOp(w: World, args: seq<string>)
    requires Terminated(args) && args[0] == ""
    ensures Parse(w, args) == ScanResult(w, args, Finished)
  {
  }

  /**
   * Output processing is toggled once before the scan and once after it:
   * a scan that returns leaves OPOST as it found it and, on a terminal, the
   * log shows exactly the two toggles around the commands' effects. A scan
   * that ends the shell, hangs or faults leaves OPOST toggled.
   */
  lemma ParseRestoresTerminal(w: World, args: seq<string>)
    requires Terminated(args) && args[0] != "" && !w.exited
    ensures var r := Parse(w, args);
      && SameSystem(w, r.world)
      && (r.outcome == Finished ==> r.world.opost == w.opost)
      && (r.outcome != Finished ==> r.world.opost == (w.opost != w.isTty))
      && (r.outcome == Exited <==> r.world.exited)
      && (w.isTty && r.outcome == Finished ==>
            exists mid :: OutputToggled !in mid && r.world.log == w.log + [OutputToggled] + mid + [OutputToggled])
  {
    var w1 := Toggle(w).0;
    ScanKeepsTerminal(w1, args, 0, 0, 0, Stdin, 0);
    var r := ScanFrom(w1, args, 0, 0, 0, Stdin, 0);
    if w.isTty && r.outcome == Finished {
      var mid := r.world.log[|w1.log|..];
      assert r.world.log == w1.log + mid;
      assert Toggle(r.world).0.log == w.log + [OutputToggled] + mid + [OutputToggled];
    }
  }

  /** The run of `cmd1 && cmd2`: Os.Execute of both, the second whatever the first returned. */
  function AndThen(w: World, a: seq<string>, b: seq<string>): ScanResult
    requires |a| > 0 && |b| > 0
  {
    var w1 := Toggle(w).0;
    var w2 := Execute(w1, a, Stdin, Stdout).0;
    var args := a + ["&&"] + b + [""];
    if w2.exited then ScanResult(w2, args, Exited)
    else
      var w3 := Execute(w2, b, Stdin, Stdout).0;
      if w3.exited then ScanResult(w3, args, Exited) else ScanResult(Toggle(w3).0, args, Finished)
  }

  /**
   * `&&` does not short-circuit: the second command runs with standard input
   * and output whatever status the first returned.
   */
  lemma SequenceRunsBoth(w: World, a: seq<string>, b: seq<string>)
    requires PlainWords(a) && PlainWords(b) && !w.exited
    ensures Parse(w, a + ["&&"] + b + [""]) == AndThen(w, a, b)
  {
    var args := a + ["&&"] + b + [""];
    var n, m := |a|, |b|;
    var w1 := Toggle(w).0;
    var w2 := Execute(w1, a, Stdin, Stdout).0;
    assert Terminated(args) && args[0] == a[0];
    assert ScanFrom(w1, args, 0, 0, 0, Stdin, 0) ==
      if w2.exited then ScanResult(w2, args, Exited) else ScanFrom(w2, args, n + 1, n + 1, n + 1, Stdin, 0)
    by {
      assert args[0..n] == a && args[n] == "&&" && args[n + 1] == b[0];
      ScanOverWords(w1, args, 0, 0, n, Stdin, 0);
      ScanAndStep(w1, args, n, 0, Stdin, 0);
    }
    if !w2.exited {
      var w3 := Execute(w2, b, Stdin, Stdout).0;
      assert ScanFrom(w2, args, n + 1, n + 1, n + 1, Stdin, 0)
          == ScanResult(w3, args, if w3.exited then Exited else Finished) by {
        assert args[n + 1..n + 1 + m] == b && args[n + 1 + m] == "";
        ScanOverWords(w2, args, n + 1, n + 1, m, Stdin, 0);
        ScanEndStep(w2, args, n + 1 + m, n + 1, Stdin, 0);
      }
    }
  }

  /** The run of `cmd1 | cmd2`. */
  function Piped(w: World, a: seq<string>, b: seq<string>): ScanResult
    requires |a| > 0 && |b| > 0
  {
    var w0 := Toggle(w).0;
    var w1 := w0.(log := w0.log + [PipeOpened(0)]);
    var w2 := Execute(w1, a, Stdin, PipeWrite(0)).0;
    var w3 := w2.(log := w2.log + [WriteEndClosed(0)]);
    var w4 := Execute(w3, b, PipeRead(0), Stdout).0;
    var args := a + ["|"] + b + [""];
    if w4.exited then ScanResult(w4, args, Exited) else ScanResult(Toggle(w4).0, args, Finished)
  }

  /**
   * `|` opens a pipe, runs the first command writing into it, closes the
   * write end in the shell and runs the second command reading from it.
   */
  lemma PipeWiring(w: World, a: seq<string>, b: seq<string>)
    requires PlainWords(a) && PlainWords(b) && !w.exited
    ensures Parse(w, a + ["|"] + b + [""]) == Piped(w, a, b)
  {
    var args := a + ["|"] + b + [""];
    var n, m := |a|, |b|;
    var w0 := Toggle(w).0;
    var w1 := w0.(log := w0.log + [PipeOpened(0)]);
    var w2 := Execute(w1, a, Stdin, PipeWrite(0)).0;
    var w3 := w2.(log := w2.log + [WriteEndClosed(0)]);
    assert Terminated(args) && args[0] == a[0];
    assert ScanFrom(w0, args, 0, 0, 0, Stdin, 0) == ScanFrom(w3, args, n + 1, n + 1, n + 1, PipeRead(0), 1) by {
      assert args[0..n] == a && args[n] == "|" && args[n + 1] == b[0];
      ScanOverWords(w0, args, 0, 0, n, Stdin, 0);
      ScanPipeStep(w0, args, n, 0, Stdin, 0);
    }
    var w4 := Execute(w3, b, PipeRead(0), Stdout).0;
    assert ScanFrom(w3, args, n + 1, n + 1, n + 1, PipeRead(0), 1)
        == ScanResult(w4, args, if w4.exited then Exited else Finished) by {
      assert args[n + 1..n + 1 + m] == b && args[n + 1 + m] == "";
      ScanOverWords(w3, args, n + 1, n + 1, m, PipeRead(0), 1);
      ScanEndStep(w3, args, n + 1 + m, n + 1, PipeRead(0), 1);
    }
  }

  /** The run of `cmd > file`: once into the file, then once more to standard output. */
  function RedirectedTwice(w: World, a: seq<string>, f: string): ScanResult
    requires |a| > 0
  {
    var w0 := Toggle(w).0;
    var w1 := w0.(log := w0.log + [FileOpened(f)]);
    var w2 := Execute(w1, a, Stdin, FileFd(f)).0;
    var w3 := w2.(log := w2.log + [FileClosed(f)]);
    var w4 := Execute(w3, a, Stdin, Stdout).0;
    var args := [(a + [">"])[0], (a + [">"])[1]] + a + [""];
    if w4.exited then ScanResult(w4, args, Exited) else ScanResult(Toggle(w4).0, args, Finished)
  }

  /**
   * `cmd > file` runs the command with its output appended to the file, then
   * the memmove puts the command's words back at index 2 and the scan
   * collects and runs the very same command again, to standard output.
   */
  lemma RedirectRunsTwice(w: World, a: seq<string>, f: string)
    requires PlainWords(a) && f != "" && !w.exited
    ensures Parse(w, a + [">", f, ""]) == RedirectedTwice(w, a, f)
  {
    var args := a + [">", f, ""];
    var n := |a|;
    var w0 := Toggle(w).0;
    var head := [(a + [">"])[0], (a + [">"])[1]];
    assert Terminated(args) && args[0] == a[0];
    RedirectFirstRun(w0, a, f);
    ShiftedArgs(a, f);
    RedirectSecondRun(RedirectEffects(w0, a, f, Stdin), head, a);
  }

  /** `a > f`: the scan up to the `>` runs `a` into `f` and shifts the array. */
  lemma RedirectFirstRun(w: World, a: seq<string>, f: string)
    requires PlainWords(a) && f != ""
    ensures Terminated(Memmove(a + [">", f, ""], 2, 0, |a|))
    ensures ScanFrom(w, a + [">", f, ""], 0, 0, 0, Stdin, 0)
      == ScanFrom(RedirectEffects(w, a, f, Stdin), Memmove(a + [">", f, ""], 2, 0, |a|), |a| + 1, 2, |a| + 1, Stdin, 0)
  {
    var args := a + [">", f, ""];
    var n := |a|;
    assert args[0..n] == a && args[n] == ">" && args[n + 1] == f && args[n + 2] == "";
    ScanOverWords(w, args, 0, 0, n, Stdin, 0);
    ScanRedirectStep(w, args, n, 0, Stdin, 0);
  }

  /** The memmove of `a > f` puts `a` at index 2, after the two cells it overwrote from index 0. */
  lemma ShiftedArgs(a: seq<string>, f: string)
    requires |a| > 0
    ensures Memmove(a + [">", f, ""], 2, 0, |a|) == [(a + [">"])[0], (a + [">"])[1]] + a + [""]
  {
    var args := a + [">", f, ""];
    MemmoveCells(args, 2, 0, |a|);
    assert Memmove(args, 2, 0, |a|)[..2] == args[..2] == [(a + [">"])[0], (a + [">"])[1]];
  }

  /** After the shift, the scan finds `a` again and runs it to standard output. */
  lemma RedirectSecondRun(w: World, head: seq<string>, a: seq<string>)
    requires PlainWords(a) && |head| == 2
    ensures var args := head + a + [""];
      var w1 := Execute(w, a, Stdin, Stdout).0;
      ScanFrom(w, args, |a| + 1, 2, |a| + 1, Stdin, 0) == ScanResult(w1, args, if w1.exited then Exited else Finished)
  {
    var args := head + a + [""];
    var n := |a|;
    assert args[2..n + 2] == a && args[n + 1] == a[n - 1] && args[n + 2] == "";
    ScanOverWords(w, args, n + 1, 2, 1, Stdin, 0);
    ScanEndStep(w, args, n + 2, 2, Stdin, 0);
  }

  // ---------------------------------------------------------------------
  // Cells after the sentinel.

  /** A scan result whose token array carries `pad` after it. */
  function WithPad(r: ScanResult, pad: seq<string>): ScanResult {
    ScanResult(r.world, r.args + pad, r.outcome)
  }

  /** The scan never reads past the sentinel it stops at: spare cells after it that end with "" change nothing. */
  lemma {:induction false} ScanPadded(w: World, args: seq<string>, pad: seq<string>, idx: nat, start: nat, input: Fd, pipes: nat)
    requires Terminated(args) && idx < |args| && start <= idx && Terminated(args + pad)
    ensures ScanFrom(w, args + pad, idx, start, idx, input, pipes) == WithPad(ScanFrom(w, args, idx, start, idx, input, pipes), pad)
    decreases |args| - idx, 1
  {
    var padded := args + pad;
    assert padded[idx] == args[idx] && padded[|padded| - 1] == "";
    assert padded[start..idx] == args[start..idx];
    if args[idx] == "" {
      ScanEndStep(w, args, idx, start, input, pipes);
      ScanEndStep(w, padded, idx, start, input, pipes);
      assert RunSegment(w, padded, start, idx, input, Stdout) == RunSegment(w, args, start, idx, input, Stdout);
    } else {
      assert padded[idx + 1] == args[idx + 1];
      if ActsAsOperator(args, idx) && args[idx] == "&&" {
        AndPadded(w, args, pad, idx, start, input, pipes);
      } else if ActsAsOperator(args, idx) && args[idx] == "|" {
        PipePadded(w, args, pad, idx, start, input, pipes);
      } else if ActsAsOperator(args, idx) && start == idx {
        ScanRedirectFault(w, args, idx, input, pipes);
        ScanRedirectFault(w, padded, idx, input, pipes);
      } else if ActsAsOperator(args, idx) {
        RedirectPadded(w, args, pad, idx, start, input, pipes);
      } else if args[idx] == "<" {
        ScanLessStep(w, args, idx, start, input, pipes);
        ScanLessStep(w, padded, idx, start, input, pipes);
      } else {
        ScanWordStep(w, args, idx, start, input, pipes);
        ScanWordStep(w, padded, idx, start, input, pipes);
        ScanPadded(w, args, pad, idx + 1, start, input, pipes);
      }
    }
  }

  lemma {:induction false} AndPadded(w: World, args: seq<string>, pad: seq<string>, idx: nat, start: nat, input: Fd, pipes: nat)
    requires Terminated(args) && idx + 1 < |args| && start <= idx && Terminated(args + pad)
    requires ActsAsOperator(args, idx) && args[idx] == "&&"
    requires (args + pad)[idx] == "&&" && (args + pad)[idx + 1] == args[idx + 1]
    ensures ScanFrom(w, args + pad, idx, start, idx, input, pipes) == WithPad(ScanFrom(w, args, idx, start, idx, input, pipes), pad)
    decreases |args| - idx, 0
  {
    assert (args + pad)[start..idx] == args[start..idx];
    ScanAndStep(w, args, idx, start, input, pipes);
    ScanAndStep(w, args + pad, idx, start, input, pipes);
    var (w1, ok) := RunSegment(w, args, start, idx, input, Stdout);
    assert RunSegment(w, args + pad, start, idx, input, Stdout) == (w1, ok);
    if ok && !w1.exited {
      ScanPadded(w1, args, pad, idx + 1, idx + 1, Stdin, pipes);
    }
  }

  lemma {:induction false} PipePadded(w: World, args: seq<string>, pad: seq<string>, idx: nat, start: nat, input: Fd, pipes: nat)
    requires Terminated(args) && idx + 1 < |args| && start <= idx && Terminated(args + pad)
    requires ActsAsOperator(args, idx) && args[idx] == "|"
    requires (args + pad)[idx] == "|" && (args + pad)[idx + 1] == args[idx + 1]
    ensures ScanFrom(w, args + pad, idx, start, idx, input, pipes) == WithPad(ScanFrom(w, args, idx, start, idx, input, pipes), pad)
    decreases |args| - idx, 0
  {
    assert (args + pad)[start..idx] == args[start..idx];
    ScanPipeStep(w, args, idx, start, input, pipes);
    ScanPipeStep(w, args + pad, idx, start, input, pipes);
    var w0 := w.(log := w.log + [PipeOpened(pipes)]);
    var (w1, ok) := RunSegment(w0, args, start, idx, input, PipeWrite(pipes));
    assert RunSegment(w0, args + pad, start, idx, input, PipeWrite(pipes)) == (w1, ok);
    if ok {
      ScanPadded(w1.(log := w1.log + [WriteEndClosed(pipes)]), args, pad, idx + 1, idx + 1, PipeRead(pipes), pipes + 1);
    }
  }

  lemma {:induction false} RedirectPadded(w: World, args: seq<string>, pad: seq<string>, idx: nat, start: nat, input: Fd, pipes: nat)
    requires Terminated(args) && idx + 1 < |args| && start < idx && Terminated(args + pad)
    requires ActsAsOperator(args, idx) && args[idx] == ">"
    requires (args + pad)[idx] == ">" && (args + pad)[idx + 1] == args[idx + 1]
    ensures ScanFrom(w, args + pad, idx, start, idx, input, pipes) == WithPad(ScanFrom(w, args, idx, start, idx, input, pipes), pad)
    decreases |args| - idx, 0
  {
    RedirectPaddedArrays(args, pad, idx, start);
    ScanRedirectStep(w, args, idx, start, input, pipes);
    ScanRedirectStep(w, args + pad, idx, start, input, pipes);
    ScanPadded(RedirectEffects(w, args[start..idx], args[idx + 1], input), Memmove(args, 2, start, idx - start), pad,
               idx + 1, start + 2, input, pipes);
  }

  /** Before the `>`, the padded array holds the same command, and its memmove is the padded memmove. */
  lemma RedirectPaddedArrays(args: seq<string>, pad: seq<string>, idx: nat, start: nat)
    requires Terminated(args) && Terminated(args + pad) && idx + 1 < |args| && start < idx && ActsAsOperator(args, idx)
    ensures Terminated(Memmove(args, 2, start, idx - start)) && Terminated(Memmove(args, 2, start, idx - start) + pad)
    ensures (args + pad)[start..idx] == args[start..idx] && (args + pad)[idx + 1] == args[idx + 1]
    ensures ActsAsOperator(args + pad, idx)
    ensures Memmove(args + pad, 2, start, idx - start) == Memmove(args, 2, start, idx - start) + pad
  {
    MemmoveKeepsSentinel(args, 2, start, idx - start);
    MemmoveKeepsSentinel(args + pad, 2, start, idx - start);
    MemmovePadded(args, pad, 2, start, idx - start);
    assert (args + pad)[idx] == args[idx] && (args + pad)[idx + 1] == args[idx + 1];
  }

  lemma MemmovePadded(s: seq<string>, pad: seq<string>, dst: nat, src: nat, len: nat)
    requires dst + len <= |s| && src + len <= |s|
    ensures Memmove(s + pad, dst, src, len) == Memmove(s, dst, src, len) + pad
  {
    var t := s + pad;
    assert t[..dst] == s[..dst] && t[src..src + len] == s[src..src + len];
    assert t[dst + len..] == s[dst + len..] + pad;
  }

  /** tshParseCmdArgs on a token array with spare cells after the sentinel does the same. */
  lemma ParsePadded(w: World, args: seq<string>, pad: seq<string>)
    requires Terminated(args) && Terminated(args + pad)
    ensures Parse(w, args + pad) == WithPad(Parse(w, args), pad)
  {
    assert (args + pad)[0] == args[0];
    ScanPadded(Toggle(w).0, args, pad, 0, 0, Stdin, 0);
  }

  /** The run of `x && a > f`. */
  function AndThenRedirect(w: World, x: string, a: string, f: string): ScanResult {
    var args := [x, "&&", a, ">", f, ""];
    var w1 := Execute(Toggle(w).0, [x], Stdin, Stdout).0;
    if w1.exited then ScanResult(w1, args, Exited)
    else
      var w2 := RedirectEffects(w1, [a], f, Stdin);
      var w3 := Execute(w2, [f], Stdin, Stdout).0;
      if w3.exited then ScanResult(w3, args, Exited) else ScanResult(Toggle(w3).0, args, Finished)
  }

  /**
   * A redirection that does not start the line does not rerun its command:
   * the memmove moves `a` onto itself, the scan resumes two cells further on,
   * and the file name `f` is run as a command of its own.
   */
  lemma RedirectAfterAndRunsFileName(w: World, x: string, a: string, f: string)
    requires PlainWord(x) && PlainWord(a) && PlainWord(f) && !w.exited
    ensures Parse(w, [x, "&&", a, ">", f, ""]) == AndThenRedirect(w, x, a, f)
  {
    var args := [x, "&&", a, ">", f, ""];
    var w0 := Toggle(w).0;
    var w1 := Execute(w0, [x], Stdin, Stdout).0;
    assert Terminated(args) && args[0] == x && args[0..1] == [x];
    assert ScanFrom(w0, args, 0, 0, 0, Stdin, 0) ==
      if w1.exited then ScanResult(w1, args, Exited) else ScanFrom(w1, args, 2, 2, 2, Stdin, 0)
    by {
      ScanOverWords(w0, args, 0, 0, 1, Stdin, 0);
      ScanAndStep(w0, args, 1, 0, Stdin, 0);
    }
    if !w1.exited {
      RedirectThenFileName(w1, x, a, f);
    }
  }

  /** The second command of `x && a > f`: `a` into `f`, then `f` on its own. */
  lemma RedirectThenFileName(w: World, x: string, a: string, f: string)
    requires PlainWord(x) && PlainWord(a) && PlainWord(f)
    ensures Terminated([x, "&&", a, ">", f, ""])
    ensures var w2 := RedirectEffects(w, [a], f, Stdin);
      var w3 := Execute(w2, [f], Stdin, Stdout).0;
      ScanFrom(w, [x, "&&", a, ">", f, ""], 2, 2, 2, Stdin, 0) == ScanResult(w3, [x, "&&", a, ">", f, ""], if w3.exited then Exited else Finished)
  {
    var args := [x, "&&", a, ">", f, ""];
    var w2 := RedirectEffects(w, [a], f, Stdin);
    assert ScanFrom(w, args, 2, 2, 2, Stdin, 0) == ScanFrom(w2, args, 4, 4, 4, Stdin, 0) by {
      assert args[2..3] == [a];
      ScanOverWords(w, args, 2, 2, 1, Stdin, 0);
      ScanRedirectStep(w, args, 3, 2, Stdin, 0);
      assert Memmove(args, 2, 2, 1) == args;
    }
    assert args[4..5] == [f];
    ScanOverWords(w2, args, 4, 4, 1, Stdin, 0);
    ScanEndStep(w2, args, 5, 4, Stdin, 0);
  }

  /**
   * The general rule after `cmd > file` at `idx`: the scan goes on over the
   * moved array `m`, and the next command starts at `start + 2` of `m`, two
   * cells after the redirected command's old start. It runs through the
   * words from `idx + 1` on, so it holds whatever the memmove left in
   * `m[start + 2..idx + 1]` followed by the file name and the words after it.
   */
  lemma RedirectNextCommand(w: World, args: seq<string>, idx: nat, start: nat, k: nat, input: Fd, pipes: nat)
    requires Terminated(args) && start < idx && idx + 1 + k < |args|
    requires ActsAsOperator(args, idx) && args[idx] == ">"
    requires var m := Memmove(args, 2, start, idx - start);
      (forall i :: idx + 1 <= i < idx + 1 + k ==> PlainWord(m[i])) && m[idx + 1 + k] == ""
    ensures var m := Memmove(args, 2, start, idx - start);
      var w1 := RedirectEffects(w, args[start..idx], args[idx + 1], input);
      var (w2, ok) := RunSegment(w1, m, start + 2, idx + 1 + k, input, Stdout);
      ScanFrom(w, args, idx, start, idx, input, pipes) == ScanResult(w2, m, if !ok then Fault else if w2.exited then Exited else Finished)
  {
    var m := Memmove(args, 2, start, idx - start);
    var w1 := RedirectEffects(w, args[start..idx], args[idx + 1], input);
    ScanRedirectStep(w, args, idx, start, input, pipes);
    ScanOverWords(w1, m, idx + 1, start + 2, k, input, pipes);
    ScanEndStep(w1, m, idx + 1 + k, start + 2, input, pipes);
  }

  /** `a > f g`: the command run after the redirection is `a g`, the moved `a` and the word after the file name. */
  lemma TrailingWordJoinsRerun(w: World, a: string, f: string, g: string)
    requires PlainWord(a) && PlainWord(f) && PlainWord(g)
    ensures Terminated([a, ">", f, g, ""])
    ensures var w1 := RedirectEffects(w, [a], f, Stdin);
      var w2 := Execute(w1, [a, g], Stdin, Stdout).0;
      ScanFrom(w, [a, ">", f, g, ""], 0, 0, 0, Stdin, 0) == ScanResult(w2, [a, ">", a, g, ""], if w2.exited then Exited else Finished)
  {
    var args := [a, ">", f, g, ""];
    var m := Memmove(args, 2, 0, 1);
    MemmoveCells(args, 2, 0, 1);
    assert m == [a, ">", a, g, ""];
    assert args[0..1] == [a] && m[2..4] == [a, g];
    ScanOverWords(w, args, 0, 0, 1, Stdin, 0);
    RedirectNextCommand(w, args, 1, 0, 2, Stdin, 0);
  }

  /** `x && a b > f`: after `a b` runs into `f`, the scan runs `> f` as a command. */
  lemma MultiWordAfterAnd(w: World, x: string, a: string, b: string, f: string)
    requires PlainWord(x) && PlainWord(a) && PlainWord(b) && PlainWord(f)
    ensures Terminated([x, "&&", a, b, ">", f, ""])
    ensures var w1 := RedirectEffects(w, [a, b], f, Stdin);
      var w2 := Execute(w1, [">", f], Stdin, Stdout).0;
      ScanFrom(w, [x, "&&", a, b, ">", f, ""], 2, 2, 2, Stdin, 0)
        == ScanResult(w2, [x, "&&", a, b, ">", f, ""], if w2.exited then Exited else Finished)
  {
    var args := [x, "&&", a, b, ">", f, ""];
    var m := Memmove(args, 2, 2, 2);
    assert m == args;
    assert args[2..4] == [a, b] && args[4..6] == [">", f];
    ScanOverWords(w, args, 2, 2, 2, Stdin, 0);
    RedirectNextCommand(w, args, 4, 2, 1, Stdin, 0);
  }

  /**
   * `&&` goes on after a failed fork, and each fork fails or succeeds on its
   * own: when only the first fork of `a && b` fails, `b` still runs.
   */
  lemma FailedForkDoesNotStopSequence(w: World, a: seq<string>, b: seq<string>)
    requires PlainWords(a) && PlainWords(b) && !w.exited
    requires a[0] != "cd" && a[0] != "exit" && b[0] != "cd" && b[0] != "exit"
    requires w.forks in w.failingForks && w.forks + 1 !in w.failingForks
    ensures var t := if w.isTty then [OutputToggled] else [];
      Parse(w, a + ["&&"] + b + [""]).outcome == Finished &&
      Parse(w, a + ["&&"] + b + [""]).world.log == w.log + t + [ForkFailed, ChildRan(b, [])] + t
  {
    SequenceRunsBoth(w, a, b);
    var w1 := Toggle(w).0;
    var w2 := Execute(w1, a, Stdin, Stdout).0;
    var w3 := Execute(w2, b, Stdin, Stdout).0;
    assert w2.log == w1.log + [ForkFailed] && w2.forks == w.forks + 1 && !w2.exited;
    assert ChildWiring(Stdin, Stdout) == [];
    assert w3.log == w2.log + [ChildRan(b, [])] && !w3.exited;
  }

  /** An operator directly before the sentinel is an ordinary word of the last command. */
  lemma TrailingOperatorIsWord(w: World, a: seq<string>, op: string)
    requires PlainWords(a) && (op == "&&" || op == "|" || op == ">") && !w.exited
    ensures var w1 := Execute(Toggle(w).0, a + [op], Stdin, Stdout).0;
      Parse(w, a + [op, ""]) ==
        if w1.exited then ScanResult(w1, a + [op, ""], Exited)
        else ScanResult(Toggle(w1).0, a + [op, ""], Finished)
  {
    var args := a + [op, ""];
    var n := |a|;
    assert args[..n + 1] == a + [op] && args[n] == op && args[n + 1] == "";
    assert args[0] == a[0];
    ScanOverWords(Toggle(w).0, args, 0, 0, n, Stdin, 0);
    ScanWordStep(Toggle(w).0, args, n, 0, Stdin, 0);
    ScanEndStep(Toggle(w).0, args, n + 1, 0, Stdin, 0);
    ExecuteDispatch(Toggle(w).0, a + [op], Stdin, Stdout);
  }

  /** A `<` is never passed: the scan stops advancing there, after the words before it. */
  lemma LessThanHangs(w: World, a: seq<string>, rest: seq<string>)
    requires PlainWords(a) && Terminated(rest)
    ensures Parse(w, a + ["<"] + rest) == ScanResult(Toggle(w).0, a + ["<"] + rest, Hung)
  {
    var args := a + ["<"] + rest;
    assert args[|a|] == "<" && args[0] == a[0];
    assert args[|args| - 1] == rest[|rest| - 1];
    ScanOverWords(Toggle(w).0, args, 0, 0, |a|, Stdin, 0);
    ScanLessStep(Toggle(w).0, args, |a|, 0, Stdin, 0);
  }
}
