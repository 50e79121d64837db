/**
 * The shell process of tsh.c as an object: the state that
 * toggleOutputPostprocessing, tshExecuteCmd and tshParseCmdArgs change
 * (working directory, the terminal's OPOST bit, whether the process has
 * exited, the effects on the system so far) and those three routines as
 * methods, each proved to do what its specification in `Os` and `Scan` says.
 */
module Tsh {
  import opened Os
  import opened Scan
  import Tokens
  import Tokenizer

  /** `memmove(a + dst, a + src, len * sizeof(char*))` on the token array. */
  method MoveCells(a: array<string>, dst: nat, src: nat, len: nat)
    requires dst + len <= a.Length && src + len <= a.Length
    modifies a
    ensures a[..] == Memmove(old(a[..]), dst, src, len)
  {
    var moved := a[src..src + len];
    forall k | dst <= k < dst + len {
      a[k] := moved[k - dst];
    }
    MemmoveCells(old(a[..]), dst, src, len);
  }

  class Shell {
    var cwd: string
    var opost: bool
    var exited: bool
    var log: seq<Event>
    /** isatty(STDIN_FILENO) */
    const isTty: bool
    /** The directories chdir accepts. */
    const enterable: set<string>
    /** How many times fork has been called. */
    var forks: nat
    /** The calls of fork (numbered from 0) that fail. */
    const failingForks: set<nat>

    /** The shell and its surroundings as a value. */
    function View(): World
      reads this
    {
      World(cwd, opost, exited, log, isTty, enterable, forks, failingForks)
    }

    constructor (cwd: string, opost: bool, isTty: bool, enterable: set<string>, failingForks: set<nat>)
      ensures View() == World(cwd, opost, false, [], isTty, enterable, 0, failingForks)
    {
      this.cwd := cwd;
      this.opost := opost;
      this.exited := false;
      this.log := [];
      this.isTty := isTty;
      this.enterable := enterable;
      this.forks := 0;
      this.failingForks := failingForks;
    }

    /** toggleOutputPostprocessing: XOR the OPOST bit on a terminal. */
    method ToggleOutputPostprocessing() returns (status: int)
      modifies this
      ensures (View(), status) == Toggle(old(View()))
    {
      if isTty {
        opost := !opost;
        log := log + [OutputToggled];
      } else {
        return 1;
      }
      return 0;
    }

    /** tshExecuteCmd: the built-ins `cd` and `exit`, or a child wired to `input` and `output`. */
    method ExecuteCmd(cmd: seq<string>, input: Fd, output: Fd) returns (status: int)
      requires |cmd| > 0
      modifies this
      ensures (View(), status) == Execute(old(View()), cmd, input, output)
    {
      if cmd[0] == "cd" && output == Stdout {
        if |cmd| < 2 {
          return 1;
        }
        if cmd[1] !in enterable {
          return -1;
        }
        cwd := cmd[1];
        log := log + [DirChanged(cmd[1])];
      }
      if cmd[0] == "exit" && output == Stdout {
        exited := true;
        log := log + [ShellExited];
        return 0;
      }

      var failed := forks in failingForks;
      forks := forks + 1;
      if failed {
        log := log + [ForkFailed];
        return -1;
      }
      // in the child: rewire, then exec
      var dups: seq<Dup> := [];
      if input != Stdin {
        dups := dups + [Dup(input, 0)];
      }
      if output != Stdout {
        dups := dups + [Dup(output, 1)];
      }
      assert dups == ChildWiring(input, output);
      log := log + [ChildRan(cmd, dups)];
      return 0;
    }

    /** Copies `cmdArgs[start..end]` and runs it, as `RunSegment` says; no words is a fault. */
    method RunCmd(cmdArgs: array<string>, start: nat, end: nat, input: Fd, output: Fd) returns (ok: bool)
      requires start <= end <= cmdArgs.Length
      modifies this
      ensures (View(), ok) == RunSegment(old(View()), cmdArgs[..], start, end, input, output)
    {
      if start == end {
        return false;
      }
      assert cmdArgs[start..end] == cmdArgs[..][start..end];
      var _ := ExecuteCmd(cmdArgs[start..end], input, output);
      return true;
    }

    /** The `&&` branch of tshParseCmdArgs: run the command to standard output. */
    method AndStep(cmdArgs: array<string>, idx: nat, start: nat, input: Fd, pipes: nat) returns (stop: bool, outcome: Outcome)
      requires Terminated(cmdArgs[..]) && start <= idx && idx + 1 < cmdArgs.Length
      requires ActsAsOperator(cmdArgs[..], idx) && cmdArgs[idx] == "&&"
      modifies this
      ensures stop ==> (outcome != Finished &&
        ScanResult(View(), cmdArgs[..], outcome) == old(ScanFrom(View(), cmdArgs[..], idx, start, idx, input, pipes)))
      ensures !stop ==>
        ScanFrom(View(), cmdArgs[..], idx + 1, idx + 1, idx + 1, Stdin, pipes)
          == old(ScanFrom(View(), cmdArgs[..], idx, start, idx, input, pipes))
    {
      var ok := RunCmd(cmdArgs, start, idx, input, Stdout);
      if !ok {
        return true, Fault;
      }
      if exited {
        return true, Exited;
      }
      return false, Finished;
    }

    /**
     * The `|` branch of tshParseCmdArgs: open the `pipes`-th pipe, run the
     * command into its write end, close that end in the shell.
     */
    method PipeStep(cmdArgs: array<string>, idx: nat, start: nat, input: Fd, pipes: nat) returns (stop: bool)
      requires Terminated(cmdArgs[..]) && start <= idx && idx + 1 < cmdArgs.Length
      requires ActsAsOperator(cmdArgs[..], idx) && cmdArgs[idx] == "|"
      modifies this
      ensures stop ==>
        ScanResult(View(), cmdArgs[..], Fault) == old(ScanFrom(View(), cmdArgs[..], idx, start, idx, input, pipes))
      ensures !stop ==>
        ScanFrom(View(), cmdArgs[..], idx + 1, idx + 1, idx + 1, PipeRead(pipes), pipes + 1)
          == old(ScanFrom(View(), cmdArgs[..], idx, start, idx, input, pipes))
    {
      log := log + [PipeOpened(pipes)];
      var ok := RunCmd(cmdArgs, start, idx, input, PipeWrite(pipes));
      if !ok {
        return true;
      }
      log := log + [WriteEndClosed(pipes)];
      return false;
    }

    /**
     * The `>` branch of tshParseCmdArgs once the file name `fn` is known: open
     * the file, run `cmdArgs[start..end]` into it, close it, and move the
     * command's words to index 2.
     */
    method RedirectSegment(cmdArgs: array<string>, start: nat, end: nat, input: Fd, fn: string)
      requires start < end && 2 + (end - start) <= cmdArgs.Length && end <= cmdArgs.Length
      modifies this, cmdArgs
      ensures View() == RedirectEffects(old(View()), old(cmdArgs[start..end]), fn, input)
      ensures cmdArgs[..] == Memmove(old(cmdArgs[..]), 2, start, end - start)
    {
      log := log + [FileOpened(fn)];
      var _ := ExecuteCmd(cmdArgs[start..end], input, FileFd(fn));
      log := log + [FileClosed(fn)];
      MoveCells(cmdArgs, 2, start, end - start);
    }

    /** The `>` branch of tshParseCmdArgs, the file name being the token after `>`. */
    method RedirectStep(cmdArgs: array<string>, idx: nat, start: nat, input: Fd, pipes: nat) returns (stop: bool)
      requires Terminated(cmdArgs[..]) && start <= idx && idx + 1 < cmdArgs.Length
      requires ActsAsOperator(cmdArgs[..], idx) && cmdArgs[idx] == ">"
      modifies this, cmdArgs
      ensures Terminated(cmdArgs[..])
      ensures stop ==>
        ScanResult(View(), cmdArgs[..], Fault) == old(ScanFrom(View(), cmdArgs[..], idx, start, idx, input, pipes))
      ensures !stop ==> (start + 2 <= idx + 1 &&
        ScanFrom(View(), cmdArgs[..], idx + 1, start + 2, idx + 1, input, pipes)
          == old(ScanFrom(View(), cmdArgs[..], idx, start, idx, input, pipes)))
    {
      var fn := cmdArgs[idx + 1];
      if start == idx {
        log := log + [FileOpened(fn)];
        return true;
      }
      ScanRedirectStep(View(), cmdArgs[..], idx, start, input, pipes);
      assert cmdArgs[..][start..idx] == cmdArgs[start..idx];
      RedirectSegment(cmdArgs, start, idx, input, fn);
      return false;
    }

    /**
     * One iteration of the loop of tshParseCmdArgs, at token `idx` with the
     * current command starting at `start`: either the scan stops with
     * `outcome`, or it goes on at `idx + 1` with the new command start, input
     * and pipe count.
     */
    method Step(cmdArgs: array<string>, idx: nat, start: nat, input: Fd, pipes: nat)
      returns (stop: bool, outcome: Outcome, start': nat, input': Fd, pipes': nat)
      requires Terminated(cmdArgs[..]) && idx < cmdArgs.Length && start <= idx
      modifies this, cmdArgs
      ensures Terminated(cmdArgs[..])
      ensures stop ==>
        ScanResult(View(), cmdArgs[..], outcome) == old(ScanFrom(View(), cmdArgs[..], idx, start, idx, input, pipes))
      ensures !stop ==> (idx + 1 < cmdArgs.Length && start' <= idx + 1 &&
        ScanFrom(View(), cmdArgs[..], idx + 1, start', idx + 1, input', pipes')
          == old(ScanFrom(View(), cmdArgs[..], idx, start, idx, input, pipes)))
    {
      start', input', pipes' := start, input, pipes;
      var t := cmdArgs[idx];
      if t == "" {
        ScanEndStep(View(), cmdArgs[..], idx, start, input, pipes);
        var ok := RunCmd(cmdArgs, start, idx, input, Stdout);
        outcome := if !ok then Fault else if exited then Exited else Finished;
        return true, outcome, start', input', pipes';
      } else if t == "&&" && cmdArgs[idx + 1] != "" {
        stop, outcome := AndStep(cmdArgs, idx, start, input, pipes);
        start', input' := idx + 1, Stdin;
      } else if t == "|" && cmdArgs[idx + 1] != "" {
        stop := PipeStep(cmdArgs, idx, start, input, pipes);
        outcome := Fault;
        start', input', pipes' := idx + 1, PipeRead(pipes), pipes + 1;
      } else if t == ">" && cmdArgs[idx + 1] != "" {
        stop := RedirectStep(cmdArgs, idx, start, input, pipes);
        outcome := Fault;
        start' := start + 2;
      } else if t == "<" {
        // `continue` without advancing the index: the loop never ends
        ScanLessStep(View(), cmdArgs[..], idx, start, input, pipes);
        return true, Hung, start', input', pipes';
      } else {
        ScanWordStep(View(), cmdArgs[..], idx, start, input, pipes);
        stop, outcome := false, Finished;
      }
    }

    /**
     * tshParseCmdArgs: runs the commands of a token array, splitting at `&&`,
     * `|` and `>`, between two toggles of output processing.
     */
    method ParseCmdArgs(cmdArgs: array<string>) returns (outcome: Outcome)
      requires Terminated(cmdArgs[..])
      modifies this, cmdArgs
      ensures ScanResult(View(), cmdArgs[..], outcome) == Parse(old(View()), old(cmdArgs[..]))
    {
      if cmdArgs[0] == "" {
        return Finished;
      }
      var _ := ToggleOutputPostprocessing();

      ghost var spec := ScanFrom(View(), cmdArgs[..], 0, 0, 0, Stdin, 0);
      ghost var goal := Parse(old(View()), old(cmdArgs[..]));
      assert goal == if spec.outcome == Finished then spec.(world := Toggle(spec.world).0) else spec;
      var nextInputFd := Stdin;
      var cmdArgStart: nat := 0;
      var cmdArgIndex: nat := 0;
      var pipes: nat := 0;

      while true
        invariant Terminated(cmdArgs[..]) && cmdArgIndex < cmdArgs.Length && cmdArgStart <= cmdArgIndex
        invariant ScanFrom(View(), cmdArgs[..], cmdArgIndex, cmdArgStart, cmdArgIndex, nextInputFd, pipes) == spec
        decreases cmdArgs.Length - cmdArgIndex
      {
        var stop;
        stop, outcome, cmdArgStart, nextInputFd, pipes := Step(cmdArgs, cmdArgIndex, cmdArgStart, nextInputFd, pipes);
        if stop {
          if outcome == Finished {
            var _ := ToggleOutputPostprocessing();
          }
          return;
        }
        cmdArgIndex := cmdArgIndex + 1;
      }
    }

    /**
     * One round of main's read loop once the line is read: tokenize it, then
     * parse and run the tokens. The token array the tokenizer hands over may
     * have spare cells after the sentinel (they hold ""); the scan never
     * reaches them.
     */
    method RunLine(line: string) returns (outcome: Outcome)
      modifies this
      ensures Terminated(Tokens.Tokenize(line))
      ensures var r := Parse(old(View()), Tokens.Tokenize(line)); View() == r.world && outcome == r.outcome
    {
      var cmdArgs, n := Tokenizer.TokenizeCmdLine(line);
      ghost var pad := cmdArgs[n..];
      assert cmdArgs[..] == Tokens.Tokenize(line) + pad;
      TokensAreTerminated(line);
      ParsePadded(View(), Tokens.Tokenize(line), pad);
      outcome := ParseCmdArgs(cmdArgs);
    }
  }

  /** What the tokenizer produces is what the command scan expects. */
  lemma TokensAreTerminated(line: string)
    ensures Terminated(Tokens.Tokenize(line))
    ensures Tokens.Tokenize(line)[0] == "" <==> Tokens.Tokenize(line) == [""]
  {
    Tokens.TokenizeShape(line);
  }
}
