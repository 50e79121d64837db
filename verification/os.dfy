/**
 * What the shell of tsh.c sees of the operating system, as values: file
 * descriptors, the effects it has (recorded in a log), its terminal's OPOST
 * bit, and the two decisions the system makes for it (whether `chdir`
 * succeeds, which calls of `fork` fail). On top of that, the two side-effecting
 * routines toggleOutputPostprocessing and tshExecuteCmd as functions from the
 * world before to the world after and their return value.
 */
module Os {

  /** A file descriptor: a standard one, an end of the `id`-th pipe, or an open file. */
  datatype Fd = Std(n: nat) | PipeRead(id: nat) | PipeWrite(id: nat) | FileFd(path: string)

  const Stdin := Std(0)
  const Stdout := Std(1)

  /** `dup2(from, onto)` followed by `close(from)`, done in a child. */
  datatype Dup = Dup(from: Fd, onto: nat)

  /** The effects the shell has on the system, in the order it has them. */
  datatype Event =
    | OutputToggled                                 // OPOST flipped on the terminal
    | DirChanged(path: string)                      // chdir succeeded
    | ShellExited                                   // exit(EXIT_SUCCESS)
    | ForkFailed                                    // fork returned -1
    | ChildRan(argv: seq<string>, dups: seq<Dup>)   // a child rewired, ran argv and was waited for
    | PipeOpened(id: nat)
    | WriteEndClosed(id: nat)
    | FileOpened(path: string)                      // fopen(path, "a+")
    | FileClosed(path: string)

  /**
   * The shell process and its surroundings: working directory, the OPOST
   * bit, whether the process has exited, the effects so far, and the facts
   * the system decides (is standard input a terminal, which directories
   * `chdir` accepts, which calls of `fork` fail). `forks` counts the calls of
   * `fork` so far; the call numbered `k` (from 0) fails when `k` is in
   * `failingForks`.
   */
  datatype World = World(
    cwd: string,
    opost: bool,
    exited: bool,
    log: seq<Event>,
    isTty: bool,
    enterable: set<string>,
    forks: nat,
    failingForks: set<nat>)

  /** The parts of the world no command can change. */
  predicate SameSystem(w: World, w': World) {
    w'.isTty == w.isTty && w'.enterable == w.enterable && w'.failingForks == w.failingForks
  }

  /** toggleOutputPostprocessing (tsh.c:18-30): flips OPOST on a terminal (0), does nothing otherwise (1). */
  function Toggle(w: World): (World, int) {
    if w.isTty then (w.(opost := !w.opost, log := w.log + [OutputToggled]), 0)
    else (w, 1)
  }

  /** Toggling is an XOR flip of OPOST on a terminal and a no-op elsewhere; twice restores it. */
  lemma ToggleFlips(w: World)
    ensures var (w1, status) := Toggle(w);
      && SameSystem(w, w1) && w1.cwd == w.cwd && w1.exited == w.exited
      && (w.isTty ==> w1.opost == !w.opost && w1.log == w.log + [OutputToggled] && status == 0)
      && (!w.isTty ==> w1 == w && status == 1)
    ensures Toggle(Toggle(w).0).0.opost == w.opost
  {
  }

  /** The descriptors a child rewires before exec (tsh.c:57-64): `in` onto 0 unless it is 0, `out` onto 1 unless it is 1. */
  function ChildWiring(input: Fd, output: Fd): seq<Dup> {
    (if input != Stdin then [Dup(input, 0)] else []) + (if output != Stdout then [Dup(output, 1)] else [])
  }

  /** A descriptor the child's table follows by number: 0 or 1. */
  predicate Tracked(f: Fd) {
    f.Std? && f.n <= 1
  }

  /**
   * The child's descriptors: what 0 and 1 refer to (`table`, a number is
   * missing once closed), and which other descriptors it has closed (`shut`).
   */
  datatype Descriptors = Descriptors(table: map<nat, Fd>, shut: set<Fd>)

  /** A child's descriptors before it rewires: 0 and 1 inherited, nothing closed. */
  const Inherited := Descriptors(map[0 := Stdin, 1 := Stdout], {})

  /** Whether descriptor `f` is open: 0 and 1 while the table holds them, any other until closed. */
  predicate IsOpen(ds: Descriptors, f: Fd) {
    if Tracked(f) then f.n in ds.table else f !in ds.shut
  }

  /** What an open descriptor refers to. */
  function Target(ds: Descriptors, f: Fd): Fd
    requires IsOpen(ds, f)
  {
    if Tracked(f) then ds.table[f.n] else f
  }

  /** `close(f)`: 0 and 1 leave the table, any other descriptor joins `shut`. */
  function Close(ds: Descriptors, f: Fd): Descriptors {
    if Tracked(f) then ds.(table := ds.table - {f.n}) else ds.(shut := ds.shut + {f})
  }

  /**
   * The child's descriptors after its `dup2(from, onto)` and `close(from)`
   * calls (tsh.c:58-59, 62-63). A `dup2` from a closed descriptor fails and
   * changes nothing.
   */
  function Rewire(ds: Descriptors, dups: seq<Dup>): Descriptors
    decreases |dups|
  {
    if dups == [] then ds
    else
      var d := dups[0];
      var duped := if IsOpen(ds, d.from) then ds.(table := ds.table[d.onto := Target(ds, d.from)]) else ds;
      Rewire(Close(duped, d.from), dups[1..])
  }

  /**
   * The child reads `input` on 0 and writes `output` on 1 unless the `close`
   * after a `dup2` shuts a descriptor the child still needs: `input` is
   * descriptor 1, `output` is descriptor 0, or both are the same other
   * descriptor, whose second `dup2` then fails. The shell's own calls pass
   * standard input or a pipe's read end as `input` and standard output, a
   * pipe's write end or a file as `output`, so they are in the first case.
   */
  lemma ChildSeesItsWiring(input: Fd, output: Fd)
    ensures var t := Rewire(Inherited, ChildWiring(input, output)).table;
      && (input != Stdout && output != Stdin && input != output ==> t == map[0 := input, 1 := output])
      && (input != Stdout && output == Stdin ==> t == map[1 := input])
      && (input == output && !Tracked(input) ==> t == map[0 := input, 1 := Stdout])
      && (input == Stdout && output == Stdout ==> t == map[0 := Stdout])
      && (input == Stdout && output == Stdin ==> t == map[1 := Stdout])
      && (input == Stdout && output != Stdout && output != Stdin ==> t == map[0 := Stdout, 1 := output])
    ensures Dup(input, 0) in ChildWiring(input, output) <==> input != Stdin
    ensures Dup(output, 1) in ChildWiring(input, output) <==> output != Stdout
  {
    var ins := if input != Stdin then [Dup(input, 0)] else [];
    var outs := if output != Stdout then [Dup(output, 1)] else [];
    assert ChildWiring(input, output) == ins + outs;
    RewireAppend(Inherited, ins, outs);
    var d1 := Rewire(Inherited, ins);
    var t1 := d1.table;
    // the table after the `in` half of the wiring
    assert input == Stdout ==> t1 == map[0 := Stdout];
    assert input != Stdout ==> t1 == map[0 := input, 1 := Stdout];
    assert input == Stdin || Tracked(input) || input in d1.shut;
    // and after the `out` half
    var t2 := Rewire(d1, outs).table;
    if input != Stdout && output != Stdin && (input == output ==> input == Stdin) {
      assert t2 == map[0 := input, 1 := output];
    } else if input != Stdout && output == Stdin {
      assert t2 == map[1 := input];
    } else if input == output && !Tracked(input) {
      assert t2 == map[0 := input, 1 := Stdout];
    } else if output == Stdout {
      assert t2 == map[0 := Stdout];
    } else if output == Stdin {
      assert t2 == map[1 := Stdout];
    } else {
      assert t2 == map[0 := Stdout, 1 := output];
    }
  }

  /** Rewiring by two lists of calls is rewiring by one, then by the other. */
  lemma {:induction false} RewireAppend(ds: Descriptors, xs: seq<Dup>, ys: seq<Dup>)
    ensures Rewire(ds, xs + ys) == Rewire(Rewire(ds, xs), ys)
    decreases |xs|
  {
    if xs == [] {
      assert xs + ys == ys;
    } else {
      var d := xs[0];
      var duped := if IsOpen(ds, d.from) then ds.(table := ds.table[d.onto := Target(ds, d.from)]) else ds;
      assert (xs + ys)[0] == d && (xs + ys)[1..] == xs[1..] + ys;
      RewireAppend(Close(duped, d.from), xs[1..], ys);
    }
  }

  /** Whether `argv` is the built-in `name` run in the shell's own process: only when output is standard output. */
  predicate IsBuiltin(argv: seq<string>, output: Fd, name: string)
    requires |argv| > 0
  {
    argv[0] == name && output == Stdout
  }

  /**
   * tshExecuteCmd(argv, input, output), tsh.c:43-75. The source reads `cmd[1]` of an
   * array without a NULL terminator; "no second word" is `|argv| < 2` here.
   */
  function Execute(w: World, argv: seq<string>, input: Fd, output: Fd): (World, int)
    requires |argv| > 0
  {
    if IsBuiltin(argv, output, "cd") && |argv| < 2 then (w, 1)
    else if IsBuiltin(argv, output, "cd") && argv[1] !in w.enterable then (w, -1)
    else
      // a successful chdir falls through to fork
      var w1 := if IsBuiltin(argv, output, "cd") then w.(cwd := argv[1], log := w.log + [DirChanged(argv[1])]) else w;
      if IsBuiltin(argv, output, "exit") then (w1.(exited := true, log := w1.log + [ShellExited]), 0)
      else
        var w2 := w1.(forks := w1.forks + 1);
        if w1.forks in w1.failingForks then (w2.(log := w2.log + [ForkFailed]), -1)
        else (w2.(log := w2.log + [ChildRan(argv, ChildWiring(input, output))]), 0)
  }

  /**
   * The dispatch of tshExecuteCmd: `cd` and `exit` act in the shell only when
   * output is standard output; `cd` without a directory returns 1 and a failed
   * chdir -1, both without spawning; a successful chdir still forks; a failed
   * fork returns -1; otherwise a child rewired with `ChildWiring` runs and the
   * result is 0.
   */
  lemma ExecuteDispatch(w: World, argv: seq<string>, input: Fd, output: Fd)
    requires |argv| > 0
    ensures var (w1, status) := Execute(w, argv, input, output);
      var cd := IsBuiltin(argv, output, "cd");
      var exit := IsBuiltin(argv, output, "exit");
      var cdFails := cd && (|argv| < 2 || argv[1] !in w.enterable);
      && SameSystem(w, w1) && w1.opost == w.opost
      && (status == 1 <==> cd && |argv| < 2)
      && (status == -1 <==> (cdFails && |argv| >= 2) || (!cdFails && !exit && w.forks in w.failingForks))
      && (!cdFails && !exit && w.forks !in w.failingForks ==> status == 0)
      && (w1.cwd != w.cwd ==> cd && !cdFails)
      && (cd && !cdFails ==> w1.cwd == argv[1] && DirChanged(argv[1]) in w1.log)
      && (w1.exited <==> w.exited || exit)
      && (cdFails ==> w1 == w)
      && (exit ==> w1.log == w.log + [ShellExited])
      && (w1.forks == if !cdFails && !exit then w.forks + 1 else w.forks)
      && (!cdFails && !exit ==>
            w1.log == w.log + (if cd then [DirChanged(argv[1])] else [])
                            + [if w.forks !in w.failingForks then ChildRan(argv, ChildWiring(input, output)) else ForkFailed])
  {
  }

  /** A command whose output is a pipe or a file never changes the shell's directory nor ends the shell. */
  lemma RedirectedBuiltinsSpawn(w: World, argv: seq<string>, input: Fd, output: Fd)
    requires |argv| > 0 && output != Stdout
    ensures var w1 := Execute(w, argv, input, output).0;
      && w1.cwd == w.cwd && w1.exited == w.exited
      && w1.forks == w.forks + 1
      && w1.log == w.log + [if w.forks !in w.failingForks then ChildRan(argv, ChildWiring(input, output)) else ForkFailed]
  {
  }
}
