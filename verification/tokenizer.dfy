/**
 * The tokenizer of tsh.c (tshTokenizeCmdLine) as the imperative loop it is:
 * a cursor over the line, a quote-mode flag, a character buffer for the
 * current token and an array of finished tokens, both buffers doubling when
 * full. It is proved to produce exactly the token list `Tokens.Tokenize`.
 */
module Tokenizer {
  import opened Tokens

  /**
   * `realloc`: a fresh array of `size` elements that starts with `a`'s
   * contents; the cells after them hold `fill`.
   */
  method Grow<T>(a: array<T>, size: nat, fill: T) returns (b: array<T>)
    requires a.Length <= size
    ensures fresh(b) && b.Length == size && b[..a.Length] == a[..]
    ensures forall k :: a.Length <= k < size ==> b[k] == fill
  {
    b := new T[size](_ => fill);
    forall i | 0 <= i < a.Length {
      b[i] := a[i];
    }
  }

  /** Initial capacity of the token array (cmdArgsSize). */
  const InitialArgsSize := 10
  /** Initial capacity of a token buffer (argSize). */
  const InitialArgSize := 20

  /**
   * Writes `c` at `argPos` of the token buffer and then, as the tokenizer
   * does after every character, doubles the buffer once it is full.
   */
  method Put(arg: array<char>, argPos: nat, c: char) returns (buf: array<char>, next: nat)
    requires argPos < arg.Length
    modifies arg
    ensures next == argPos + 1 && next < buf.Length
    ensures buf == arg || (fresh(buf) && buf.Length == 2 * arg.Length)
    ensures buf[..next] == old(arg[..argPos]) + [c]
  {
    arg[argPos] := c;
    next := argPos + 1;
    buf := arg;
    if next >= arg.Length {
      buf := Grow(arg, arg.Length + arg.Length, '\0');
    }
    assert buf[..next] == arg[..next];
  }

  /**
   * One round of the inner loop of the tokenizer: reads characters from
   * `pos0` in quote mode `quoted0` into a fresh buffer of `argSize0` cells
   * until an unquoted space ends a non-empty token or the line ends (`ended`).
   * `tok` is the token read; `toks`, the tokens already finished, only serves
   * to state where the tokenizer stands.
   */
  method ReadToken(line: string, pos0: nat, quoted0: bool, argSize0: nat, ghost toks: seq<string>)
    returns (pos: nat, quoted: bool, argSize: nat, tok: string, ended: bool)
    requires pos0 <= |line| && argSize0 > 0
    ensures pos <= |line| && argSize > 0
    ensures ended ==>
      Lex(line, pos0, quoted0, [], toks) == if tok != [] then toks + [tok, ""] else toks + [""]
    ensures !ended ==>
      pos > pos0 && tok != [] && Lex(line, pos0, quoted0, [], toks) == Lex(line, pos, quoted, [], toks + [tok])
  {
    pos, quoted := pos0, quoted0;
    var arg := new char[argSize0];
    var argPos: nat := 0;
    assert arg[..argPos] == [];

    while true
      invariant fresh(arg) && argPos < arg.Length
      invariant pos0 <= pos <= |line|
      invariant Lex(line, pos, quoted, arg[..argPos], toks) == Lex(line, pos0, quoted0, [], toks)
      decreases |line| - pos
    {
      var c := At(line, pos);
      if c == '\0' {
        return pos, quoted, arg.Length, arg[..argPos], true;
      } else if c == '"' {
        quoted := !quoted;
        pos := pos + 1;
      } else if c == '\\' {
        pos := pos + 1;
        var e := At(line, pos);
        if e == 'n' {
          ghost var cur := arg[..argPos];
          arg, argPos := Put(arg, argPos, '\r');
          arg, argPos := Put(arg, argPos, '\n');
          pos := pos + 1;
          assert arg[..argPos] == cur + EscapeText(e);
        } else if e == '\\' || e == '"' || e == '\'' || e == 'r' {
          ghost var cur := arg[..argPos];
          arg, argPos := Put(arg, argPos, if e == 'r' then '\r' else e);
          pos := pos + 1;
          assert arg[..argPos] == cur + EscapeText(e);
        }
      } else if c == ' ' && !quoted {
        if argPos != 0 {
          return pos + 1, quoted, arg.Length, arg[..argPos], false;
        }
        pos := pos + 1;
      } else {
        arg, argPos := Put(arg, argPos, c);
        pos := pos + 1;
      }
    }
  }

  /**
   * Stores a finished token at `idx` of the token array and then, as the
   * tokenizer does after every token, doubles the array once it is full.
   */
  method Push(cmdArgs: array<string>, idx: nat, tok: string) returns (out: array<string>, next: nat)
    requires idx < cmdArgs.Length
    requires forall k :: idx <= k < cmdArgs.Length ==> cmdArgs[k] == ""
    modifies cmdArgs
    ensures next == idx + 1 && next < out.Length
    ensures out == cmdArgs || (fresh(out) && out.Length == 2 * cmdArgs.Length)
    ensures out[..next] == old(cmdArgs[..idx]) + [tok]
    ensures forall k :: next <= k < out.Length ==> out[k] == ""
  {
    cmdArgs[idx] := tok;
    next := idx + 1;
    out := cmdArgs;
    if next >= cmdArgs.Length {
      out := Grow(cmdArgs, cmdArgs.Length + cmdArgs.Length, "");
    }
    assert out[..next] == cmdArgs[..next];
  }

  /**
   * The end of the line: the last token, if there is one, then the sentinel
   * "". The array is grown first when the sentinel's cell is missing.
   */
  method Finish(cmdArgs: array<string>, idx: nat, tok: string) returns (out: array<string>, n: nat)
    requires idx < cmdArgs.Length
    requires forall k :: idx <= k < cmdArgs.Length ==> cmdArgs[k] == ""
    modifies cmdArgs
    ensures out == cmdArgs || (fresh(out) && out.Length == 2 * cmdArgs.Length)
    ensures n <= out.Length
    ensures out[..n] == old(cmdArgs[..idx]) + if tok != [] then [tok, ""] else [""]
    ensures forall k :: n <= k < out.Length ==> out[k] == ""
  {
    if tok == [] {
      cmdArgs[idx] := "";
      return cmdArgs, idx + 1;
    }
    out := cmdArgs;
    if idx + 1 >= cmdArgs.Length {
      out := Grow(cmdArgs, cmdArgs.Length + cmdArgs.Length, "");
    }
    out[idx] := tok;
    out[idx + 1] := "";
    n := idx + 2;
  }

  /**
   * Splits `line` into tokens. The first `n` cells of `cmdArgs` hold the
   * tokens followed by the sentinel ""; the cells after them hold "" too.
   */
  method TokenizeCmdLine(line: string) returns (cmdArgs: array<string>, n: nat)
    ensures fresh(cmdArgs)
    ensures n <= cmdArgs.Length
    ensures cmdArgs[..n] == Tokenize(line)
    ensures forall k :: n <= k < cmdArgs.Length ==> cmdArgs[k] == ""
  {
    var pos: nat := 0;
    var idx: nat := 0;
    var argSize: nat := InitialArgSize;
    var quoted := false;
    cmdArgs := new string[InitialArgsSize](_ => "");

    while true
      invariant fresh(cmdArgs) && idx < cmdArgs.Length
      invariant forall k :: idx <= k < cmdArgs.Length ==> cmdArgs[k] == ""
      invariant pos <= |line| && argSize > 0
      invariant Lex(line, pos, quoted, [], cmdArgs[..idx]) == Tokenize(line)
      decreases |line| - pos
    {
      var tok, ended;
      pos, quoted, argSize, tok, ended := ReadToken(line, pos, quoted, argSize, cmdArgs[..idx]);
      if ended {
        cmdArgs, n := Finish(cmdArgs, idx, tok);
        return;
      }
      cmdArgs, idx := Push(cmdArgs, idx, tok);
    }
  }
}
