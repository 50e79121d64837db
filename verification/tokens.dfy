/**
 * The token list that tsh.c's tokenizer (tshTokenizeCmdLine) produces for a
 * command line, written as a pure function that follows the tokenizer's
 * state machine one character at a time, and what that token list is proved
 * to look like.
 *
 * A line is a `string`; position `|line|` and any NUL character inside the
 * line both read as the C string's terminator. The result always ends with
 * the sentinel token "" that the rest of the shell looks for.
 */
module Tokens {

  /** The character at position `i` of a C string; past the end, its terminator. */
  function At(line: string, i: nat): char {
    if i < |line| then line[i] else '\0'
  }

  /** The characters that the tokenizer knows how to escape with a backslash. */
  predicate KnownEscape(c: char) {
    c == 'n' || c == '\\' || c == '"' || c == '\'' || c == 'r'
  }

  /** What an escape `\c` appends to the current token. */
  function EscapeText(c: char): string
    requires KnownEscape(c)
  {
    if c == 'n' then "\r\n" else if c == 'r' then "\r" else [c]
  }

  /**
   * The tokenizer from position `pos` on, in quote mode `quoted`, with the
   * current token holding `cur` and the finished tokens `toks`: the loop of
   * tshTokenizeCmdLine, tsh.c:176-242.
   */
  function Lex(line: string, pos: nat, quoted: bool, cur: string, toks: seq<string>): seq<string>
    decreases |line| - pos
  {
    var c := At(line, pos);
    if c == '\0' then
      if cur != [] then toks + [cur, ""] else toks + [""]
    else if c == '"' then
      Lex(line, pos + 1, !quoted, cur, toks)
    else if c == '\\' then
      var e := At(line, pos + 1);
      if KnownEscape(e) then Lex(line, pos + 2, quoted, cur + EscapeText(e), toks)
      else Lex(line, pos + 1, quoted, cur, toks)
    else if c == ' ' && !quoted then
      if cur != [] then Lex(line, pos + 1, quoted, [], toks + [cur])
      else Lex(line, pos + 1, quoted, cur, toks)
    else
      Lex(line, pos + 1, quoted, cur + [c], toks)
  }

  /** The token list of a whole line, sentinel included (tsh.c:166-254). */
  function Tokenize(line: string): seq<string> {
    Lex(line, 0, false, [], [])
  }

  predicate AllNonEmpty(ts: seq<string>) {
    forall i :: 0 <= i < |ts| ==> ts[i] != []
  }

  /** A token list as the rest of the shell expects it: words, then one "". */
  predicate WellFormed(ts: seq<string>) {
    |ts| > 0 && ts[|ts| - 1] == "" && AllNonEmpty(ts[..|ts| - 1])
  }

  lemma {:induction false} LexShape(line: string, pos: nat, quoted: bool, cur: string, toks: seq<string>)
    requires AllNonEmpty(toks)
    ensures var r := Lex(line, pos, quoted, cur, toks);
      WellFormed(r) && |r| > |toks| && r[..|toks|] == toks
    decreases |line| - pos
  {
    var c := At(line, pos);
    if c == '\0' {
      var r := Lex(line, pos, quoted, cur, toks);
      assert r[..|r| - 1] == if cur != [] then toks + [cur] else toks;
    } else if c == '"' {
      LexShape(line, pos + 1, !quoted, cur, toks);
    } else if c == '\\' {
      var e := At(line, pos + 1);
      if KnownEscape(e) {
        LexShape(line, pos + 2, quoted, cur + EscapeText(e), toks);
      } else {
        LexShape(line, pos + 1, quoted, cur, toks);
      }
    } else if c == ' ' && !quoted {
      if cur != [] {
        LexShape(line, pos + 1, quoted, [], toks + [cur]);
        var r := Lex(line, pos + 1, quoted, [], toks + [cur]);
        assert r[..|toks|] == (r[..|toks| + 1])[..|toks|];
      } else {
        LexShape(line, pos + 1, quoted, cur, toks);
      }
    } else {
      LexShape(line, pos + 1, quoted, cur + [c], toks);
    }
  }

  /**
   * Every token before the end is non-empty and the list ends in exactly one
   * sentinel "".
   */
  lemma TokenizeShape(line: string)
    ensures WellFormed(Tokenize(line))
    ensures var r := Tokenize(line); forall i :: 0 <= i < |r| ==> (r[i] == "" <==> i == |r| - 1)
  {
    LexShape(line, 0, false, [], []);
  }

  lemma {:induction false} LexBlank(line: string, pos: nat)
    requires forall i :: pos <= i < |line| ==> line[i] == ' '
    ensures Lex(line, pos, false, [], []) == [""]
    decreases |line| - pos
  {
    if pos < |line| {
      LexBlank(line, pos + 1);
    }
  }

  /** An empty or all-space line gives the sentinel alone. */
  lemma BlankLine(line: string)
    requires forall i :: 0 <= i < |line| ==> line[i] == ' '
    ensures Tokenize(line) == [""]
  {
    LexBlank(line, 0);
  }

  predicate NoQuote(s: string) {
    '"' !in s
  }

  lemma {:induction false} LexNoQuote(line: string, pos: nat, quoted: bool, cur: string, toks: seq<string>)
    requires '\\' !in line
    requires NoQuote(cur) && forall t :: t in toks ==> NoQuote(t)
    ensures forall t :: t in Lex(line, pos, quoted, cur, toks) ==> NoQuote(t)
    decreases |line| - pos
  {
    var c := At(line, pos);
    if c == '\0' {
    } else if c == '"' {
      LexNoQuote(line, pos + 1, !quoted, cur, toks);
    } else if c == '\\' {
      assert false;
    } else if c == ' ' && !quoted {
      if cur != [] {
        LexNoQuote(line, pos + 1, quoted, [], toks + [cur]);
      } else {
        LexNoQuote(line, pos + 1, quoted, cur, toks);
      }
    } else {
      LexNoQuote(line, pos + 1, quoted, cur + [c], toks);
    }
  }

  /**
   * A double quote only toggles quote mode: on a line without backslashes no
   * token contains one (the escape `\"` is the only way to put one in).
   */
  lemma QuotesNeverInTokens(line: string)
    requires '\\' !in line
    ensures forall t :: t in Tokenize(line) ==> '"' !in t
  {
    LexNoQuote(line, 0, false, [], []);
  }

  /** A run of text the tokenizer copies verbatim inside quotes. */
  predicate Plain(s: string) {
    '"' !in s && '\\' !in s && '\0' !in s
  }

  lemma {:induction false} LexQuotedRun(line: string, pos: nat, k: nat, cur: string, toks: seq<string>)
    requires pos + k <= |line| && Plain(line[pos..pos + k])
    ensures Lex(line, pos, true, cur, toks) == Lex(line, pos + k, true, cur + line[pos..pos + k], toks)
    decreases k
  {
    if k > 0 {
      assert line[pos] in line[pos..pos + k];
      assert line[pos + 1..pos + k] == line[pos..pos + k][1..];
      LexQuotedRun(line, pos + 1, k - 1, cur + [line[pos]], toks);
      assert cur + [line[pos]] + line[pos + 1..pos + k] == cur + line[pos..pos + k];
    } else {
      assert cur + line[pos..pos + k] == cur;
    }
  }

  /** Spaces between double quotes stay inside the token; the quotes vanish. */
  lemma QuotedKeepsSpaces(s: string)
    requires Plain(s) && s != ""
    ensures Tokenize("\"" + s + "\"") == [s, ""]
  {
    var line := "\"" + s + "\"";
    assert line[1..1 + |s|] == s;
    LexQuotedRun(line, 1, |s|, [], []);
    assert [] + s == s;
    assert At(line, 1 + |s|) == '"';
  }

  // ---------------------------------------------------------------------
  // Lines without quotes and escapes: the tokens are the maximal runs of
  // non-space characters, defined here independently of the tokenizer.

  /** The end of the run of non-space characters that starts at `i`. */
  function WordEnd(s: string, i: nat): (n: nat)
    requires i <= |s|
    ensures i <= n <= |s|
    ensures forall k :: i <= k < n ==> s[k] != ' '
    ensures n == |s| || s[n] == ' '
    decreases |s| - i
  {
    if i == |s| || s[i] == ' ' then i else WordEnd(s, i + 1)
  }

  /** The maximal runs of non-space characters of `s`, in order. */
  function Words(s: string): seq<string>
    decreases |s|
  {
    if s == [] then []
    else if s[0] == ' ' then Words(s[1..])
    else
      var n := WordEnd(s, 0);
      [s[..n]] + Words(s[n..])
  }

  /** The words joined with one space between neighbours. */
  function Join(ws: seq<string>): string
    decreases |ws|
  {
    if ws == [] then ""
    else if |ws| == 1 then ws[0]
    else ws[0] + " " + Join(ws[1..])
  }

  predicate IsWord(w: string) {
    w != [] && ' ' !in w
  }

  /** A word followed by a space or by nothing is the first word. */
  lemma WordsAfterWord(w: string, t: string)
    requires IsWord(w)
    requires t == [] || t[0] == ' '
    ensures Words(w + t) == [w] + (if t == [] then [] else Words(t[1..]))
  {
    var s := w + t;
    var n := WordEnd(s, 0);
    assert s[0] == w[0];
    assert forall k :: 0 <= k < |w| ==> s[k] == w[k] && w[k] in w;
    assert |w| < |s| ==> s[|w|] == t[0] == ' ';
    assert !(n < |w|) && !(n > |w|);
    assert s[..n] == w;
    assert s[n..] == t;
  }

  lemma {:induction false} LexPlain(line: string, pos: nat, cur: string, toks: seq<string>)
    requires pos <= |line| && Plain(line)
    requires cur == [] || IsWord(cur)
    ensures Lex(line, pos, false, cur, toks) == toks + Words(cur + line[pos..]) + [""]
    decreases |line| - pos, 1
  {
    if pos == |line| {
      assert cur + line[pos..] == cur;
      if cur != [] {
        WordsAfterWord(cur, []);
        assert cur + [] == cur;
      }
    } else if line[pos] == ' ' {
      LexPlainSpace(line, pos, cur, toks);
    } else {
      LexPlainChar(line, pos, cur, toks);
    }
  }

  lemma {:induction false} LexPlainSpace(line: string, pos: nat, cur: string, toks: seq<string>)
    requires pos < |line| && Plain(line) && line[pos] == ' '
    requires cur == [] || IsWord(cur)
    ensures Lex(line, pos, false, cur, toks) == toks + Words(cur + line[pos..]) + [""]
    decreases |line| - pos, 0
  {
    var rest := line[pos + 1..];
    assert line[pos..] == [' '] + rest;
    if cur != [] {
      assert Lex(line, pos, false, cur, toks) == Lex(line, pos + 1, false, [], toks + [cur]);
      LexPlain(line, pos + 1, [], toks + [cur]);
      assert [] + rest == rest;
      WordsAfterWord(cur, line[pos..]);
    } else {
      assert Lex(line, pos, false, cur, toks) == Lex(line, pos + 1, false, [], toks);
      LexPlain(line, pos + 1, [], toks);
      assert [] + rest == rest;
      assert cur + line[pos..] == [' '] + rest;
    }
  }

  lemma {:induction false} LexPlainChar(line: string, pos: nat, cur: string, toks: seq<string>)
    requires pos < |line| && Plain(line) && line[pos] != ' '
    requires cur == [] || IsWord(cur)
    ensures Lex(line, pos, false, cur, toks) == toks + Words(cur + line[pos..]) + [""]
    decreases |line| - pos, 0
  {
    var c := line[pos];
    assert c in line;
    var rest := line[pos + 1..];
    assert line[pos..] == [c] + rest;
    assert ' ' !in cur + [c];
    LexPlain(line, pos + 1, cur + [c], toks);
    assert cur + [c] + rest == cur + line[pos..];
  }

  /**
   * On a line with no quote, no backslash and no NUL, the tokens are exactly
   * the maximal non-space runs in order: only the space splits (a tab or `|`
   * does not), and runs of spaces are skipped.
   */
  lemma PlainLineTokens(line: string)
    requires Plain(line)
    ensures Tokenize(line) == Words(line) + [""]
  {
    LexPlain(line, 0, [], []);
    assert [] + line[0..] == line;
  }

  /** Splitting a space-joined list of words gives the words back. */
  lemma {:induction false} WordsOfJoin(ws: seq<string>)
    requires forall i :: 0 <= i < |ws| ==> IsWord(ws[i])
    ensures Words(Join(ws)) == ws
    decreases |ws|
  {
    if ws == [] {
    } else if |ws| == 1 {
      WordsAfterWord(ws[0], []);
      assert ws[0] + [] == ws[0];
    } else {
      WordsOfJoin(ws[1..]);
      var t := " " + Join(ws[1..]);
      assert ws[0] + " " + Join(ws[1..]) == ws[0] + t;
      WordsAfterWord(ws[0], t);
      assert t[1..] == Join(ws[1..]);
    }
  }

  lemma {:induction false} JoinPlain(ws: seq<string>)
    requires forall i :: 0 <= i < |ws| ==> Plain(ws[i])
    ensures Plain(Join(ws))
    decreases |ws|
  {
    if |ws| > 1 {
      JoinPlain(ws[1..]);
      var j := ws[0] + " " + Join(ws[1..]);
      forall c | c in j ensures c != '"' && c != '\\' && c != '\0' {
        var k :| 0 <= k < |j| && j[k] == c;
        if k < |ws[0]| {
          assert c in ws[0];
        } else if k > |ws[0]| {
          assert c == Join(ws[1..])[k - |ws[0]| - 1];
        }
      }
    }
  }

  /**
   * Round trip: joining plain words with single spaces and tokenizing the
   * result gives those words back, followed by the sentinel.
   */
  lemma TokenizeJoin(ws: seq<string>)
    requires forall i :: 0 <= i < |ws| ==> IsWord(ws[i]) && Plain(ws[i])
    ensures Tokenize(Join(ws)) == ws + [""]
  {
    JoinPlain(ws);
    PlainLineTokens(Join(ws));
    WordsOfJoin(ws);
  }

  // ---------------------------------------------------------------------
  // Escapes.

  /**
   * A backslash before n, r, \, " or ' appends "\r\n", "\r" or the character
   * itself; before anything else it is dropped and the next character is read
   * as if it stood alone.
   */
  lemma EscapeRules(line: string, pos: nat, quoted: bool, cur: string, toks: seq<string>)
    requires pos + 1 < |line| && line[pos] == '\\'
    ensures KnownEscape(line[pos + 1]) ==>
      Lex(line, pos, quoted, cur, toks) == Lex(line, pos + 2, quoted, cur + EscapeText(line[pos + 1]), toks)
    ensures !KnownEscape(line[pos + 1]) ==>
      Lex(line, pos, quoted, cur, toks) == Lex(line, pos + 1, quoted, cur, toks)
  {
  }

  /** Outside quotes, a run with no space and nothing special is copied into the current token. */
  lemma {:induction false} LexWordRun(line: string, pos: nat, k: nat, cur: string, toks: seq<string>)
    requires pos + k <= |line| && Plain(line[pos..pos + k]) && ' ' !in line[pos..pos + k]
    ensures Lex(line, pos, false, cur, toks) == Lex(line, pos + k, false, cur + line[pos..pos + k], toks)
    decreases k
  {
    if k > 0 {
      assert line[pos] in line[pos..pos + k];
      assert line[pos + 1..pos + k] == line[pos..pos + k][1..];
      LexWordRun(line, pos + 1, k - 1, cur + [line[pos]], toks);
      assert cur + [line[pos]] + line[pos + 1..pos + k] == cur + line[pos..pos + k];
    } else {
      assert cur + line[pos..pos + k] == cur;
    }
  }

  /** The tokenizer only looks ahead: two lines with the same rest give the same tokens. */
  lemma {:induction false} LexSameRest(l1: string, p1: nat, l2: string, p2: nat, quoted: bool, cur: string, toks: seq<string>)
    requires p1 <= |l1| && p2 <= |l2| && l1[p1..] == l2[p2..]
    ensures Lex(l1, p1, quoted, cur, toks) == Lex(l2, p2, quoted, cur, toks)
    decreases |l1| - p1
  {
    assert |l1| - p1 == |l2| - p2;
    if p1 < |l1| {
      assert l1[p1] == l1[p1..][0] == l2[p2..][0] == l2[p2];
    }
    if p1 + 1 < |l1| {
      assert l1[p1 + 1] == l1[p1..][1] == l2[p2..][1] == l2[p2 + 1];
    }
    assert At(l1, p1) == At(l2, p2);
    assert At(l1, p1 + 1) == At(l2, p2 + 1);
    var c := At(l1, p1);
    if c != '\0' {
      assert l1[p1 + 1..] == l2[p2 + 1..];
      if c == '\\' && KnownEscape(At(l1, p1 + 1)) {
        assert l1[p1 + 2..] == l2[p2 + 2..];
        LexSameRest(l1, p1 + 2, l2, p2 + 2, quoted, cur + EscapeText(At(l1, p1 + 1)), toks);
      } else if c == '"' {
        LexSameRest(l1, p1 + 1, l2, p2 + 1, !quoted, cur, toks);
      } else if c == '\\' {
        LexSameRest(l1, p1 + 1, l2, p2 + 1, quoted, cur, toks);
      } else if c == ' ' && !quoted {
        if cur != [] {
          LexSameRest(l1, p1 + 1, l2, p2 + 1, quoted, [], toks + [cur]);
        } else {
          LexSameRest(l1, p1 + 1, l2, p2 + 1, quoted, cur, toks);
        }
      } else {
        LexSameRest(l1, p1 + 1, l2, p2 + 1, quoted, cur + [c], toks);
      }
    }
  }

  /**
   * Inside a word, `\n` becomes "\r\n", `\r` becomes "\r" and `\\`, `\"`,
   * `\'` become the escaped character: the word stays one token.
   */
  lemma EscapeInWord(u: string, e: char, v: string)
    requires Plain(u) && Plain(v) && ' ' !in u + v && KnownEscape(e)
    ensures Tokenize(u + ['\\', e] + v) == [u + EscapeText(e) + v, ""]
    ensures e == 'n' ==> Tokenize(u + ['\\', e] + v) == [u + "\r\n" + v, ""]
    ensures e == 'r' ==> Tokenize(u + ['\\', e] + v) == [u + "\r" + v, ""]
    ensures e != 'n' && e != 'r' ==> Tokenize(u + ['\\', e] + v) == [u + [e] + v, ""]
  {
    assert ' ' !in u && ' ' !in v by {
      assert forall x :: x in u ==> x in u + v;
      assert forall x :: x in v ==> x in u + v;
    }
    EscapeBetween(u, e, v);
  }

  lemma EscapeBetween(u: string, e: char, v: string)
    requires Plain(u) && Plain(v) && ' ' !in u && ' ' !in v && KnownEscape(e)
    ensures Tokenize(u + ['\\', e] + v) == [u + EscapeText(e) + v, ""]
  {
    var line := u + ['\\', e] + v;
    var m := |u| + 2;
    assert line[0..|u|] == u && line[|u|] == '\\' && line[|u| + 1] == e;
    assert line[m..m + |v|] == v && m + |v| == |line|;
    LexWordRun(line, 0, |u|, [], []);
    assert [] + u == u;
    EscapeRules(line, |u|, false, u, []);
    LexWordRun(line, m, |v|, u + EscapeText(e), []);
  }

  /**
   * Before any other character (not NUL), a backslash is simply dropped: the
   * line reads as if it were not there.
   */
  lemma UnknownEscapeDropped(u: string, c: char, v: string)
    requires Plain(u) && ' ' !in u && c != '\0' && !KnownEscape(c)
    ensures Tokenize(u + ['\\', c] + v) == Tokenize(u + [c] + v)
  {
    var l1 := u + ['\\', c] + v;
    var l2 := u + [c] + v;
    assert l1[0..|u|] == u && l2[0..|u|] == u;
    assert l1[|u|] == '\\' && l1[|u| + 1] == c;
    LexWordRun(l1, 0, |u|, [], []);
    LexWordRun(l2, 0, |u|, [], []);
    assert Lex(l1, |u|, false, [] + u, []) == Lex(l1, |u| + 1, false, [] + u, []);
    assert l1[|u| + 1..] == [c] + v == l2[|u|..];
    LexSameRest(l1, |u| + 1, l2, |u|, false, [] + u, []);
  }

  /** A backslash at the end of the line adds nothing. */
  lemma TrailingBackslashVanishes(line: string, quoted: bool, cur: string, toks: seq<string>)
    requires |line| > 0 && line[|line| - 1] == '\\'
    ensures Lex(line, |line| - 1, quoted, cur, toks) == Lex(line, |line|, quoted, cur, toks)
  {
  }

  // ---------------------------------------------------------------------
  // Examples.

  lemma EchoHelloWorld()
    ensures Tokenize("echo hello world") == ["echo", "hello", "world", ""]
  {
    var ws := ["echo", "hello", "world"];
    assert Join(ws) == "echo hello world";
    TokenizeJoin(ws);
  }

  /** An escaped space still splits outside quotes, and a final backslash vanishes. */
  lemma EscapedSpaceSplits()
    ensures Tokenize("x\\ y\\") == ["x", "y", ""]
  {
    var l := "x\\ y\\";
    assert [] + [l[0]] == "x";
    assert [] + [l[3]] == "y";
    assert Lex(l, 0, false, [], []) == Lex(l, 1, false, "x", []);
    assert Lex(l, 1, false, "x", []) == Lex(l, 2, false, "x", []);
    assert Lex(l, 2, false, "x", []) == Lex(l, 3, false, "", ["x"]);
    assert Lex(l, 3, false, "", ["x"]) == Lex(l, 4, false, "y", ["x"]);
    assert Lex(l, 4, false, "y", ["x"]) == Lex(l, 5, false, "y", ["x"]);
  }

  /** An escaped backslash collapses to one, inside a word. */
  lemma EscapedBackslash()
    ensures Tokenize("a\\\\b c") == ["a\\b", "c", ""]
  {
    var l := "a\\\\b c";
    assert [] + [l[0]] == "a";
    assert "a" + EscapeText('\\') == "a\\";
    assert "a\\" + [l[3]] == "a\\b";
    assert [] + [l[5]] == "c";
    assert Lex(l, 0, false, [], []) == Lex(l, 1, false, "a", []);
    assert Lex(l, 1, false, "a", []) == Lex(l, 3, false, "a\\", []);
    assert Lex(l, 3, false, "a\\", []) == Lex(l, 4, false, "a\\b", []);
    assert Lex(l, 4, false, "a\\b", []) == Lex(l, 5, false, "", ["a\\b"]);
    assert Lex(l, 5, false, "", ["a\\b"]) == Lex(l, 6, false, "c", ["a\\b"]);
  }

  /** A space inside quotes stays in its token; the quotes themselves are dropped. */
  lemma EchoQuoted()
    ensures Tokenize("echo \"a b\" c") == ["echo", "a b", "c", ""]
  {
    var l := "echo \"a b\" c";
    assert [] + [l[0]] == "e" && "e" + [l[1]] == "ec" && "ec" + [l[2]] == "ech" && "ech" + [l[3]] == "echo";
    assert [] + [l[6]] == "a" && "a" + [l[7]] == "a " && "a " + [l[8]] == "a b";
    assert [] + [l[11]] == "c";
    assert Lex(l, 0, false, [], []) == Lex(l, 4, false, "echo", []);
    assert Lex(l, 4, false, "echo", []) == Lex(l, 6, true, "", ["echo"]);
    assert Lex(l, 6, true, "", ["echo"]) == Lex(l, 9, true, "a b", ["echo"]);
    assert Lex(l, 9, true, "a b", ["echo"]) == Lex(l, 11, false, "", ["echo", "a b"]);
    assert Lex(l, 11, false, "", ["echo", "a b"]) == Lex(l, 12, false, "c", ["echo", "a b"]);
  }

  /** An escaped double quote is kept as a character instead of opening a quote. */
  lemma EscapedQuote()
    ensures Tokenize("\\\"") == ["\"", ""]
  {
    EscapeInWord("", '"', "");
    assert "" + ['\\', '"'] + "" == "\\\"";
    assert "" + EscapeText('"') + "" == "\"";
  }
}
