/**
 Scripts for a remote shell (escape_shell, ssh_raw and ssh_cmd in platform/spire/src/setup.py), and how a
 shell reads them: quoting and token recognition by sections 2.2.2, 2.2.3 and 2.3 of the Shell Command
 Language in IEEE Std 1003.1-2017.
 */
module Shell {
  import opened Text

  // ---- The shell ----

  // A quoted word is never taken for a reserved word or an operator.
  datatype Token = Word(text: string, quoted: bool) | Op(text: string)

  datatype Mode = Unquoted | SingleQuoted | DoubleQuoted

  // The word that is being read, if any.
  datatype Partial = NoWord | Part(text: string, quoted: bool)

  function Finish(w: Partial): seq<Token> {
    match w
    case NoWord => []
    case Part(text, quoted) => [Word(text, quoted)]
  }

  function Extend(w: Partial, c: char): Partial {
    match w
    case NoWord => Part([c], false)
    case Part(text, quoted) => Part(text + [c], quoted)
  }

  function Quote(w: Partial): Partial {
    match w
    case NoWord => Part("", true)
    case Part(text, _) => Part(text, true)
  }

  datatype Reading = Tokens(tokens: seq<Token>) | Incomplete | NotModelled

  function Then(first: seq<Token>, rest: Reading): Reading {
    match rest
    case Tokens(tokens) => Tokens(first + tokens)
    case _ => rest
  }

  predicate IsOperator(c: char) {
    c == '(' || c == ')' || c == '<' || c == '>' || c == '&' || c == '|' || c == ';' || c == '\n'
  }

  // Pairs of operator characters that make one operator.
  predicate IsPair(a: char, b: char) {
    match a
    case '&' => b == '&'
    case '|' => b == '|'
    case ';' => b == ';'
    case '<' => b == '&' || b == '>'
    case '>' => b == '>' || b == '&' || b == '|'
    case _ => false
  }

  // Unquoted characters that can call for expansions, patterns, comments or assignments.
  predicate IsSpecial(c: char) {
    || c == '$' || c == '`' || c == '\\' || c == '*' || c == '?' || c == '[' || c == '#' || c == '~'
    || c == '=' || c == '%' || c == '!' || c == '{' || c == '}'
  }

  // A here-document, begun by <<, takes lines of its own and is not modelled.
  function Lex(s: string, mode: Mode, w: Partial): Reading
    decreases |s|
  {
    if s == "" then (if mode == Unquoted then Tokens(Finish(w)) else Incomplete)
    else
      var c, rest := s[0], s[1..];
      match mode
      case SingleQuoted => if c == '\'' then Lex(rest, Unquoted, w) else Lex(rest, SingleQuoted, Extend(w, c))
      case DoubleQuoted =>
        if c == '"' then Lex(rest, Unquoted, w)
        else if c == '$' || c == '`' || c == '\\' then NotModelled
        else Lex(rest, DoubleQuoted, Extend(w, c))
      case Unquoted =>
        if c == '\'' then Lex(rest, SingleQuoted, Quote(w))
        else if c == '"' then Lex(rest, DoubleQuoted, Quote(w))
        else if c == ' ' || c == '\t' then Then(Finish(w), Lex(rest, Unquoted, NoWord))
        else if c == '<' && rest != "" && rest[0] == '<' then NotModelled
        else if IsOperator(c) then
          if rest != "" && IsPair(c, rest[0])
          then Then(Finish(w) + [Op([c, rest[0]])], Lex(rest[1..], Unquoted, NoWord))
          else Then(Finish(w) + [Op([c])], Lex(rest, Unquoted, NoWord))
        else if IsSpecial(c) then NotModelled
        else Lex(rest, Unquoted, Extend(w, c))
  }

  function ReadScript(script: string): Reading {
    Lex(script, Unquoted, NoWord)
  }

  // ---- The scripts ----

  // param.replace("'", "'\"'\"'")
  function Replaced(param: string): string {
    if param == "" then ""
    else (if param[0] == '\'' then "'\"'\"'" else [param[0]]) + Replaced(param[1..])
  }

  function EscapeShell(param: string): string {
    "'" + Replaced(param) + "'"
  }

  function Escaped(argv: seq<string>): seq<string> {
    if argv == [] then [] else [EscapeShell(argv[0])] + Escaped(argv[1..])
  }

  // The script of ssh_cmd without a directory or a redirection.
  function CommandLine(argv: seq<string>): string {
    Join(Escaped(argv), " ")
  }

  // ssh_raw; as in Python, an empty path counts as none.
  method SshRaw(script: string, inDirectory: string, redirectTo: string) returns (sent: string)
    ensures sent == InDirectory(inDirectory, Redirected(redirectTo, script))
  {
    sent := script;
    if redirectTo != "" { sent := "(" + sent + ") >" + EscapeShell(redirectTo); }
    if inDirectory != "" { sent := "cd " + EscapeShell(inDirectory) + " && " + sent; }
  }

  method SshCmd(argv: seq<string>, inDirectory: string, redirectTo: string) returns (sent: string)
    ensures ReadScript(sent) == Tokens(Intended(argv, inDirectory, redirectTo))
  {
    sent := SshRaw(CommandLine(argv), inDirectory, redirectTo);
    CommandIsRead(argv, inDirectory, redirectTo);
  }

  function Redirected(path: string, script: string): string {
    if path == "" then script else "(" + script + ") >" + EscapeShell(path)
  }

  function InDirectory(path: string, script: string): string {
    if path == "" then script else "cd " + EscapeShell(path) + " && " + script
  }

  // ---- What the shell should see ----

  function Words(argv: seq<string>): seq<Token> {
    if argv == [] then [] else [Word(argv[0], true)] + Words(argv[1..])
  }

  function RedirectedTokens(path: string, tokens: seq<Token>): seq<Token> {
    if path == "" then tokens else [Op("(")] + tokens + [Op(")"), Op(">"), Word(path, true)]
  }

  function InDirectoryTokens(path: string, tokens: seq<Token>): seq<Token> {
    if path == "" then tokens else [Word("cd", false), Word(path, true), Op("&&")] + tokens
  }

  function Intended(argv: seq<string>, inDirectory: string, redirectTo: string): seq<Token> {
    InDirectoryTokens(inDirectory, RedirectedTokens(redirectTo, Words(argv)))
  }

  // ---- Proofs ----

  // Inside single quotes, a replaced text adds exactly itself to the word.
  lemma {:induction false} ReplacedIsRead(param: string, before: string, rest: string)
    ensures Lex(Replaced(param) + rest, SingleQuoted, Part(before, true)) ==
            Lex(rest, SingleQuoted, Part(before + param, true))
  {
    if param == "" {
      assert Replaced(param) + rest == rest && before + param == before;
    } else {
      var c := param[0];
      ReplacedIsRead(param[1..], before + [c], rest);
      assert before + [c] + param[1..] == before + param;
      var after := Replaced(param[1..]) + rest;
      if c == '\'' {
        QuoteIsRead(before, after);
        assert Replaced(param) + rest == "'\"'\"'" + after;
      } else {
        assert Replaced(param) + rest == [c] + after;
        assert ([c] + after)[1..] == after;
      }
    }
  }

  lemma QuoteIsRead(before: string, after: string)
    ensures Lex("'\"'\"'" + after, SingleQuoted, Part(before, true)) == Lex(after, SingleQuoted, Part(before + "'", true))
  {
    var s0 := "'\"'\"'" + after;
    var s1, s2, s3, s4 := s0[1..], s0[2..], s0[3..], s0[4..];
    assert s1 == "\"'\"'" + after && s2 == "'\"'" + after && s3 == "\"'" + after && s4 == "'" + after;
    assert s1[1..] == s2 && s2[1..] == s3 && s3[1..] == s4 && s4[1..] == after;
    var w := Part(before, true);
    assert Lex(s0, SingleQuoted, w) == Lex(s1, Unquoted, w);
    assert Lex(s1, Unquoted, w) == Lex(s2, DoubleQuoted, w);
    assert Lex(s2, DoubleQuoted, w) == Lex(s3, DoubleQuoted, Part(before + "'", true));
    assert Lex(s3, DoubleQuoted, Part(before + "'", true)) == Lex(s4, Unquoted, Part(before + "'", true));
  }

  /** An escaped parameter is one word, whatever its characters, up to the next delimiter. */
  lemma EscapedIsRead(param: string, rest: string)
    ensures Lex(EscapeShell(param) + rest, Unquoted, NoWord) == Lex(rest, Unquoted, Part(param, true))
  {
    var s := EscapeShell(param) + rest;
    assert s[1..] == Replaced(param) + ("'" + rest);
    ReplacedIsRead(param, "", "'" + rest);
    assert "" + param == param;
    assert ("'" + rest)[1..] == rest;
  }

  // A blank or an operator ends a word.
  lemma {:induction false} ArgvIsRead(argv: seq<string>, rest: string)
    requires argv != []
    ensures Lex(CommandLine(argv) + rest, Unquoted, NoWord) ==
            Then(Words(argv[..|argv| - 1]), Lex(rest, Unquoted, Part(argv[|argv| - 1], true)))
  {
    if |argv| == 1 {
      EscapedIsRead(argv[0], rest);
      assert CommandLine(argv) == EscapeShell(argv[0]);
      assert argv[..0] == [];
      ThenNothing(Lex(rest, Unquoted, Part(argv[0], true)));
    } else {
      var tail := CommandLine(argv[1..]) + rest;
      assert Escaped(argv) == [EscapeShell(argv[0])] + Escaped(argv[1..]) && |Escaped(argv[1..])| > 0;
      assert CommandLine(argv) + rest == EscapeShell(argv[0]) + (" " + tail);
      EscapedIsRead(argv[0], " " + tail);
      assert (" " + tail)[1..] == tail;
      ArgvIsRead(argv[1..], rest);
      var init := argv[..|argv| - 1];
      assert argv[1..][..|argv| - 2] == init[1..] && init[0] == argv[0];
      ThenThen([Word(argv[0], true)], Words(init[1..]), Lex(rest, Unquoted, Part(argv[|argv| - 1], true)));
    }
  }

  lemma ThenNothing(r: Reading)
    ensures Then([], r) == r
  {
  }

  lemma ThenThen(a: seq<Token>, b: seq<Token>, r: Reading)
    ensures Then(a, Then(b, r)) == Then(a + b, r)
  {
    match r
    case Tokens(tokens) => assert a + (b + tokens) == a + b + tokens;
    case _ =>
  }

  lemma {:induction false} WordsSnoc(argv: seq<string>)
    requires argv != []
    ensures Words(argv) == Words(argv[..|argv| - 1]) + [Word(argv[|argv| - 1], true)]
  {
    if |argv| > 1 {
      WordsSnoc(argv[1..]);
      assert argv[1..][..|argv| - 2] == argv[..|argv| - 1][1..];
    } else {
      assert argv[1..] == [] && argv[..0] == [];
    }
  }

  /**
   A delimiter ends whatever a complete script was reading: the tokens of the script, and then those of the
   rest.  It must not be able to extend the script's last operator.
   */
  lemma {:induction false} ScriptThenParenthesis(s: string, rest: string, mode: Mode, w: Partial)
    requires Lex(s, mode, w).Tokens? && rest != "" && rest[0] == ')'
    ensures Lex(s + rest, mode, w) == Then(Lex(s, mode, w).tokens, Lex(rest, Unquoted, NoWord))
    decreases |s|
  {
    if s == "" {
      assert s + rest == rest;
      CloseEndsWord(rest, w);
    } else {
      var c, tail := s[0], s[1..];
      assert (s + rest)[0] == c && (s + rest)[1..] == tail + rest;
      var after := Lex(rest, Unquoted, NoWord);
      match mode {
        case SingleQuoted =>
          if c == '\'' { ScriptThenParenthesis(tail, rest, Unquoted, w); }
          else { ScriptThenParenthesis(tail, rest, SingleQuoted, Extend(w, c)); }
        case DoubleQuoted =>
          if c == '"' { ScriptThenParenthesis(tail, rest, Unquoted, w); }
          else { ScriptThenParenthesis(tail, rest, DoubleQuoted, Extend(w, c)); }
        case Unquoted => ScriptStep(s, rest, w);
      }
    }
  }

  lemma {:induction false} ScriptStep(s: string, rest: string, w: Partial)
    requires s != "" && Lex(s, Unquoted, w).Tokens? && rest != "" && rest[0] == ')'
    ensures Lex(s + rest, Unquoted, w) == Then(Lex(s, Unquoted, w).tokens, Lex(rest, Unquoted, NoWord))
    decreases |s|, 0
  {
    var c, tail := s[0], s[1..];
    assert (s + rest)[0] == c && (s + rest)[1..] == tail + rest;
    var after := Lex(rest, Unquoted, NoWord);
    if c == '\'' {
      ScriptThenParenthesis(tail, rest, SingleQuoted, Quote(w));
    } else if c == '"' {
      ScriptThenParenthesis(tail, rest, DoubleQuoted, Quote(w));
    } else if c == ' ' || c == '\t' {
      ScriptThenParenthesis(tail, rest, Unquoted, NoWord);
      ThenThen(Finish(w), Lex(tail, Unquoted, NoWord).tokens, after);
    } else if IsOperator(c) {
      if tail != "" && IsPair(c, tail[0]) {
        assert (tail + rest)[1..] == tail[1..] + rest;
        ScriptThenParenthesis(tail[1..], rest, Unquoted, NoWord);
        ThenThen(Finish(w) + [Op([c, tail[0]])], Lex(tail[1..], Unquoted, NoWord).tokens, after);
      } else {
        NoPair(c, tail, rest);
        ScriptThenParenthesis(tail, rest, Unquoted, NoWord);
        ThenThen(Finish(w) + [Op([c])], Lex(tail, Unquoted, NoWord).tokens, after);
      }
    } else {
      ScriptThenParenthesis(tail, rest, Unquoted, Extend(w, c));
    }
  }

  lemma NoPair(c: char, tail: string, rest: string)
    requires rest != "" && rest[0] == ')' && (tail == "" || !IsPair(c, tail[0]))
    ensures !IsPair(c, (tail + rest)[0])
  {
  }

  lemma CloseEndsWord(rest: string, w: Partial)
    requires rest != "" && rest[0] == ')'
    ensures Lex(rest, Unquoted, w) == Then(Finish(w), Lex(rest, Unquoted, NoWord))
  {
    ThenThen(Finish(w), [Op(")")], Lex(rest[1..], Unquoted, NoWord));
  }

  lemma RedirectIsRead(path: string)
    ensures Lex(") >" + EscapeShell(path), Unquoted, NoWord) == Tokens([Op(")"), Op(">"), Word(path, true)])
  {
    var q := EscapeShell(path);
    var s := ") >" + q;
    assert s[1..] == " >" + q && s[1..][1..] == ">" + q && s[1..][1..][1..] == q;
    EscapedIsRead(path, "");
    assert q + "" == q;
    assert q[0] == '\'';
    assert Lex(q, Unquoted, NoWord) == Tokens([Word(path, true)]);
    assert Lex(">" + q, Unquoted, NoWord) == Then([Op(">")], Lex(q, Unquoted, NoWord));
    assert Lex(" >" + q, Unquoted, NoWord) == Then([], Lex(">" + q, Unquoted, NoWord));
    assert Lex(s, Unquoted, NoWord) == Then([Op(")")], Lex(" >" + q, Unquoted, NoWord));
  }

  lemma OpenIsRead(rest: string)
    ensures Lex("(" + rest, Unquoted, NoWord) == Then([Op("(")], Lex(rest, Unquoted, NoWord))
  {
    assert ("(" + rest)[1..] == rest;
  }

  lemma CdIsRead(rest: string)
    ensures Lex("cd " + rest, Unquoted, NoWord) == Then([Word("cd", false)], Lex(rest, Unquoted, NoWord))
  {
    var s := "cd " + rest;
    assert s[0] == 'c' && s[1..][0] == 'd' && s[2..][0] == ' ' && s[1..][1..] == s[2..] && s[2..][1..] == rest;
    assert "c" + ['d'] == "cd";
    assert Lex(s[2..], Unquoted, Part("cd", false)) == Then([Word("cd", false)], Lex(rest, Unquoted, NoWord));
    assert Lex(s[1..], Unquoted, Part("c", false)) == Lex(s[2..], Unquoted, Part("cd", false));
  }

  /** Any script that the shell can read alone is, with a redirection, read in a subshell. */
  lemma RedirectedIsRead(script: string, path: string)
    requires ReadScript(script).Tokens?
    ensures ReadScript(Redirected(path, script)) == Tokens(RedirectedTokens(path, ReadScript(script).tokens))
  {
    if path != "" {
      var rest := ") >" + EscapeShell(path);
      assert Redirected(path, script) == "(" + (script + rest);
      OpenIsRead(script + rest);
      ScriptThenParenthesis(script, rest, Unquoted, NoWord);
      RedirectIsRead(path);
    }
  }

  /** Any such script can be preceded by a change of directory. */
  lemma InDirectoryIsRead(script: string, path: string)
    requires ReadScript(script).Tokens?
    ensures ReadScript(InDirectory(path, script)) == Tokens(InDirectoryTokens(path, ReadScript(script).tokens))
  {
    if path != "" { CdThenScript(script, path, EscapeShell(path), " && " + script); }
  }

  lemma CdThenScript(script: string, path: string, quoted: string, rest: string)
    requires ReadScript(script).Tokens? && quoted == EscapeShell(path) && rest == " && " + script
    ensures ReadScript("cd " + quoted + " && " + script) ==
            Tokens([Word("cd", false), Word(path, true), Op("&&")] + ReadScript(script).tokens)
  {
    assert "cd " + quoted + " && " + script == "cd " + (quoted + rest);
    CdIsRead(quoted + rest);
    EscapedIsRead(path, rest);
    AndIsRead(script, path);
    InFront(Word("cd", false), [Word(path, true), Op("&&")], ReadScript(script).tokens);
  }

  lemma InFront(first: Token, more: seq<Token>, tokens: seq<Token>)
    ensures Then([first], Tokens(more + tokens)) == Tokens([first] + more + tokens)
  {
    assert [first] + (more + tokens) == [first] + more + tokens;
  }

  lemma AndIsRead(script: string, path: string)
    requires ReadScript(script).Tokens?
    ensures Lex(" && " + script, Unquoted, Part(path, true)) ==
            Tokens([Word(path, true), Op("&&")] + ReadScript(script).tokens)
  {
    var s := " && " + script;
    var s1, s3 := s[1..], s[3..];
    assert s1[0] == '&' && s1[1] == '&' && s1[1..][1..] == s3 && s3[1..] == script && s3[0] == ' ';
    assert Lex(s3, Unquoted, NoWord) == Then([], ReadScript(script));
    assert Lex(s1, Unquoted, NoWord) == Then([Op("&&")], Lex(s3, Unquoted, NoWord));
  }

  /**
   The shell reads back exactly the arguments, the directory and the file, whatever characters they have.
   */
  lemma CommandIsRead(argv: seq<string>, inDirectory: string, redirectTo: string)
    ensures ReadScript(InDirectory(inDirectory, Redirected(redirectTo, CommandLine(argv)))) ==
            Tokens(Intended(argv, inDirectory, redirectTo))
  {
    var line := CommandLine(argv);
    if argv != [] {
      ArgvIsRead(argv, "");
      assert line + "" == line;
      WordsSnoc(argv);
    }
    RedirectedIsRead(line, redirectTo);
    InDirectoryIsRead(Redirected(redirectTo, line), inDirectory);
  }
}
