/** How a POSIX shell reads the double-quoted word the composer builds
    (section 2.2.3 of the POSIX Shell Command Language): inside double quotes
    a backslash escapes only `$`, backquote, `"`, backslash and newline, and an
    unescaped `$` or backquote starts an expansion.

    The source escapes only `"` (src/gitMenuCommands.ts, lines 64 and 85), so
    a path with a backslash, `$` or backquote does not come back as itself.
    `SafeEscape` escapes all four characters and does round-trip. */
module ShellQuoting {
  import opened Wrappers
  import opened Quoting
  import Composer

  /** What reading a double-quoted word, from just after its opening quote,
      yields: the literal value and the text after the closing quote; or no
      closing quote at all; or an expansion, whose value depends on the
      shell's environment rather than on the text. */
  datatype Reading = Read(value: string, rest: string) | Unterminated | Expansion

  predicate Escapable(c: char)
  {
    c == '$' || c == '`' || c == Quote || c == Backslash || c == '\n'
  }

  function Prepend(c: char, r: Reading): Reading
  {
    match r
    case Read(v, rest) => Read([c] + v, rest)
    case _ => r
  }

  /** Reads a double-quoted word starting just after its opening quote. */
  function ReadDoubleQuoted(t: string): Reading
    decreases |t|
  {
    if t == [] then Unterminated
    else if t[0] == Quote then Read([], t[1..])
    else if t[0] == '$' || t[0] == '`' then Expansion
    else if t[0] == Backslash && |t| >= 2 && Escapable(t[1]) then
      if t[1] == '\n' then ReadDoubleQuoted(t[2..])
      else Prepend(t[1], ReadDoubleQuoted(t[2..]))
    else Prepend(t[0], ReadDoubleQuoted(t[1..]))
  }

  /** One step of the reader over an escaped character. */
  lemma ReadEscapedStep(c: char, tail: string)
    requires Escapable(c) && c != '\n'
    ensures ReadDoubleQuoted([Backslash, c] + tail) == Prepend(c, ReadDoubleQuoted(tail))
  {
    assert ([Backslash, c] + tail)[2..] == tail;
  }

  /** One step of the reader over an ordinary character. */
  lemma ReadPlainStep(c: char, tail: string)
    requires c != Quote && c != Backslash && c != '$' && c != '`'
    ensures ReadDoubleQuoted([c] + tail) == Prepend(c, ReadDoubleQuoted(tail))
  {
    assert ([c] + tail)[1..] == tail;
  }

  /** No character the shell treats specially inside double quotes, apart
      from the quote itself. */
  predicate PlainPath(p: string)
  {
    forall i :: 0 <= i < |p| ==> p[i] != Backslash && p[i] != '$' && p[i] != '`'
  }

  /** A plain path's first character is ordinary and its tail is plain. */
  lemma PlainPathTail(p: string)
    requires p != [] && PlainPath(p)
    ensures PlainPath(p[1..])
    ensures p[0] != Backslash && p[0] != '$' && p[0] != '`'
  {
    forall i | 0 <= i < |p[1..]| ensures p[1..][i] != Backslash && p[1..][i] != '$' && p[1..][i] != '`' {
      assert p[1..][i] == p[i + 1];
    }
  }

  /** The escaped path followed by the closing quote and the rest of the
      line, with its first character split off. */
  lemma EscapedLineHead(p: string, rest: string)
    requires p != []
    ensures EscapeQuotes(p) + [Quote] + rest
            == (if p[0] == Quote then [Backslash, Quote] else [p[0]]) + (EscapeQuotes(p[1..]) + [Quote] + rest)
  {
    var head := if p[0] == Quote then [Backslash, Quote] else [p[0]];
    var e := EscapeQuotes(p[1..]);
    assert EscapeQuotes(p) == head + e;
    Regroup(head, e, rest);
  }

  /** Regrouping a concatenation around its first piece. */
  lemma Regroup(head: string, e: string, rest: string)
    ensures head + e + [Quote] + rest == head + (e + [Quote] + rest)
  {
  }

  /** As written, the escaping is enough for plain paths: the shell reads
      the quoted word back as the path, and the rest of the line is left
      alone. (Some paths that are not plain, such as `a\b`, also read back;
      the counterexamples below are ones that do not.) */
  lemma {:induction false} EscapeQuotesReadsBackPlainPath(p: string, rest: string)
    requires PlainPath(p)
    ensures ReadDoubleQuoted(EscapeQuotes(p) + [Quote] + rest) == Read(p, rest)
  {
    if p == [] {
      assert EscapeQuotes(p) + [Quote] + rest == [Quote] + rest;
    } else {
      var tail := EscapeQuotes(p[1..]) + [Quote] + rest;
      PlainPathTail(p);
      EscapeQuotesReadsBackPlainPath(p[1..], rest);
      EscapedLineHead(p, rest);
      if p[0] == Quote {
        ReadEscapedStep(Quote, tail);
      } else {
        ReadPlainStep(p[0], tail);
      }
    }
  }

  /** As written, the path `a\` ends in a backslash that escapes the closing
      quote of the `gitTerminal` line: the shell sees no end to the directory
      name. */
  lemma TrailingBackslashUnterminated()
    ensures ReadDoubleQuoted(Composer.OpenTerminalLine("a\\")[4..]) == Unterminated
  {
    EscapeWithoutQuotes("a\\");
    var line := Composer.OpenTerminalLine("a\\");
    assert line == Composer.ChangeDirectoryOpen + ['a', Backslash, Quote, '\n'];
    assert line[4..] == ['a'] + ([Backslash, Quote] + "\n");
    assert PlainPath("\n") && CountQuotes("\n") == 0;
    NoClosingQuote("\n");
    ReadEscapedStep(Quote, "\n");
    ReadPlainStep('a', [Backslash, Quote] + "\n");
  }

  /** Text with no quote and nothing special never closes the word. */
  lemma {:induction false} NoClosingQuote(t: string)
    requires PlainPath(t) && CountQuotes(t) == 0
    ensures ReadDoubleQuoted(t) == Unterminated
  {
    if t != [] {
      PlainPathTail(t);
      NoClosingQuote(t[1..]);
    }
  }

  /** The separator (or nothing), a plain command without quotes and the
      newline hold nothing that could close or escape the word. */
  lemma PlainCommandTail(link: string, command: string)
    requires link == "&&" || link == ""
    requires PlainPath(command) && CountQuotes(command) == 0
    ensures PlainPath(link + command + "\n") && CountQuotes(link + command + "\n") == 0
  {
    var after := link + command + "\n";
    forall i | 0 <= i < |after| ensures after[i] != Backslash && after[i] != '$' && after[i] != '`' {
      if |link| <= i < |after| - 1 { assert after[i] == command[i - |link|]; }
    }
    assert after == link + (command + "\n");
    assert CountQuotes(link) == 0;
    CountQuotesConcat(link, command + "\n");
    CountQuotesConcat(command, "\n");
  }

  /** The `gitTerminalCommand` line for the path `a\` and a given command,
      from just after `cd "`: the path, the escaping backslash-quote, and
      the separator (if any), command and newline after it. */
  lemma TrailingBackslashCommandLine(command: string)
    ensures var line := Composer.CommandLine("a\\", Some(map["cmd" := command]));
            && |line| >= 4
            && line[4..] == ['a'] + ([Backslash, Quote] + ((if command != "" then Composer.Separator else "") + command + "\n"))
  {
    EscapeWithoutQuotes("a\\");
    var args := Some(map["cmd" := command]);
    assert Composer.GitCommand(args) == Some(command);
    assert Composer.CommandText(Some(command)) == command;
    var prefix := Composer.ChangeDirectoryOpen + ['a', Backslash, Quote];
    assert Composer.ChangeDirectory("a\\") == prefix;
    var tail := (if command != "" then Composer.Separator else "") + command + "\n";
    var line := Composer.CommandLine("a\\", args);
    assert line == prefix + tail;
    assert prefix[4..] == ['a', Backslash, Quote];
    assert line[4..] == prefix[4..] + tail;
  }

  /** As written, with a git command after it, the backslash swallows the
      closing quote of the `gitTerminalCommand` line, and the separator and
      command become part of the unterminated directory name. */
  lemma TrailingBackslashSwallowsCommand(command: string)
    requires PlainPath(command) && CountQuotes(command) == 0
    ensures var line := Composer.CommandLine("a\\", Some(map["cmd" := command]));
            |line| >= 4 && ReadDoubleQuoted(line[4..]) == Unterminated
  {
    var link := (if command != "" then Composer.Separator else "");
    var after := link + command + "\n";
    TrailingBackslashCommandLine(command);
    PlainCommandTail(link, command);
    NoClosingQuote(after);
    ReadEscapedStep(Quote, after);
    ReadPlainStep('a', [Backslash, Quote] + after);
  }

  /** As written, a path containing `$` is expanded by the shell rather than
      taken literally. */
  lemma DollarExpands()
    ensures ReadDoubleQuoted(Composer.OpenTerminalLine("$HOME")[4..]) == Expansion
  {
    EscapeWithoutQuotes("$HOME");
    var line := Composer.OpenTerminalLine("$HOME");
    assert line == Composer.ChangeDirectoryOpen + "$HOME\"\n";
    assert line[4..] == "$HOME\"\n";
  }

  /** The corrected escaping: a backslash before each of `"`, backslash, `$`
      and backquote. */
  function SafeEscape(s: string): (r: string)
    ensures |r| >= |s|
  {
    if s == [] then []
    else (if s[0] == Quote || s[0] == Backslash || s[0] == '$' || s[0] == '`' then [Backslash, s[0]] else [s[0]])
         + SafeEscape(s[1..])
  }

  /** The corrected escaped path followed by the closing quote and the
      rest of the line, with its first character split off. */
  lemma SafeLineHead(p: string, rest: string)
    requires p != []
    ensures var special := p[0] == Quote || p[0] == Backslash || p[0] == '$' || p[0] == '`';
            SafeEscape(p) + [Quote] + rest == (if special then [Backslash, p[0]] else [p[0]]) + (SafeEscape(p[1..]) + [Quote] + rest)
  {
    var special := p[0] == Quote || p[0] == Backslash || p[0] == '$' || p[0] == '`';
    var head := if special then [Backslash, p[0]] else [p[0]];
    var e := SafeEscape(p[1..]);
    assert SafeEscape(p) == head + e;
    Regroup(head, e, rest);
  }

  /** The corrected escaping round-trips for every path: the shell reads
      the quoted word back as exactly the path, whatever follows it. */
  lemma {:induction false} SafeEscapeReadsBack(p: string, rest: string)
    ensures ReadDoubleQuoted(SafeEscape(p) + [Quote] + rest) == Read(p, rest)
  {
    if p == [] {
      assert SafeEscape(p) + [Quote] + rest == [Quote] + rest;
    } else {
      var tail := SafeEscape(p[1..]) + [Quote] + rest;
      SafeEscapeReadsBack(p[1..], rest);
      SafeLineHead(p, rest);
      if p[0] == Quote || p[0] == Backslash || p[0] == '$' || p[0] == '`' {
        ReadEscapedStep(p[0], tail);
      } else {
        ReadPlainStep(p[0], tail);
      }
    }
  }

  /** On plain paths (no backslash, `$` or backquote) the corrected escaping
      agrees with the source's, so the correction changes nothing for them. */
  lemma {:induction false} SafeEscapeAgreesOnPlainPaths(p: string)
    requires PlainPath(p)
    ensures SafeEscape(p) == EscapeQuotes(p)
  {
    if p != [] {
      PlainPathTail(p);
      SafeEscapeAgreesOnPlainPaths(p[1..]);
    }
  }

  /** The directory prefix built with the corrected escaping: empty exactly
      for the single-space path, as in the source, and otherwise a `cd`
      whose quoted argument the shell reads back as the path, leaving the
      rest of the line to run after it. */
  function SafeChangeDirectory(path: string): (prefix: string)
    ensures prefix == [] <==> path == " "
    ensures path != " " ==>
              && |prefix| >= 5
              && prefix[..4] == Composer.ChangeDirectoryOpen
              && forall rest :: ReadDoubleQuoted(prefix[4..] + rest) == Read(path, rest)
  {
    if path == " " then ""
    else
      var prefix := Composer.ChangeDirectoryOpen + SafeEscape(path) + [Quote];
      assert forall rest :: ReadDoubleQuoted(prefix[4..] + rest) == Read(path, rest) by {
        forall rest ensures ReadDoubleQuoted(prefix[4..] + rest) == Read(path, rest) {
          assert prefix[4..] + rest == SafeEscape(path) + [Quote] + rest;
          SafeEscapeReadsBack(path, rest);
        }
      }
      prefix
  }

  /** The corrected prefix followed by anything: the shell reads the `cd`
      argument back as the path and leaves what follows. */
  lemma SafePrefixReadsBack(path: string, after: string)
    requires path != " "
    ensures |SafeChangeDirectory(path) + after| >= 4
    ensures (SafeChangeDirectory(path) + after)[..4] == Composer.ChangeDirectoryOpen
    ensures ReadDoubleQuoted((SafeChangeDirectory(path) + after)[4..]) == Read(path, after)
  {
    var prefix := SafeChangeDirectory(path);
    var e := SafeEscape(path);
    assert prefix == Composer.ChangeDirectoryOpen + e + [Quote];
    assert prefix + after == Composer.ChangeDirectoryOpen + (e + [Quote] + after);
    SafeEscapeReadsBack(path, after);
  }

  /** The `gitTerminalCommand` line built on the corrected prefix: for any
      path but the single space, the shell reads the `cd` argument back as
      the path, and what follows the closing quote is the separator, the
      command and the newline, exactly as the source intends. */
  function SafeCommandLine(path: string, args: Option<map<string, string>>): (line: string)
    ensures |line| >= 1 && line[|line| - 1] == '\n'
    ensures path == " " ==> line == Composer.CommandText(Composer.GitCommand(args)) + "\n"
    ensures path != " " ==>
              var cmd := Composer.GitCommand(args);
              && |line| >= 4
              && line[..4] == Composer.ChangeDirectoryOpen
              && ReadDoubleQuoted(line[4..])
                 == Read(path, (if cmd != Some("") then Composer.Separator else "") + Composer.CommandText(cmd) + "\n")
  {
    var prefix := SafeChangeDirectory(path);
    var cmd := Composer.GitCommand(args);
    var after := Composer.Link(prefix, cmd) + Composer.CommandText(cmd) + "\n";
    if path == " " then
      assert prefix + after == Composer.CommandText(cmd) + "\n";
      prefix + after
    else
      SafePrefixReadsBack(path, after);
      prefix + after
  }
}
