/** The shell lines the two terminal commands of src/gitMenuCommands.ts type
    into a fresh terminal: the plain `cd` line of `gitTerminal` (line 64) and
    the `cd … && <git command>` line of `gitTerminalCommand` (lines 82-99). */
module Composer {
  import opened Wrappers
  import opened Quoting

  const ChangeDirectoryOpen: string := "cd \""
  const Separator: string := "&&"

  /** The text JavaScript's `+` produces for a command value: the string
      itself, or `"undefined"` when the argument is missing. */
  function CommandText(cmd: Option<string>): (text: string)
    ensures text == "" <==> cmd == Some("")
    ensures cmd.Some? ==> text == cmd.value
  {
    match cmd
    case Some(c) => c
    case None => "undefined"
  }

  /** `cd "<path with its quotes escaped>"`, the command both terminal
      handlers build from the path. */
  function QuotedChangeDirectory(path: string): (c: string)
    ensures |c| == |path| + CountQuotes(path) + 5
    ensures c[..4] == ChangeDirectoryOpen && c[|c| - 1] == Quote
    ensures Unescape(c[4..|c| - 1]) == path
  {
    UnescapeEscape(path);
    var c := ChangeDirectoryOpen + EscapeQuotes(path) + [Quote];
    assert c[4..|c| - 1] == EscapeQuotes(path);
    c
  }

  /** The line `gitTerminal` sends: change into the path, quotes escaped,
      and press Enter. There is no special case for any path, the empty one
      included. */
  function OpenTerminalLine(path: string): (line: string)
    ensures |line| == |path| + CountQuotes(path) + 6
    ensures line[..4] == ChangeDirectoryOpen && line[|line| - 2..] == "\"\n"
    ensures Unescape(line[4..|line| - 2]) == path
  {
    var c := QuotedChangeDirectory(path);
    var line := c + "\n";
    assert line[..4] == c[..4];
    assert line[4..|line| - 2] == c[4..|c| - 1];
    assert line[|line| - 2..] == [c[|c| - 1], '\n'];
    line
  }

  /** The directory prefix of `gitTerminalCommand`: empty exactly when the
      path is the single space, otherwise `cd "<escaped path>"`. */
  function ChangeDirectory(path: string): (prefix: string)
    ensures prefix == [] <==> path == " "
    ensures path != " " ==>
              && |prefix| == |path| + CountQuotes(path) + 5
              && prefix[..4] == ChangeDirectoryOpen
              && prefix[|prefix| - 1] == Quote
              && Unescape(prefix[4..|prefix| - 1]) == path
  {
    if path == " " then "" else QuotedChangeDirectory(path)
  }

  /** `args ? args['cmd'] : ''`: no argument object gives the empty command,
      an object without `cmd` gives `undefined` (`None`). */
  function GitCommand(args: Option<map<string, string>>): (cmd: Option<string>)
    ensures args.None? ==> cmd == Some("")
    ensures args.Some? ==> (cmd.Some? <==> "cmd" in args.value)
    ensures args.Some? && cmd.Some? ==> cmd.value == args.value["cmd"]
  {
    match args
    case None => Some("")
    case Some(a) => if "cmd" in a then Some(a["cmd"]) else None
  }

  /** The separator goes in exactly when there is a directory prefix and a
      command that is not the empty string; otherwise nothing goes in. */
  function Link(prefix: string, cmd: Option<string>): (link: string)
    ensures link == Separator <==> prefix != "" && cmd != Some("")
    ensures link != Separator ==> link == ""
  {
    if prefix != "" && cmd != Some("") then Separator else ""
  }

  /** The line `gitTerminalCommand` sends. */
  function CommandLine(path: string, args: Option<map<string, string>>): (line: string)
    ensures |line| >= 1 && line[|line| - 1] == '\n'
    ensures path == " " ==> line == CommandText(GitCommand(args)) + "\n"
    ensures path != " " && GitCommand(args) == Some("") ==> line == OpenTerminalLine(path)
    ensures path != " " && GitCommand(args) != Some("") ==>
              line == ChangeDirectory(path) + Separator + CommandText(GitCommand(args)) + "\n"
  {
    var prefix := ChangeDirectory(path);
    var cmd := GitCommand(args);
    var line := prefix + Link(prefix, cmd) + CommandText(cmd) + "\n";
    assert path != " " && cmd == Some("") ==> line == QuotedChangeDirectory(path) + "\n";
    line
  }

  /** An empty path is not the "no directory" case: the line still starts
      with `cd ""`. */
  lemma EmptyPathKeepsPrefix()
    ensures CommandLine("", Some(map["cmd" := "status"])) == "cd \"\"&&status\n"
  {
    assert EscapeQuotes("") == "";
  }

  /** Escaping a path with quotes. */
  lemma EscapeExample()
    ensures EscapeQuotes("/a/\"b\"") == "/a/\\\"b\\\""
  {
    assert "/a/\"b\"" == "/a/" + "\"b\"";
    EscapeConcat("/a/", "\"b\"");
    EscapeWithoutQuotes("/a/");
  }

  /** A path with quotes, and the separator before the command. */
  lemma QuotedPathExample()
    ensures CommandLine("/a/\"b\"", Some(map["cmd" := "status"])) == "cd \"/a/\\\"b\\\"\"&&status\n"
  {
    var p := "/a/\"b\"";
    EscapeExample();
    assert GitCommand(Some(map["cmd" := "status"])) == Some("status");
    assert ChangeDirectory(p) == "cd \"/a/\\\"b\\\"\"";
  }

  /** A non-space path with an argument object that has no `cmd`: the
      separator goes in and the shell is sent the word `undefined`. */
  lemma MissingCommandArgument(path: string)
    requires path != " "
    ensures CommandLine(path, Some(map[])) == ChangeDirectory(path) + "&&undefined\n"
  {
    var args: Option<map<string, string>> := Some(map[]);
    assert "cmd" !in args.value;
    assert GitCommand(args) == None;
    assert ChangeDirectory(path) + Separator + CommandText(None) + "\n" == ChangeDirectory(path) + "&&undefined\n";
  }
}
