# Git menu commands: a Dafny model

This project models the command layer of a JupyterLab git extension
(`src/gitMenuCommands.ts`). The layer registers UI commands that drive git
through the notebook environment. The model covers the logic those commands
contain:

- **Path lookup**: `findCurrentFileBrowserPath` scans the left panel's widgets
  for the one with id `filebrowser` and reads its path. If there is none, it
  yields `undefined` (`None` here) and never throws.
- **Shell-line composition**: quote escaping with `split('"').join('\\"')`.
  - `gitTerminal` sends the plain `cd "<path>"` line.
  - `gitTerminalCommand` sends `cd "<path>"&&<git command>`. The `cd` prefix
    is dropped only for the single-space path. The `&&` goes in only between
    two non-empty parts.
- **Workflows**: each command handler is a pure function. It takes the
  outside world's answers (widgets, terminal creation, send success, dialog
  answer, git result) and returns the trace of calls it makes plus what it
  returns.
  - Terminal launch disposes of the terminal exactly once when the send
    fails.
  - Init calls `init` only on confirmation.
  - Clone disposes of its dialog first. It clones only on a defined,
    non-empty name. It shows "Creation failed" with the service's message
    only for a non-zero code.

Modules:

| module | file | contents |
|---|---|---|
| `Wrappers` | wrappers.dfy | `Option` |
| `Quoting` | quoting.dfy | the escaping, JavaScript `split`/`join`, unescaping |
| `Composer` | composer.dfy | the two terminal lines |
| `PathResolver` | path_resolver.dfy | the file-browser lookup |
| `Workflows` | workflows.dfy | the four handlers as event traces; the clone state machine |
| `ShellQuoting` | shell_quoting.dfy | how a POSIX shell reads the quoted `cd` argument; the corrected escaping (see Findings) |

The code behaves as follows in these edge cases, and the model follows it:

- An empty path `""` is not treated as "no directory". Only `" "` is (line
  83). So the path `""` with command `status` gives `cd ""&&status\n`, not
  `status`.
- The lookup returns `undefined`, not an empty string, when no file browser
  exists.
  - In `gitTerminal`, the `split` on `undefined` throws inside the `try`. The
    terminal is disposed and nothing is returned.
  - In `gitTerminalCommand`, it throws at line 85, outside the `try`. The
    handler rejects before any terminal is created.
- An argument object without `cmd` gives `undefined`. Since
  `undefined !== ''`, the `&&` is emitted and the shell receives the word
  `undefined`.
- `init` is called with whatever the lookup produced, `undefined` included.

## Model

| member | source | states |
|---|---|---|
| Quoting.EscapeQuotes | src/gitMenuCommands.ts:64 | the escaped path is as long as the path plus its number of quotes, and never starts with a quote |
| Quoting.Split | src/gitMenuCommands.ts:85 | JavaScript's single-character `split` always yields at least one piece |
| Quoting.Join | src/gitMenuCommands.ts:85 | `join` of one piece is that piece; of two or more, it starts with the first piece followed by the glue |
| Quoting.JoinSplitRoundTrip | src/gitMenuCommands.ts:85 | joining the pieces of a split with the separator gives back the string |
| Quoting.SplitJoinEscape | src/gitMenuCommands.ts:85 | the literal `split('"').join('\\"')` equals the character-by-character escaping |
| Quoting.SplitPieces | src/gitMenuCommands.ts:85 | `split('"')` yields one more piece than the path has quotes, and no piece contains a quote |
| Quoting.JoinSplitIsEscape | src/gitMenuCommands.ts:85 | `split('"').join('\\"')` equals replacing each quote by backslash-quote and copying every other character in order |
| Quoting.UnescapeEscape | src/gitMenuCommands.ts:85 | deleting the backslash before each `\"` of the escaped path gives back the path |
| Quoting.EveryQuoteEscaped | src/gitMenuCommands.ts:64 | every quote in the escaped path has a backslash right before it |
| Quoting.EscapeConcat | src/gitMenuCommands.ts:85 | the escape of a concatenation is the concatenation of the escapes |
| Quoting.EscapeWithoutQuotes | src/gitMenuCommands.ts:85 | a path without quotes passes through unchanged |
| Composer.OpenTerminalLine | src/gitMenuCommands.ts:64 | the plain-terminal line is `cd "`, then the escaped path, then `"` and a newline, for every path including the empty one; its middle unescapes to the path |
| Composer.QuotedChangeDirectory | src/gitMenuCommands.ts:85 | `'cd "' + escaped path + '"'`: it starts with `cd "`, ends with `"`, is the path's length plus its quotes plus five, and its middle unescapes to the path |
| Composer.CommandText | src/gitMenuCommands.ts:99 | the text `+` makes of the command is empty exactly when the command is the empty string; a missing command becomes non-empty text |
| Composer.ChangeDirectory | src/gitMenuCommands.ts:82-85 | the prefix is empty exactly when the path is `" "`; otherwise it is `cd "` + escaped path + `"`, whose middle unescapes to the path |
| Composer.GitCommand | src/gitMenuCommands.ts:86 | no argument object gives the empty command; otherwise the command is `args['cmd']`, undefined when the key is missing |
| Composer.Link | src/gitMenuCommands.ts:87-88 | `&&` is inserted exactly when the prefix is non-empty and the command is not the empty string; otherwise nothing is inserted |
| Composer.CommandLine | src/gitMenuCommands.ts:82-99 | the line ends in the added newline; for `" "` it is the command alone; with an empty command it equals the plain-terminal line; otherwise it is prefix, `&&`, command, newline |
| Composer.EmptyPathKeepsPrefix | src/gitMenuCommands.ts:82-85 | the path `""` with command `status` gives `cd ""&&status\n` |
| Composer.EscapeExample | src/gitMenuCommands.ts:85 | the path `/a/"b"` escapes to `/a/\"b\"` |
| Composer.QuotedPathExample | src/gitMenuCommands.ts:82-99 | the path `/a/"b"` with command `status` gives `cd "/a/\"b\""&&status\n` |
| Composer.MissingCommandArgument | src/gitMenuCommands.ts:86-99 | for a path other than `" "`, an argument object without `cmd` gives the prefix followed by `&&undefined` and a newline |
| PathResolver.FirstFileBrowserPathSpec | src/gitMenuCommands.ts:36-45 | the lookup finds nothing exactly when no widget has id `filebrowser`; otherwise it returns the path of the first such widget |
| PathResolver.FindCurrentFileBrowserPath | src/gitMenuCommands.ts:36-45 | the scan returns the first file browser's path, or nothing (never an error) when the widgets run out |
| Workflows.GitTerminal | src/gitMenuCommands.ts:51-73 | one terminal is created, as the first event; a creation failure rejects and nothing is sent; it returns the terminal exactly when the path is defined and the send succeeds; otherwise it disposes once, as the last event; the `cd` line of the looked-up path is sent exactly once, right after creation, when both exist; the trace holds only terminal events |
| Workflows.SendOrDispose | src/gitMenuCommands.ts:60-72 | after creation: returns the terminal exactly when there is a line and the send succeeds; otherwise disposes exactly once, as the last event; an existing line is sent exactly once, first; only sends and the dispose occur |
| Workflows.Launch | src/gitMenuCommands.ts:90-106 | one terminal is created first; a creation failure rejects and nothing is sent; the terminal is returned exactly when the line exists and the send succeeds; otherwise it is disposed exactly once, as the last event; the line is sent exactly once, right after creation; only terminal events occur |
| Workflows.GitTerminalCommand | src/gitMenuCommands.ts:80-107 | an undefined path rejects with no effect at all; otherwise one terminal is created, as the first event; it returns the terminal exactly when the send succeeds; after a failed send it disposes exactly once, as the last event; once created, the composed command line is sent exactly once, right after creation; only terminal events occur |
| Workflows.GitInit | src/gitMenuCommands.ts:125-136 | the confirmation comes first; `init` is called once, with the looked-up path, exactly when it is accepted; the trace is the confirmation alone, or the confirmation and that one call |
| Workflows.GitProject | src/gitMenuCommands.ts:143-172 | the dialog is launched and disposed before anything else; clone is called exactly when the value is defined and non-empty, with that value; an error dialog with the service's message follows exactly when the clone's code is non-zero |
| Workflows.GitProjectFollowsStateMachine | src/gitMenuCommands.ts:151-168 | every clone trace is a run of the state machine idle, awaiting name, name read, cloning, reporting error; it ends at name read, cloning or reporting according to value and code |
| ShellQuoting.EscapeQuotesReadsBackPlainPath | src/gitMenuCommands.ts:85 | for a path without backslash, `$` or backquote, the shell reads the quoted `cd` argument back as the path and leaves the rest of the line alone |
| ShellQuoting.TrailingBackslashUnterminated | src/gitMenuCommands.ts:64 | as written, the `gitTerminal` line for the path `a\` gives a `cd` argument with no closing quote |
| ShellQuoting.TrailingBackslashSwallowsCommand | src/gitMenuCommands.ts:82-99 | as written, in the `gitTerminalCommand` line for the path `a\` and any plain command, the separator and command become part of an unterminated directory name |
| ShellQuoting.TrailingBackslashCommandLine | src/gitMenuCommands.ts:82-99 | for the path `a\`, the command line after `cd "` is `a`, the backslash-quote from escaping, then the separator, command and newline |
| ShellQuoting.DollarExpands | src/gitMenuCommands.ts:64 | as written, in the `gitTerminal` line the path `$HOME` is expanded by the shell instead of being taken literally |
| ShellQuoting.SafeEscapeReadsBack | src/gitMenuCommands.ts:64 | the corrected escaping is read back by the shell as exactly the path, for every path and whatever follows it |
| ShellQuoting.SafeEscapeAgreesOnPlainPaths | src/gitMenuCommands.ts:85 | on paths without backslash, `$` or backquote, the corrected escaping equals the source's |
| ShellQuoting.SafeChangeDirectory | src/gitMenuCommands.ts:82-85 | the corrected prefix is empty exactly for `" "`; otherwise the shell reads its argument back as the path, whatever follows |
| ShellQuoting.SafeCommandLine | src/gitMenuCommands.ts:82-99 | with the corrected prefix, the shell reads the `cd` argument back as the path; what follows the closing quote is the separator, the command and the newline |

## Findings

| source | as written | input that shows it | evidently intended | confidence | as-written member | corrected member |
|---|---|---|---|---|---|---|
| src/gitMenuCommands.ts:64 | only `"` is escaped before the path goes inside double quotes; a backslash, `$` or backquote in the path keeps its shell meaning | path `a\`: `cd "a\"` has no closing quote, and with a command `&&status` becomes part of the directory name; path `$HOME` is expanded | the `cd` argument is read by the shell as exactly the path | high (not executed) | ShellQuoting.TrailingBackslashUnterminated | ShellQuoting.SafeEscapeReadsBack |

The same escaping is used at line 85, as `ShellQuoting.TrailingBackslashSwallowsCommand`
shows. `ShellQuoting.SafeChangeDirectory` and `ShellQuoting.SafeCommandLine`
build the corrected lines. `ShellQuoting.SafeEscapeAgreesOnPlainPaths` shows
the correction changes nothing for paths without backslash, `$` or backquote.
Some other paths, such as `a\b`, are also read back correctly as written, but
their corrected escaping differs. The workflow
traces in `Workflows` record the lines the code sends as written.

The shell's reading of a double-quoted word follows section 2.2.3 of the
POSIX Shell Command Language. Inside double quotes, a backslash escapes only
`$`, backquote, `"`, backslash and newline. An unescaped `$` or backquote
starts an expansion. The model treats every such expansion as not literal.
It does not model the shell's treatment of a `$` that does not begin a
parameter name.
History expansion is not modelled either. An interactive bash, as a
terminal usually runs, expands `!` inside double quotes, so the round trip
holds under the POSIX reading only.

## Left out

- JupyterLab plumbing is not modelled: `commands.addCommand`,
  `commands.execute('terminal:create-new')`, `app.shell`, dialog rendering
  and `MainAreaWidget`. Terminal creation, send success and dialog answers are
  inputs. The calls appear as trace events.
- The `Git` class (`./git`) is not part of this model. `init` and `clone` are
  events, and clone's `{code, message}` result is an input.
- Promise sequencing is left out. Each handler is one sequential function. A
  `clone` promise that rejects, rather than resolving to a result, is not
  modelled.
- The clone path: line 157 uses `currentFileBrowserPath`, which is not
  declared in the `gitProject` handler's scope. The model takes the clone path
  as a plain parameter.
- The `Project` widget's DOM construction (lines 202-227) is left out.
- `encodeURIComponent` at line 233 is left out. The clone workflow takes the
  dialog's `result.value` as given. A `null` or `undefined` value is `None`.
- `gitUI`, `setupRemotes` and `googleLink` (lines 111-119, 176-193) are left
  out. They only call `activateById` and `window.open`.
- `console.error` logging is left out.
- A widget is an id and a path. The path stands for `model.path` and is read
  only from the file browser.
- `args['cmd']` is modelled as a string or missing. A non-string value is not
  modelled.
