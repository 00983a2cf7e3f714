/** The command handlers of src/gitMenuCommands.ts as pure functions from
    what the outside world answers (the panel widgets, whether the terminal
    could be created and written to, the dialog's answer, the git service's
    result) to the trace of effects the handler performs and what it
    returns. The terminal, the dialogs and the git service are not modelled;
    only the calls into them appear, as events. */
module Workflows {
  import opened Wrappers
  import PathResolver
  import Composer

  /** One call into the outside world. */
  datatype Event =
    | CreateTerminal                        // commands.execute('terminal:create-new', args)
    | SendInput(line: string)               // terminal.session.send({type: 'stdin', ...})
    | DisposeTerminal                       // main.dispose()
    | ConfirmInit                           // the "Initialize a Repository" dialog
    | Init(initPath: Option<string>)        // gitApi.init(path)
    | LaunchProjectDialog                   // dialog.launch() of "Create Git Project"
    | DisposeProjectDialog                  // dialog.dispose()
    | Clone(clonePath: string, name: string) // gitApi.clone(path, name)
    | ShowError(title: string, body: string) // the "Creation failed" dialog

  /** How a terminal handler's promise settles: with the terminal widget,
      with `undefined`, or rejected. */
  datatype Outcome = ReturnsTerminal | ReturnsNothing | Rejects

  datatype Run = Run(events: seq<Event>, outcome: Outcome)

  /** The `{code, message}` result of a git-service call. */
  datatype GitResult = GitResult(code: int, message: string)

  const CreationFailedTitle: string := "Creation failed"

  function Count(events: seq<Event>, e: Event): (n: nat)
    ensures n <= |events|
    ensures n == 0 <==> e !in events
  {
    if events == [] then 0
    else (if events[0] == e then 1 else 0) + Count(events[1..], e)
  }

  /** Counting over a trace with one event in front. */
  lemma CountCons(first: Event, rest: seq<Event>, e: Event)
    ensures Count([first] + rest, e) == (if first == e then 1 else 0) + Count(rest, e)
  {
    assert ([first] + rest)[1..] == rest;
  }

  /** The part of a terminal handler after the terminal exists: send the
      line if it could be computed, return the widget if the send went
      through, otherwise dispose of the widget and return nothing. */
  function SendOrDispose(line: Option<string>, sendOk: bool): (run: Run)
    ensures |run.events| >= 1 && CreateTerminal !in run.events
    ensures run.outcome != Rejects
    ensures run.outcome == ReturnsTerminal <==> line.Some? && sendOk
    ensures Count(run.events, DisposeTerminal) == (if run.outcome == ReturnsNothing then 1 else 0)
    ensures DisposeTerminal in run.events ==> run.events[|run.events| - 1] == DisposeTerminal
    ensures forall e :: e in run.events ==> e.SendInput? || e.DisposeTerminal?
    ensures forall e :: e in run.events && e.SendInput? ==> line == Some(e.line)
    ensures line.Some? ==> run.events[0] == SendInput(line.value) && Count(run.events, SendInput(line.value)) == 1
  {
    match line
    case None => Run([DisposeTerminal], ReturnsNothing)
    case Some(l) =>
      if sendOk then Run([SendInput(l)], ReturnsTerminal)
      else
        CountCons(SendInput(l), [DisposeTerminal], DisposeTerminal);
        CountCons(SendInput(l), [DisposeTerminal], SendInput(l));
        Run([SendInput(l), DisposeTerminal], ReturnsNothing)
  }

  /** A created terminal followed by what happens to it; `sent` is any
      other event whose count carries over. */
  lemma AfterCreation(rest: Run, sent: Event)
    requires |rest.events| >= 1 && CreateTerminal !in rest.events
    requires sent != CreateTerminal
    ensures var events := [CreateTerminal] + rest.events;
            && Count(events, CreateTerminal) == 1
            && Count(events, DisposeTerminal) == Count(rest.events, DisposeTerminal)
            && Count(events, sent) == Count(rest.events, sent)
            && (DisposeTerminal in events ==> DisposeTerminal in rest.events)
            && events[|events| - 1] == rest.events[|rest.events| - 1]
            && events[1] == rest.events[0]
            && (forall e :: e in events ==> e == CreateTerminal || e in rest.events)
  {
    CountCons(CreateTerminal, rest.events, CreateTerminal);
    CountCons(CreateTerminal, rest.events, DisposeTerminal);
    CountCons(CreateTerminal, rest.events, sent);
  }

  /** What both terminal handlers do once their line is known (or known to
      have failed): `await commands.execute('terminal:create-new')`, whose
      failure rejects, then the `try` that sends the line and returns the
      widget, or disposes of it in the `catch`. */
  function Launch(line: Option<string>, created: bool, sendOk: bool): (run: Run)
    ensures run.outcome == Rejects <==> !created
    ensures run.outcome == ReturnsTerminal <==> created && line.Some? && sendOk
    ensures |run.events| >= 1 && run.events[0] == CreateTerminal
    ensures Count(run.events, CreateTerminal) == 1
    ensures Count(run.events, DisposeTerminal) == (if run.outcome == ReturnsNothing then 1 else 0)
    ensures DisposeTerminal in run.events ==> run.events[|run.events| - 1] == DisposeTerminal
    ensures forall e :: e in run.events ==> e.CreateTerminal? || e.SendInput? || e.DisposeTerminal?
    ensures forall e :: e in run.events && e.SendInput? ==> created && line == Some(e.line)
    ensures created && line.Some? ==>
              |run.events| >= 2 && run.events[1] == SendInput(line.value) && Count(run.events, SendInput(line.value)) == 1
  {
    if !created then Run([CreateTerminal], Rejects)
    else
      var rest := SendOrDispose(line, sendOk);
      AfterCreation(rest, SendInput(if line.Some? then line.value else ""));
      Run([CreateTerminal] + rest.events, rest.outcome)
  }

  /** `gitTerminal` (lines 48-74). The path is looked up, a terminal is
      created (a failure there rejects the handler's promise), and the
      `cd` line is sent. An undefined path throws inside the `try`, so it
      ends like a failed send: the terminal is disposed and nothing is
      returned. */
  function GitTerminal(widgets: seq<PathResolver.Widget>, created: bool, sendOk: bool): (run: Run)
    ensures var path := PathResolver.FirstFileBrowserPath(widgets);
            && (run.outcome == Rejects <==> !created)
            && (run.outcome == ReturnsTerminal <==> created && path.Some? && sendOk)
            && |run.events| >= 1 && run.events[0] == CreateTerminal
            && Count(run.events, CreateTerminal) == 1
            && Count(run.events, DisposeTerminal) == (if run.outcome == ReturnsNothing then 1 else 0)
            && (DisposeTerminal in run.events ==> run.events[|run.events| - 1] == DisposeTerminal)
            && (forall e :: e in run.events ==> e.CreateTerminal? || e.SendInput? || e.DisposeTerminal?)
            && (forall e :: e in run.events && e.SendInput? ==> created && path.Some? && e.line == Composer.OpenTerminalLine(path.value))
            && (created && path.Some? ==>
                  && |run.events| >= 2 && run.events[1] == SendInput(Composer.OpenTerminalLine(path.value))
                  && Count(run.events, SendInput(Composer.OpenTerminalLine(path.value))) == 1)
  {
    var line := match PathResolver.FirstFileBrowserPath(widgets)
      case None => None
      case Some(p) => Some(Composer.OpenTerminalLine(p));
    Launch(line, created, sendOk)
  }

  /** `gitTerminalCommand` (lines 77-108). The line is composed before the
      terminal is created; an undefined path throws there, outside the
      `try`, so the promise rejects and no terminal is ever created. */
  function GitTerminalCommand(widgets: seq<PathResolver.Widget>, args: Option<map<string, string>>,
                              created: bool, sendOk: bool): (run: Run)
    ensures var path := PathResolver.FirstFileBrowserPath(widgets);
            && (path.None? ==> run.events == [])
            && (run.outcome == Rejects <==> path.None? || !created)
            && (run.outcome == ReturnsTerminal <==> path.Some? && created && sendOk)
            && (path.Some? ==> |run.events| >= 1 && run.events[0] == CreateTerminal)
            && Count(run.events, CreateTerminal) == (if path.Some? then 1 else 0)
            && Count(run.events, DisposeTerminal) == (if run.outcome == ReturnsNothing then 1 else 0)
            && (DisposeTerminal in run.events ==> run.events[|run.events| - 1] == DisposeTerminal)
            && (forall e :: e in run.events ==> e.CreateTerminal? || e.SendInput? || e.DisposeTerminal?)
            && (forall e :: e in run.events && e.SendInput? ==> created && path.Some? && e.line == Composer.CommandLine(path.value, args))
            && (created && path.Some? ==>
                  && |run.events| >= 2 && run.events[1] == SendInput(Composer.CommandLine(path.value, args))
                  && Count(run.events, SendInput(Composer.CommandLine(path.value, args))) == 1)
  {
    match PathResolver.FirstFileBrowserPath(widgets)
    case None => Run([], Rejects)
    case Some(p) => Launch(Some(Composer.CommandLine(p, args)), created, sendOk)
  }

  /** `gitInit` (lines 122-137): ask for confirmation, and on acceptance call
      `init` with the looked-up path, undefined or not. */
  function GitInit(widgets: seq<PathResolver.Widget>, accepted: bool): (events: seq<Event>)
    ensures var path := PathResolver.FirstFileBrowserPath(widgets);
            && |events| == (if accepted then 2 else 1) && events[0] == ConfirmInit
            && Count(events, Init(path)) == (if accepted then 1 else 0)
            && (forall e :: e in events && e.Init? ==> e.initPath == path)
            && (!accepted ==> events == [ConfirmInit])
  {
    var path := PathResolver.FirstFileBrowserPath(widgets);
    [ConfirmInit] + (if accepted then [Init(path)] else [])
  }

  /** `gitProject` (lines 140-173): launch the dialog and dispose of it as
      soon as it answers; clone only on a defined, non-empty value; after
      the clone, show the service's message only for a non-zero code.
      `value` is the dialog's `result.value` (`None` for `undefined` or
      `null`); `response` is what `clone` resolves to, consulted only when
      `clone` is called. */
  function GitProject(value: Option<string>, path: string, response: GitResult): (events: seq<Event>)
    ensures |events| >= 2 && events[..2] == [LaunchProjectDialog, DisposeProjectDialog]
    ensures Count(events, DisposeProjectDialog) == 1
    ensures (exists e :: e in events && e.Clone?) <==> value.Some? && value.value != ""
    ensures forall i :: 0 <= i < |events| && events[i].Clone? ==> i == 2 && events[i] == Clone(path, value.value)
    ensures (exists e :: e in events && e.ShowError?) <==> value.Some? && value.value != "" && response.code != 0
    ensures forall i :: 0 <= i < |events| && events[i].ShowError? ==>
              i == 3 && events[i] == ShowError(CreationFailedTitle, response.message)
  {
    var opening := [LaunchProjectDialog, DisposeProjectDialog];
    match value
    case Some(name) =>
      if name == "" then opening
      else
        var report := if response.code != 0 then [ShowError(CreationFailedTitle, response.message)] else [];
        var events := opening + [Clone(path, name)] + report;
        assert events[2] in events;
        assert report != [] ==> events[3] in events;
        events
    case None => opening
  }

  /** The states of the clone workflow: waiting for the name, the dialog
      released with the name read, cloning, and reporting a failure. */
  datatype CloneState = Idle | AwaitingName | NameRead | Cloning | ReportingError

  /** The transitions the clone workflow allows; anything else is stuck. */
  function CloneStep(s: CloneState, e: Event): Option<CloneState>
  {
    match (s, e)
    case (Idle, LaunchProjectDialog) => Some(AwaitingName)
    case (AwaitingName, DisposeProjectDialog) => Some(NameRead)
    case (NameRead, Clone(_, _)) => Some(Cloning)
    case (Cloning, ShowError(_, _)) => Some(ReportingError)
    case _ => None
  }

  /** Runs the state machine over a trace. */
  function CloneMachine(s: CloneState, events: seq<Event>): Option<CloneState>
    decreases |events|
  {
    if events == [] then Some(s)
    else match CloneStep(s, events[0])
      case None => None
      case Some(t) => CloneMachine(t, events[1..])
  }

  /** The opening of every clone trace takes the machine from `Idle` to
      `NameRead`. */
  lemma CloneMachineOpening(tail: seq<Event>)
    ensures CloneMachine(Idle, [LaunchProjectDialog, DisposeProjectDialog] + tail) == CloneMachine(NameRead, tail)
  {
    var events := [LaunchProjectDialog, DisposeProjectDialog] + tail;
    assert events[1..] == [DisposeProjectDialog] + tail;
    assert events[1..][1..] == tail;
  }

  /** What the machine does after the name is read: a clone moves it to
      `Cloning`, a following error report to `ReportingError`. */
  lemma CloneMachineAfterName(path: string, name: string, report: seq<Event>)
    requires report == [] || (|report| == 1 && report[0].ShowError?)
    ensures CloneMachine(NameRead, [Clone(path, name)] + report) == Some(if report == [] then Cloning else ReportingError)
  {
    var events := [Clone(path, name)] + report;
    assert events[0] == Clone(path, name);
    assert events[1..] == report;
    assert CloneMachine(NameRead, events) == CloneMachine(Cloning, report);
    if report != [] {
      assert report[1..] == [];
      assert CloneMachine(Cloning, report) == CloneMachine(ReportingError, []);
    }
  }

  /** Every clone trace is a run of the state machine from `Idle`, and it
      stops where the source says: with the name read when nothing was
      cloned, cloning when the clone succeeded, reporting when it failed. */
  lemma GitProjectFollowsStateMachine(value: Option<string>, path: string, response: GitResult)
    ensures var cloned := value.Some? && value.value != "";
            CloneMachine(Idle, GitProject(value, path, response))
              == Some(if !cloned then NameRead else if response.code == 0 then Cloning else ReportingError)
  {
    var events := GitProject(value, path, response);
    var tail := events[2..];
    assert events == [LaunchProjectDialog, DisposeProjectDialog] + tail;
    CloneMachineOpening(tail);
    if value.Some? && value.value != "" {
      var report := if response.code != 0 then [ShowError(CreationFailedTitle, response.message)] else [];
      assert tail == [Clone(path, value.value)] + report;
      CloneMachineAfterName(path, value.value, report);
    } else {
      assert tail == [];
    }
  }
}
