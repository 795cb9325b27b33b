/** The scaffolding workflow of `index.js` as a pure function. Everything the
    outside world contributes is an argument: the command line, whether the
    destination directory exists, what the external commands report, and the
    user's answers to the prompts in the order they are asked. The result is
    the trace of actions the script takes and how the run ends.

    The trace lists actions in the order the script's single thread starts
    them: the statements of one function in order, and a command's callback
    after the code that started the command. Running out of answers means the
    script sits at a prompt for ever; the run then ends `AwaitingAnswer`. */
module Workflow {
  import opened Ports

  datatype Outcome = Ok | Error

  /** What the `gem list ^rails$` output tells the version check: a version of
      5 or above, no such version, or no `(` to parse, which makes the script's
      callback throw. */
  datatype RailsVersions = Supported | Unsupported | Unparsable

  /** What the outside world reports wherever the script looks at it:
      - `railsVersions`: the `gem list ^rails$` output;
      - `railsNew`: the result of `rails new`;
      - `clientManifest`: whether `client/package.json` exists and parses when
        `updateClientPackage` reads it. The client generator's own result is
        never read, but a generator that failed before writing the manifest
        leaves this false;
      - `deviseChain`: the result of the devise command chain;
      - `modelFileFound`: whether `app/models/<name>.rb`, with the answered
        name lower-cased, exists when the chain's callback reads it. It does
        not when the chain stopped before its generator ran, nor when the
        generator named the file differently. */
  datatype Oracle = Oracle(
    railsVersions: RailsVersions,
    railsNew: Outcome,
    clientManifest: bool,
    deviseChain: Outcome,
    modelFileFound: bool)

  /** The command line and the one file-system question asked before any
      work: `dest` is the first positional argument (empty when missing),
      `full` the truth of the `--full` flag. */
  datatype Invocation = Invocation(dest: string, full: bool, destExists: bool)

  /** The messages that end a run early or report a failed command. */
  datatype Notice =
    | NoProjectName
    | DirectoryExists
    | RailsTooOld
    | InstallCreateReactApp
    | RailsNewFailed
    | DeviseChainFailed

  datatype Action =
    | Notify(notice: Notice)
    | CheckRailsVersion
    | AskHaveCreateReactApp
    | RunRailsNew(dest: string)
    | RunCreateReactApp(dest: string)
    | CopyBaseTemplate
    | CopyRootController
    | CopyConfigTemplate
    | AskPort
    | WarnPort3000
    | AskKeepPort3000
    | PatchGemfile
    | RunBundle
    | RunYarnAdd
    | RemoveStarterFiles
    | PatchProxy(port: PortValue)
    | AskDeviseModel
    | RunDeviseChain(model: string)
    | PatchModel(model: string)
    | PatchDevConfig(port: PortValue)
    | Finish(port: PortValue)

  datatype End = Aborted | Crashed | AwaitingAnswer | Completed

  datatype Run = Run(trace: seq<Action>, end: End)

  /** `rest`, preceded by the actions `prefix`. */
  function Then(prefix: seq<Action>, rest: Run): Run {
    Run(prefix + rest.trace, rest.end)
  }

  /** What an input prompt with a default yields: the default when the user
      just presses return. */
  function WithDefault(answer: string, default: string): string {
    if answer == "" then default else answer
  }

  const Yes: string := "Yes"
  const No: string := "No"
  const DefaultDeviseModel: string := "User"

  /** `initialPrompt`: the project name and the destination directory are
      checked before anything else happens. */
  function Scaffold(inv: Invocation, oracle: Oracle, answers: seq<string>): Run {
    if inv.dest == "" then Run([Notify(NoProjectName)], Aborted)
    else if inv.destExists then Run([Notify(DirectoryExists)], Aborted)
    else Then([CheckRailsVersion], CheckRailsVersions(inv, oracle, answers))
  }

  /** The callback of the version check: ask whether create-react-app is
      installed and go on only on "Yes". */
  function CheckRailsVersions(inv: Invocation, oracle: Oracle, answers: seq<string>): Run {
    match oracle.railsVersions
    case Unparsable => Run([], Crashed)
    case Unsupported => Run([Notify(RailsTooOld)], Aborted)
    case Supported =>
      if |answers| == 0 then Run([AskHaveCreateReactApp], AwaitingAnswer)
      else if answers[0] == Yes then Then([AskHaveCreateReactApp], InstallApps(inv, oracle, answers[1..]))
      else Run([AskHaveCreateReactApp, Notify(InstallCreateReactApp)], Aborted)
  }

  /** `installApps`: the Rails generator, then, only if it succeeded, the
      client generator, whose own result is not looked at; then the template
      copies and the port prompt. */
  function InstallApps(inv: Invocation, oracle: Oracle, answers: seq<string>): Run {
    if oracle.railsNew == Error then
      Run([RunRailsNew(inv.dest), Notify(RailsNewFailed)], Aborted)
    else
      Then([RunRailsNew(inv.dest), RunCreateReactApp(inv.dest),
            CopyBaseTemplate, CopyRootController, CopyConfigTemplate],
           PortPrompt(inv.full, oracle, answers))
  }

  /** `portPrompt`: "3000" needs confirming; "No" asks again. Confirming hands
      on the `port` field of the confirmation answer, which has none. */
  function PortPrompt(full: bool, oracle: Oracle, answers: seq<string>): Run
    decreases |answers|
  {
    if |answers| == 0 then Run([AskPort], AwaitingAnswer)
    else
      var port := WithDefault(answers[0], DefaultServerPort);
      if port != ClientDefaultPort then
        Then([AskPort], Settle(full, oracle, Defined(port), answers[1..]))
      else if |answers| == 1 then
        Run([AskPort, WarnPort3000, AskKeepPort3000], AwaitingAnswer)
      else if answers[1] == No then
        Then([AskPort, WarnPort3000, AskKeepPort3000], PortPrompt(full, oracle, answers[2..]))
      else
        Then([AskPort, WarnPort3000, AskKeepPort3000], Settle(full, oracle, Undefined, answers[2..]))
  }

  /** `checkOptions(port)` followed by `updateClientPackage(port)`. In full
      mode the Gemfile is written and three commands are started before the
      manifest is patched; the devise steps wait for `bundle`. Both calls run
      inside a prompt's `then` handler: when the manifest cannot be read, the
      handler throws, the rejection is unhandled and the process ends before
      any command's callback runs. */
  function Settle(full: bool, oracle: Oracle, port: PortValue, answers: seq<string>): Run {
    var options := if full then [PatchGemfile, RunBundle, RunYarnAdd, RemoveStarterFiles] else [Finish(port)];
    if !oracle.clientManifest then Run(options, Crashed)
    else if !full then Run(options + [PatchProxy(port)], Completed)
    else Then(options + [PatchProxy(port)], DeviseSetup(oracle, port, answers))
  }

  /** The callback of `bundle`: ask for the model name, run the devise command
      chain, and in its callback report a failure, then patch the model and the
      development configuration and finish. Reading a model file that is not
      there throws inside the command callback, which ends the process. */
  function DeviseSetup(oracle: Oracle, port: PortValue, answers: seq<string>): Run {
    if |answers| == 0 then Run([AskDeviseModel], AwaitingAnswer)
    else
      var model := WithDefault(answers[0], DefaultDeviseModel);
      var report := if oracle.deviseChain == Error then [Notify(DeviseChainFailed)] else [];
      var started := [AskDeviseModel, RunDeviseChain(model)] + report;
      if !oracle.modelFileFound then Run(started, Crashed)
      else Run(started + [PatchModel(model), PatchDevConfig(port), Finish(port)], Completed)
  }
}
