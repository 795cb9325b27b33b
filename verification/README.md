# create-repack-app: the scaffolding workflow and its file patches

`create-repack-app` (`index.js`) builds a Rails API server with a
create-react-app client. It checks the project name and destination, checks
the installed Rails version, asks whether create-react-app is available, runs
`rails new` and `create-react-app client`, copies template trees, negotiates
the Rails server port, and then patches generated files. With `--full` it
also adds Devise authentication: Gemfile gems, `bundle`, client packages, the
devise command chain, a model patch and a mailer configuration line.

This project models the decision logic of that workflow and the four text
and JSON edits it makes. Both are written as pure Dafny functions.

- `Workflow` (workflow.dfy) has one function per stage of the script:
  `Scaffold` (`initialPrompt`), `CheckRailsVersions`, `InstallApps`,
  `PortPrompt`, `Settle` (`checkOptions` followed by `updateClientPackage`)
  and `DeviseSetup` (the `bundle` callback). They map the inputs to a `Run`.
  The inputs are the command line (`Invocation`), what the external commands
  report (`Oracle`) and the user's answers in the order the prompts are
  asked. A `Run` is a trace of `Action`s plus how the run ends: `Aborted`,
  `Crashed`, `AwaitingAnswer` or `Completed`.
  - The trace lists actions in the order the script's single thread starts
    them: the statements of one function in order, and a command's callback
    after the code that started it.
  - The port loop consumes two answers per rejected "3000", so it terminates.
    A run that runs out of answers waits at a prompt for ever, which is
    `AwaitingAnswer`.
- `Patches` (patches.dfy) holds the edits as functions from old file contents
  to new contents: the Gemfile splice, the `development.rb` mailer line, the
  `:confirmable` removal, and the `package.json` proxy field.
- `JsArrays` and `JsStrings` restate the JavaScript library operations those
  edits use: `findIndex`, `splice`, `split("\n")`, `join("\n")`, `indexOf`
  and `replace` with a string pattern.
- `Ports` holds the port value. It is the typed text, or `undefined` after
  confirming "3000". `Interpolate` renders it the way a template literal does.
- `WorkflowProperties` states and proves what the traces promise.

Quirks of the script that the model keeps on purpose:

- The gems go in *before* the anchor line `group :development, :test do`.
- A missing anchor makes `findIndex` return -1. `splice` reads that as "one
  before the end", so the gems go in before the last line.
- Only the first ` :confirmable,` is removed.
- The proxy is always `http://localhost:3001`, whatever port was chosen.
- Confirming port "3000" passes on the confirmation answer's missing `port`
  field. So `checkOptions`, `updateClientPackage` and `fin` all receive
  `undefined`.
- The client generator's result is never looked at. What matters is whether
  it left a readable `client/package.json`. If it did not, reading the
  manifest throws inside the port prompt's `then` handler. The rejection is
  unhandled, so the run ends there: in minimal mode right after `fin` has
  printed, and in full mode after the four commands have started but before
  any of their callbacks run.
- `bundle` runs in the directory the script was started from, not in the new
  project, so the three added gems are never installed. The devise chain's
  `bundle exec` then runs without them. That is one way the chain fails and
  the model file goes missing (the `deviseChain` and `modelFileFound`
  inputs).
- The devise chain is joined with `&&`. A failure is reported and the
  callback goes on. But if the failure came before the generator wrote the
  model file, or the generator named the file differently from the
  lower-cased answer, reading the model file throws inside the command
  callback. That ends the run with no model patch, no configuration patch
  and no `fin`.

## Model

| member | source | states |
|---|---|---|
| JsArrays.FindIndex | index.js:119 | the result is -1 exactly when the anchor is absent; otherwise it is the position of the first equal line, with no equal line before it |
| JsArrays.SpliceInsert | index.js:121 | `splice(start, 0, ...)` keeps the elements before the clamped start, puts the items there and shifts the rest right; the length grows by the number of items |
| JsArrays.SpliceInsertRemovable | index.js:121 | removing the inserted items from a splice result gives the original array back |
| JsStrings.Split | index.js:118 | `split("\n")` always yields at least one piece, and no piece contains a newline |
| JsStrings.JoinSplit | index.js:118-122 | joining the pieces of a split with newlines restores the text |
| JsStrings.SplitJoin | index.js:141-143 | splitting the join of newline-free lines gives the same lines back |
| JsStrings.JoinFlattensElement | index.js:120-122 | inserting the three gems pre-joined as one array element writes the same text as inserting three separate lines |
| JsStrings.IndexOf | index.js:138 | the result is the first position where the pattern occurs, or -1 exactly when it occurs nowhere |
| JsStrings.RemoveFirst | index.js:138 | `replace` with a string pattern returns the text unchanged when the pattern is absent; otherwise it cuts out exactly the first occurrence, and putting the pattern back there restores the text |
| JsStrings.LaterOccurrenceSurvives | index.js:138 | every later, non-overlapping occurrence of the pattern is still in the result, shifted left by the pattern's length |
| Patches.GemfileLinesAfterPatch | index.js:117-122 | read back as lines, the written Gemfile is the old lines with the three gem lines inserted at the splice position of the anchor's `findIndex` result |
| Patches.GemsBeforeFirstAnchor | index.js:119-122 | when the anchor is first at line i, the gems become lines i..i+2 and the anchor moves to i+3; the file grows by exactly three lines |
| Patches.GemsBeforeLastLineWithoutAnchor | index.js:119-121 | with no anchor line, the gems are inserted before the last line, and the file still grows by three lines |
| Patches.DevConfigLinesAfterPatch | index.js:140-143 | read back as lines, the written configuration is the old first line, then the mailer line with the port, then every other old line in order |
| Patches.PatchModelFile | index.js:137-139 | the model source is unchanged when ` :confirmable,` is absent; otherwise it is shorter by exactly that token, and putting the token back at its first occurrence restores the source |
| Patches.UpdateClientPackage | index.js:167-172 | the manifest's `proxy` is `http://localhost:3001`; no key is lost and every other key keeps its value |
| Patches.ProxyIgnoresPort | index.js:171 | the written manifest is the same whatever port is passed, and patching twice changes nothing more |
| WorkflowProperties.GateComesFirst | index.js:26-63 | a missing name or an existing destination ends the run with one message and nothing else; otherwise the version query comes first; the machine is changed at all exactly when both checks pass, Rails is recent enough and the user answers "Yes", and `rails new` is then the first change |
| WorkflowProperties.RunShape | index.js:41-75 | a run that fails the gate, the version check or the create-react-app question, or whose `rails new` fails, takes only setup steps and never completes; every other run is the seven setup steps followed by the port prompt |
| WorkflowProperties.ClientGeneratorFollowsRailsNew | index.js:190-200 | the client generator runs exactly when every check passes, the user answers "Yes" and `rails new` succeeds; it comes right after `rails new` and is followed by the three copies and the port prompt |
| WorkflowProperties.RailsNewFailureStops | index.js:198-200 | a failed `rails new` ends the run right after its error is printed |
| WorkflowProperties.ClientGeneratorResultIgnored | index.js:194-196 | whatever the client generator leaves behind, the run is the same up to and including the port negotiation (the seven setup steps, then `AskPort` and the other port questions); a run that stops before the port prompt is the same throughout |
| WorkflowProperties.NegotiationIgnoresOracle | index.js:77-113 | the questions of the port negotiation depend on the answers alone, not on anything an external command reports |
| WorkflowProperties.UnreadableManifestCrashes | index.js:104-110 | with an unreadable `client/package.json`, settling ends the run as crashed with no manifest patch and no devise step; minimal mode has printed `fin`, full mode has started its four commands |
| WorkflowProperties.PortPromptHasNoSetupStep | index.js:77-113 | the port negotiation and everything after it never repeat a check, a generator or a template copy |
| WorkflowProperties.DeviseSetupUsesPort | index.js:133-145 | the devise steps pass on only the settled port and ask no port question |
| WorkflowProperties.DeviseSetupOrder | index.js:133-145 | the `bundle` callback asks for the model, runs the chain with that name, reports exactly a failed chain, and patches the model and configuration and calls `fin` exactly when the model file is found; otherwise it ends crashed right after the chain and its report |
| WorkflowProperties.SettleUsesPort | index.js:115-171 | once a port is settled, every step that takes a port gets exactly that one; the manifest is patched exactly when it can be read; no port question follows |
| WorkflowProperties.OtherPortGoesStraightOn | index.js:84-111 | any answer other than "3000" goes on unconfirmed with that port ("3001" for an empty answer); in minimal mode `fin` comes next, followed by the manifest patch when the manifest can be read |
| WorkflowProperties.RejectingDefaultPortAsksAgain | index.js:100-102 | "3000" followed by "No" shows the warning and the confirmation, then re-enters the port prompt with nothing in between |
| WorkflowProperties.ConfirmingDefaultPortLosesIt | index.js:100-105 | "3000" followed by anything but "No" passes `undefined`, never "3000", to every later step that takes a port, and to the manifest patch whenever the manifest can be read |
| WorkflowProperties.NegotiatePort | index.js:77-113 | scanning the answers two at a time finds the negotiated port: a settled negotiation passes on no other port, and certainly that one when the manifest can be read; an unsettled one waits at a prompt having passed on none |
| WorkflowProperties.MinimalPortPrompt | index.js:162-163 | in minimal mode the port prompt never leads to a full-mode step; a completed negotiation ends with `fin(port)` followed by the manifest patch with the same port; a crash happens only on an unreadable manifest, right after `fin` |
| WorkflowProperties.MinimalSkipsFullSteps | index.js:115-165 | without `--full` no Gemfile, model or configuration patch and no extra command happens in the whole run; a completed run ends with `fin` and then the manifest patch |
| WorkflowProperties.FullSettlementOrder | index.js:115-161 | in full mode with a readable manifest, the Gemfile patch, `bundle`, `yarn add`, the starter-file removal and the manifest patch start in that order before the Devise model prompt; the run completes exactly when the manifest is readable, the model name is answered and the model file is found, and then ends with the model patch, the configuration patch and `fin`; a failed devise chain is always reported; a missing model file ends the run right after the chain and its report |

## Left out

- Terminal output is not modelled: `clear`, `chalk`, `figlet`, `clui` and the text `fin` prints. Only the messages that end a run, the port warning, the devise chain's failure report, and `fin`'s port argument are kept, as actions.
- External commands are abstract actions: `gem list`, `rails new`, `create-react-app`, `bundle`, `yarn add`, `rm -rf` and the devise chain. Only the reports the script reads are inputs, in `Oracle`, together with whether the client manifest and the Devise model file can be read when the script reads them. The results of `bundle`, `yarn add` and `rm` are never read, so they are not modelled.
- The Rails version check does not parse the `gem list` output. Its JavaScript `parseFloat` and regular-expression behaviour is replaced by a three-way input: supported, unsupported, or output without `(`, where the script's callback throws.
- The template copies are actions with no file contents: `copyStart`, `copyRootController`, `copyConfig`, and the copy of the example client in the `yarn add` callback. The last one is folded into `RunYarnAdd`.
- Completion order of concurrent commands is not modelled. In full mode, `bundle`, `yarn add` and `rm` are started together and finish in an order the script does not control, so the trace records start order only.
- The writes at index.js:122, 139 and 143 go through `fs-extra`'s `writeFile` without a callback. They are asynchronous and never awaited, and the model records only that they start.
- `bundle` (index.js:123) is started with no `cd` and no working-directory option, so it runs in the directory the script was started from, not in the new project. Its result is never read; the model records only that it starts.
- An unreadable client manifest is modelled with the behaviour of Node.js 15 and later, where an unhandled promise rejection ends the process. Older Node.js versions only print a warning, and a full-mode run would then go on with the devise steps without patching the manifest.
- JSON parsing and serialisation of `package.json` are library code. The manifest is an already parsed object. Key order, formatting and a manifest that is not an object are not modelled, and JSON numbers are kept as integers.
- Prompt widgets are not modelled. The list prompts can only return "Yes" or "No", but the model accepts any answer string. An input prompt's default applies to an empty answer.
- Argument parsing by `minimist` is simplified. The project name is a string, empty when missing; `minimist` turning a numeric name such as `0` into a falsy number is not modelled. `--full` is a boolean.
- The Devise model name's lower-casing into a file path is not computed. Whether that file exists is the `modelFileFound` input, and its contents are the input to `Patches.PatchModelFile`.
- `JSON.parse` failing on a manifest that exists but is malformed counts as an unreadable manifest, the `clientManifest` input.
- `lib/files` (`directoryExists`, `getCurrentDirectoryBase`) is not part of this model. The existence check is the `destExists` input.
- The unused `Preferences` and `Spinner` imports are left out.
- Patches.DevConfigLinesAfterPatch: stated only for port text with no newline. A port containing a newline would split the mailer line in two when the file is read back.
