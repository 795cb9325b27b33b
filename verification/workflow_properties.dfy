/** What the traces of the scaffolding workflow promise: the precondition gate
    comes first, the generators run in order, the port negotiation hands on
    exactly one port (and `undefined` after confirming "3000"), and minimal
    runs skip every full-mode step. */
module WorkflowProperties {
  import opened Ports
  import opened Workflow

  /** Actions that change the machine: a generator or other command, a copy
      or a file write. Messages, prompts and the read-only `gem list` query do
      not. */
  predicate IsEffect(a: Action) {
    !(a.Notify? || a.CheckRailsVersion? || a.AskHaveCreateReactApp? || a.AskPort? || a.WarnPort3000?
      || a.AskKeepPort3000? || a.AskDeviseModel?)
  }

  /** Actions of the stages before the port prompt. */
  predicate IsSetupStep(a: Action) {
    a.CheckRailsVersion? || a.AskHaveCreateReactApp? || a.RunRailsNew? || a.RunCreateReactApp?
    || a.CopyBaseTemplate? || a.CopyRootController? || a.CopyConfigTemplate?
    || (a.Notify? && a.notice != DeviseChainFailed)
  }

  /** Actions of the port negotiation itself. */
  predicate IsPortQuestion(a: Action) {
    a.AskPort? || a.WarnPort3000? || a.AskKeepPort3000?
  }

  /** Actions only the full-mode branch of `checkOptions` takes. */
  predicate IsFullOnly(a: Action) {
    a.PatchGemfile? || a.RunBundle? || a.RunYarnAdd? || a.RemoveStarterFiles?
    || a.AskDeviseModel? || a.RunDeviseChain? || a.PatchModel? || a.PatchDevConfig?
    || (a.Notify? && a.notice == DeviseChainFailed)
  }

  predicate CarriesPort(a: Action) {
    a.PatchProxy? || a.PatchDevConfig? || a.Finish?
  }

  /** The ports handed to `checkOptions` and `updateClientPackage` along a trace. */
  function PortsIn(t: seq<Action>): set<PortValue> {
    set i | 0 <= i < |t| && CarriesPort(t[i]) :: t[i].port
  }

  /** Every port-carrying action of `t` carries `port`. */
  predicate OnlyPort(t: seq<Action>, port: PortValue) {
    forall i :: 0 <= i < |t| && CarriesPort(t[i]) ==> t[i].port == port
  }

  predicate NoPortCarried(t: seq<Action>) {
    forall i :: 0 <= i < |t| ==> !CarriesPort(t[i])
  }

  lemma PortsInOnly(t: seq<Action>, port: PortValue)
    requires OnlyPort(t, port) && PatchProxy(port) in t
    ensures PortsIn(t) == {port}
  {
    var k :| 0 <= k < |t| && t[k] == PatchProxy(port);
    assert t[k].port in PortsIn(t);
  }

  /** Port questions in front of a trace add no port to it. */
  lemma PortsAfterQuestions(q: seq<Action>, t: seq<Action>)
    requires NoPortCarried(q)
    ensures PortsIn(q + t) == PortsIn(t)
  {
    forall p | p in PortsIn(q + t)
      ensures p in PortsIn(t)
    {
      var i :| 0 <= i < |q + t| && CarriesPort((q + t)[i]) && (q + t)[i].port == p;
      assert (q + t)[i] == t[i - |q|];
    }
    forall p | p in PortsIn(t)
      ensures p in PortsIn(q + t)
    {
      var i :| 0 <= i < |t| && CarriesPort(t[i]) && t[i].port == p;
      assert (q + t)[i + |q|] == t[i];
    }
  }

  // ---------------------------------------------------------------------------
  // The precondition gate

  /** A missing project name or an existing destination ends the run with one
      message and nothing else; otherwise the version check is the first thing
      that happens. The machine is changed at all exactly when both checks
      pass, Rails is recent enough and the user says "Yes", and then `rails
      new` is the first change. */
  lemma GateComesFirst(inv: Invocation, oracle: Oracle, answers: seq<string>)
    ensures var r := Scaffold(inv, oracle, answers);
            inv.dest == "" ==> r == Run([Notify(NoProjectName)], Aborted)
    ensures var r := Scaffold(inv, oracle, answers);
            inv.dest != "" && inv.destExists ==> r == Run([Notify(DirectoryExists)], Aborted)
    ensures var r := Scaffold(inv, oracle, answers);
            inv.dest != "" && !inv.destExists ==> |r.trace| >= 1 && r.trace[0] == CheckRailsVersion
    ensures var t := Scaffold(inv, oracle, answers).trace;
            (exists i :: 0 <= i < |t| && IsEffect(t[i]))
            <==> (inv.dest != "" && !inv.destExists && oracle.railsVersions == Supported
                  && |answers| >= 1 && answers[0] == Yes)
    ensures var t := Scaffold(inv, oracle, answers).trace;
            forall i :: 0 <= i < |t| && IsEffect(t[i]) ==> 2 <= i && t[2] == RunRailsNew(inv.dest)
  {
    var t := Scaffold(inv, oracle, answers).trace;
    if inv.dest != "" && !inv.destExists && oracle.railsVersions == Supported
       && |answers| >= 1 && answers[0] == Yes {
      var rest := InstallApps(inv, oracle, answers[1..]).trace;
      assert t == [CheckRailsVersion, AskHaveCreateReactApp] + rest;
      assert t[2] == rest[0] == RunRailsNew(inv.dest);
      assert IsEffect(t[2]);
    }
  }

  // ---------------------------------------------------------------------------
  // Generator ordering

  /** The devise steps carry the settled port only, ask no port question and
      repeat no setup step. */
  lemma DeviseSetupUsesPort(oracle: Oracle, port: PortValue, answers: seq<string>)
    ensures var d := DeviseSetup(oracle, port, answers).trace;
            OnlyPort(d, port)
            && (forall i :: 0 <= i < |d| ==> !IsPortQuestion(d[i]) && !IsSetupStep(d[i]))
  {
    var d := DeviseSetup(oracle, port, answers).trace;
    if |answers| > 0 {
      var model := WithDefault(answers[0], DefaultDeviseModel);
      var report := if oracle.deviseChain == Error then [Notify(DeviseChainFailed)] else [];
      var tail := if oracle.modelFileFound then [PatchModel(model), PatchDevConfig(port), Finish(port)] else [];
      assert d == [AskDeviseModel, RunDeviseChain(model)] + report + tail;
    }
  }

  /** The commands `checkOptions` starts in full mode. */
  const FullModeCommands: seq<Action> := [PatchGemfile, RunBundle, RunYarnAdd, RemoveStarterFiles]

  /** The full-mode settlement with a readable manifest: the four commands,
      the manifest patch, then the devise steps. */
  lemma FullSettleUsesPort(oracle: Oracle, port: PortValue, answers: seq<string>)
    requires oracle.clientManifest
    ensures var t := Settle(true, oracle, port, answers).trace;
            OnlyPort(t, port) && |t| >= 5 && t[4] == PatchProxy(port)
            && (forall i :: 0 <= i < |t| ==> !IsPortQuestion(t[i]) && !IsSetupStep(t[i]))
  {
    var t := Settle(true, oracle, port, answers).trace;
    var pre := FullModeCommands + [PatchProxy(port)];
    var d := DeviseSetup(oracle, port, answers).trace;
    DeviseSetupUsesPort(oracle, port, answers);
    assert t == pre + d;
    forall i | 0 <= i < |t|
      ensures !IsPortQuestion(t[i]) && !IsSetupStep(t[i])
      ensures CarriesPort(t[i]) ==> t[i].port == port
    {
      if i < 5 {
        assert t[i] == pre[i];
      } else {
        assert t[i] == d[i - 5];
      }
    }
  }

  /** Settling on a port hands that port, and only it, to every step that takes
      one; the manifest is patched exactly when it can be read; no port
      question is asked again and no setup step is repeated. */
  lemma SettleUsesPort(full: bool, oracle: Oracle, port: PortValue, answers: seq<string>)
    ensures var t := Settle(full, oracle, port, answers).trace;
            OnlyPort(t, port) && (PatchProxy(port) in t <==> oracle.clientManifest)
            && (forall i :: 0 <= i < |t| ==> !IsPortQuestion(t[i]) && !IsSetupStep(t[i]))
    ensures PortsIn(Settle(full, oracle, port, answers).trace) <= {port}
    ensures oracle.clientManifest ==> PortsIn(Settle(full, oracle, port, answers).trace) == {port}
  {
    var t := Settle(full, oracle, port, answers).trace;
    if full && oracle.clientManifest {
      FullSettleUsesPort(oracle, port, answers);
    } else if full {
      assert t == FullModeCommands;
    } else if oracle.clientManifest {
      assert t == [Finish(port), PatchProxy(port)];
    } else {
      assert t == [Finish(port)];
    }
    if oracle.clientManifest {
      PortsInOnly(t, port);
    }
  }

  /** A client manifest that cannot be read ends the run as soon as a port is
      settled: the manifest is not patched and no command callback runs. In
      minimal mode `fin` has already printed; in full mode the four commands
      have been started, but nobody is asked for a Devise model. */
  lemma UnreadableManifestCrashes(full: bool, oracle: Oracle, port: PortValue, answers: seq<string>)
    requires !oracle.clientManifest
    ensures var r := Settle(full, oracle, port, answers);
            r.end == Crashed
            && (forall i :: 0 <= i < |r.trace| ==> !r.trace[i].PatchProxy? && !r.trace[i].AskDeviseModel?
                                                   && !r.trace[i].PatchModel? && !r.trace[i].PatchDevConfig?)
            && (!full ==> r.trace == [Finish(port)])
            && (full ==> r.trace == FullModeCommands)
  {
  }

  predicate NoSetupStep(t: seq<Action>) {
    forall i :: 0 <= i < |t| ==> !IsSetupStep(t[i])
  }

  /** The port negotiation and what follows it never repeat a setup step. */
  lemma {:induction false} PortPromptHasNoSetupStep(full: bool, oracle: Oracle, answers: seq<string>)
    ensures NoSetupStep(PortPrompt(full, oracle, answers).trace)
    decreases |answers|
  {
    var t := PortPrompt(full, oracle, answers).trace;
    if |answers| >= 1 {
      var text := WithDefault(answers[0], DefaultServerPort);
      var q := [AskPort, WarnPort3000, AskKeepPort3000];
      if text != ClientDefaultPort {
        var s := Settle(full, oracle, Defined(text), answers[1..]).trace;
        SettleUsesPort(full, oracle, Defined(text), answers[1..]);
        assert t == [AskPort] + s;
        forall i | 0 <= i < |t|
          ensures !IsSetupStep(t[i])
        {
          if i >= 1 {
            assert t[i] == s[i - 1];
          } else {
            assert t[i] == AskPort;
          }
        }
      } else if |answers| >= 2 {
        if answers[1] == No {
          var s := PortPrompt(full, oracle, answers[2..]).trace;
          PortPromptHasNoSetupStep(full, oracle, answers[2..]);
          NoSetupStepAfterQuestions(q, s);
          assert t == q + s;
        } else {
          var s := Settle(full, oracle, Undefined, answers[2..]).trace;
          SettleUsesPort(full, oracle, Undefined, answers[2..]);
          assert forall j :: 0 <= j < |s| ==> !IsPortQuestion(s[j]) && !IsSetupStep(s[j]);
          NoSetupStepAfterQuestions(q, s);
          assert t == q + s;
        }
      }
    }
  }

  lemma NoSetupStepAfterQuestions(q: seq<Action>, s: seq<Action>)
    requires forall j :: 0 <= j < |q| ==> IsPortQuestion(q[j])
    requires NoSetupStep(s)
    ensures NoSetupStep(q + s)
  {
    forall i | 0 <= i < |q + s|
      ensures !IsSetupStep((q + s)[i])
    {
      if i >= |q| {
        assert (q + s)[i] == s[i - |q|];
      } else {
        assert (q + s)[i] == q[i];
      }
    }
  }

  /** The actions before the port prompt of a run that gets there. */
  function SetupTrace(dest: string): seq<Action> {
    [CheckRailsVersion, AskHaveCreateReactApp, RunRailsNew(dest), RunCreateReactApp(dest),
     CopyBaseTemplate, CopyRootController, CopyConfigTemplate]
  }

  /** The run gets past every check and generator to the port prompt. */
  predicate ReachesPortPrompt(inv: Invocation, oracle: Oracle, answers: seq<string>) {
    inv.dest != "" && !inv.destExists && oracle.railsVersions == Supported
    && |answers| >= 1 && answers[0] == Yes && oracle.railsNew == Ok
  }

  /** Every run either stops before the port prompt, having taken setup steps
      only and never started the client generator, or takes the seven setup
      steps and goes on with the port prompt. */
  lemma RunShape(inv: Invocation, oracle: Oracle, answers: seq<string>)
    ensures var r := Scaffold(inv, oracle, answers);
            ReachesPortPrompt(inv, oracle, answers) ==>
              r == Then(SetupTrace(inv.dest), PortPrompt(inv.full, oracle, answers[1..]))
    ensures var r := Scaffold(inv, oracle, answers);
            !ReachesPortPrompt(inv, oracle, answers) ==>
              r.end != Completed
              && forall i :: 0 <= i < |r.trace| ==> IsSetupStep(r.trace[i]) && !r.trace[i].RunCreateReactApp?
  {
  }

  /** The client generator runs exactly when the gate and the version check
      pass, the user says "Yes", and `rails new` succeeds; it comes right after
      `rails new` and is followed by the three template copies and the port
      prompt, whatever the client generator reported. */
  lemma ClientGeneratorFollowsRailsNew(inv: Invocation, oracle: Oracle, answers: seq<string>)
    ensures var t := Scaffold(inv, oracle, answers).trace;
            (exists i :: 0 <= i < |t| && t[i].RunCreateReactApp?)
            <==> (inv.dest != "" && !inv.destExists && oracle.railsVersions == Supported
                  && |answers| >= 1 && answers[0] == Yes && oracle.railsNew == Ok)
    ensures var t := Scaffold(inv, oracle, answers).trace;
            forall i :: 0 <= i < |t| && t[i].RunCreateReactApp? ==>
              1 <= i && i + 5 <= |t| && t[i - 1] == RunRailsNew(inv.dest)
              && t[i + 1..i + 5] == [CopyBaseTemplate, CopyRootController, CopyConfigTemplate, AskPort]
  {
    var t := Scaffold(inv, oracle, answers).trace;
    RunShape(inv, oracle, answers);
    if ReachesPortPrompt(inv, oracle, answers) {
      var p := PortPrompt(inv.full, oracle, answers[1..]).trace;
      PortPromptHasNoSetupStep(inv.full, oracle, answers[1..]);
      var pre := SetupTrace(inv.dest);
      assert t == pre + p;
      assert p[0] == AskPort;
      assert t[3].RunCreateReactApp?;
      assert forall i :: 0 <= i < |t| && t[i].RunCreateReactApp? ==> i == 3;
      assert t[7] == p[0];
      assert t[4..8] == [CopyBaseTemplate, CopyRootController, CopyConfigTemplate, AskPort];
    }
  }

  /** When `rails new` fails the run stops right after reporting it. */
  lemma RailsNewFailureStops(inv: Invocation, oracle: Oracle, answers: seq<string>)
    requires inv.dest != "" && !inv.destExists && oracle.railsVersions == Supported
    requires |answers| >= 1 && answers[0] == Yes && oracle.railsNew == Error
    ensures Scaffold(inv, oracle, answers)
            == Run([CheckRailsVersion, AskHaveCreateReactApp, RunRailsNew(inv.dest), Notify(RailsNewFailed)], Aborted)
  {
  }

  /** Actions of the stages up to and including the port negotiation. */
  predicate BeforeSettling(a: Action) {
    IsSetupStep(a) || IsPortQuestion(a)
  }

  /** The part of a trace before a port is settled: its longest prefix of
      setup steps and port questions. */
  function Preamble(t: seq<Action>): (p: seq<Action>)
    ensures |p| <= |t| && p == t[..|p|]
    ensures forall i :: 0 <= i < |p| ==> BeforeSettling(p[i])
    ensures |p| < |t| ==> !BeforeSettling(t[|p|])
  {
    if |t| == 0 || !BeforeSettling(t[0]) then []
    else [t[0]] + Preamble(t[1..])
  }

  lemma {:induction false} PreambleAfter(q: seq<Action>, t: seq<Action>)
    requires forall j :: 0 <= j < |q| ==> BeforeSettling(q[j])
    ensures Preamble(q + t) == q + Preamble(t)
    decreases |q|
  {
    if |q| > 0 {
      assert (q + t)[0] == q[0];
      assert (q + t)[1..] == q[1..] + t;
      PreambleAfter(q[1..], t);
      assert [q[0]] + (q[1..] + Preamble(t)) == q + Preamble(t);
    } else {
      assert q + t == t;
    }
  }

  /** Settling starts with `fin` or the Gemfile patch, so it adds nothing to
      the preamble. */
  lemma SettlePreamble(full: bool, oracle: Oracle, port: PortValue, answers: seq<string>)
    ensures Preamble(Settle(full, oracle, port, answers).trace) == []
  {
    var t := Settle(full, oracle, port, answers).trace;
    assert t[0] == if full then PatchGemfile else Finish(port);
  }

  /** The questions of the port negotiation depend on the answers alone, not
      on anything the external commands report. */
  lemma {:induction false} NegotiationIgnoresOracle(full: bool, o1: Oracle, o2: Oracle, answers: seq<string>)
    ensures Preamble(PortPrompt(full, o1, answers).trace) == Preamble(PortPrompt(full, o2, answers).trace)
    decreases |answers|
  {
    var q := [AskPort, WarnPort3000, AskKeepPort3000];
    if |answers| >= 1 {
      var text := WithDefault(answers[0], DefaultServerPort);
      if text != ClientDefaultPort {
        PreambleAfter([AskPort], Settle(full, o1, Defined(text), answers[1..]).trace);
        PreambleAfter([AskPort], Settle(full, o2, Defined(text), answers[1..]).trace);
        SettlePreamble(full, o1, Defined(text), answers[1..]);
        SettlePreamble(full, o2, Defined(text), answers[1..]);
      } else if |answers| >= 2 && answers[1] == No {
        NegotiationIgnoresOracle(full, o1, o2, answers[2..]);
        PreambleAfter(q, PortPrompt(full, o1, answers[2..]).trace);
        PreambleAfter(q, PortPrompt(full, o2, answers[2..]).trace);
      } else if |answers| >= 2 {
        PreambleAfter(q, Settle(full, o1, Undefined, answers[2..]).trace);
        PreambleAfter(q, Settle(full, o2, Undefined, answers[2..]).trace);
        SettlePreamble(full, o1, Undefined, answers[2..]);
        SettlePreamble(full, o2, Undefined, answers[2..]);
      }
    }
  }

  /** The client generator's result is not looked at: whatever it leaves
      behind, the run is the same up to and including the port negotiation,
      and a run that stops before the port prompt is the same throughout. */
  lemma ClientGeneratorResultIgnored(inv: Invocation, oracle: Oracle, answers: seq<string>, manifest: bool)
    ensures var r1 := Scaffold(inv, oracle, answers);
            var r2 := Scaffold(inv, oracle.(clientManifest := manifest), answers);
            Preamble(r1.trace) == Preamble(r2.trace)
            && (!ReachesPortPrompt(inv, oracle, answers) ==> r1 == r2)
    ensures ReachesPortPrompt(inv, oracle, answers) ==>
              var p := Preamble(Scaffold(inv, oracle, answers).trace);
              |p| >= 8 && p[..8] == SetupTrace(inv.dest) + [AskPort]
  {
    var o2 := oracle.(clientManifest := manifest);
    if ReachesPortPrompt(inv, oracle, answers) {
      ReachedPreamble(inv, oracle, answers);
      ReachedPreamble(inv, o2, answers);
      NegotiationIgnoresOracle(inv.full, oracle, o2, answers[1..]);
    } else {
      StoppedEarlyIgnoresManifest(inv, oracle, answers, manifest);
    }
  }

  /** The preamble of a run that reaches the port prompt: the seven setup
      steps, then the questions of the negotiation. */
  lemma ReachedPreamble(inv: Invocation, oracle: Oracle, answers: seq<string>)
    requires ReachesPortPrompt(inv, oracle, answers)
    ensures var p := Preamble(Scaffold(inv, oracle, answers).trace);
            p == SetupTrace(inv.dest) + Preamble(PortPrompt(inv.full, oracle, answers[1..]).trace)
            && |p| >= 8 && p[..8] == SetupTrace(inv.dest) + [AskPort]
  {
    var setup := SetupTrace(inv.dest);
    var t := PortPrompt(inv.full, oracle, answers[1..]).trace;
    RunShape(inv, oracle, answers);
    assert forall j :: 0 <= j < |setup| ==> BeforeSettling(setup[j]);
    PreambleAfter(setup, t);
    PortPromptOpens(inv.full, oracle, answers[1..]);
  }

  /** The port negotiation opens with the port question. */
  lemma PortPromptOpens(full: bool, oracle: Oracle, answers: seq<string>)
    ensures var p := Preamble(PortPrompt(full, oracle, answers).trace);
            |p| >= 1 && p[0] == AskPort
  {
    var t := PortPrompt(full, oracle, answers).trace;
    assert t[0] == AskPort;
  }

  /** A run that stops before the port prompt never looks at the manifest. */
  lemma StoppedEarlyIgnoresManifest(inv: Invocation, oracle: Oracle, answers: seq<string>, manifest: bool)
    requires !ReachesPortPrompt(inv, oracle, answers)
    ensures Scaffold(inv, oracle, answers) == Scaffold(inv, oracle.(clientManifest := manifest), answers)
  {
    var o2 := oracle.(clientManifest := manifest);
    if inv.dest != "" && !inv.destExists && oracle.railsVersions == Supported
       && |answers| >= 1 && answers[0] == Yes {
      assert InstallApps(inv, oracle, answers[1..]) == InstallApps(inv, o2, answers[1..]);
    }
  }

  // ---------------------------------------------------------------------------
  // Port negotiation

  /** Any port answer other than "3000" goes straight on, unconfirmed, with
      that port (the prompt's default "3001" for an empty answer). */
  lemma OtherPortGoesStraightOn(full: bool, oracle: Oracle, answers: seq<string>)
    requires |answers| >= 1
    requires WithDefault(answers[0], DefaultServerPort) != ClientDefaultPort
    ensures var p := Defined(WithDefault(answers[0], DefaultServerPort));
            var t := PortPrompt(full, oracle, answers).trace;
            t[0] == AskPort
            && (forall i :: 1 <= i < |t| ==> !IsPortQuestion(t[i]))
            && PortsIn(t) <= {p}
            && (oracle.clientManifest ==> PortsIn(t) == {p} && PatchProxy(p) in t)
            && (!full ==> t[1] == Finish(p))
            && (!full && oracle.clientManifest ==> t[1..] == [Finish(p), PatchProxy(p)])
  {
    var p := Defined(WithDefault(answers[0], DefaultServerPort));
    var s := Settle(full, oracle, p, answers[1..]).trace;
    SettleUsesPort(full, oracle, p, answers[1..]);
    var t := PortPrompt(full, oracle, answers).trace;
    assert t == [AskPort] + s;
    PortsAfterQuestions([AskPort], s);
    forall i | 1 <= i < |t|
      ensures !IsPortQuestion(t[i])
    {
      assert t[i] == s[i - 1];
    }
    if oracle.clientManifest {
      var k :| 0 <= k < |s| && s[k] == PatchProxy(p);
      assert t[k + 1] == s[k];
    }
  }

  /** "3000" then "No": the warning and the confirmation, then the port prompt
      again with the remaining answers, and nothing else in between. */
  lemma RejectingDefaultPortAsksAgain(full: bool, oracle: Oracle, answers: seq<string>)
    requires |answers| >= 2
    requires WithDefault(answers[0], DefaultServerPort) == ClientDefaultPort && answers[1] == No
    ensures PortPrompt(full, oracle, answers)
            == Then([AskPort, WarnPort3000, AskKeepPort3000], PortPrompt(full, oracle, answers[2..]))
  {
  }

  /** "3000" then anything but "No": the steps after the confirmation get
      `undefined`, never "3000". */
  lemma ConfirmingDefaultPortLosesIt(full: bool, oracle: Oracle, answers: seq<string>)
    requires |answers| >= 2
    requires WithDefault(answers[0], DefaultServerPort) == ClientDefaultPort && answers[1] != No
    ensures var t := PortPrompt(full, oracle, answers).trace;
            PortsIn(t) <= {Undefined}
            && Defined(ClientDefaultPort) !in PortsIn(t)
            && (oracle.clientManifest ==> PortsIn(t) == {Undefined} && PatchProxy(Undefined) in t)
            && (!full ==> Finish(Undefined) in t)
  {
    var q := [AskPort, WarnPort3000, AskKeepPort3000];
    var s := Settle(full, oracle, Undefined, answers[2..]).trace;
    SettleUsesPort(full, oracle, Undefined, answers[2..]);
    var t := PortPrompt(full, oracle, answers).trace;
    assert t == q + s;
    PortsAfterQuestions(q, s);
    if oracle.clientManifest {
      var k :| 0 <= k < |s| && s[k] == PatchProxy(Undefined);
      assert t[k + 3] == s[k];
    }
    if !full {
      assert t[3] == Finish(Undefined);
    }
  }

  /** The port negotiation found by scanning the answers two at a time: a
      settled negotiation hands on `port` and no other, and, when the manifest
      can be read, certainly `port`; an unsettled one leaves the script waiting
      at a prompt with no port handed on. */
  method NegotiatePort(full: bool, oracle: Oracle, answers: seq<string>)
    returns (settled: bool, port: PortValue)
    ensures var r := PortPrompt(full, oracle, answers);
            settled ==> PortsIn(r.trace) <= {port} && r.end != Aborted
                        && (oracle.clientManifest ==> PortsIn(r.trace) == {port})
    ensures var r := PortPrompt(full, oracle, answers);
            !settled ==> PortsIn(r.trace) == {} && r.end == AwaitingAnswer
    ensures settled && |answers| >= 1 && WithDefault(answers[0], DefaultServerPort) != ClientDefaultPort
            ==> port == Defined(WithDefault(answers[0], DefaultServerPort))
  {
    var i := 0;
    var asked: seq<Action> := [];
    while i < |answers|
      invariant 0 <= i <= |answers|
      invariant PortPrompt(full, oracle, answers) == Then(asked, PortPrompt(full, oracle, answers[i..]))
      invariant NoPortCarried(asked)
      invariant i > 0 ==> WithDefault(answers[0], DefaultServerPort) == ClientDefaultPort
      decreases |answers| - i
    {
      var rest := answers[i..];
      var text := WithDefault(answers[i], DefaultServerPort);
      if text != ClientDefaultPort {
        settled, port := true, Defined(text);
        NegotiationSettles(full, oracle, rest, asked);
        return;
      } else if i + 1 == |answers| {
        settled, port := false, Undefined;
        NegotiationWaits(full, oracle, rest, asked);
        return;
      } else if answers[i + 1] == No {
        var q := [AskPort, WarnPort3000, AskKeepPort3000];
        RejectingDefaultPortAsksAgain(full, oracle, rest);
        assert rest[2..] == answers[i + 2..];
        ThenThen(asked, q, PortPrompt(full, oracle, answers[i + 2..]));
        NoPortInQuestions(asked);
        asked := asked + q;
        i := i + 2;
      } else {
        settled, port := true, Undefined;
        NegotiationSettles(full, oracle, rest, asked);
        return;
      }
    }
    assert answers[i..] == [];
    NegotiationWaits(full, oracle, [], asked);
    settled, port := false, Undefined;
  }

  lemma ThenThen(a: seq<Action>, b: seq<Action>, r: Run)
    ensures Then(a, Then(b, r)) == Then(a + b, r)
  {
    assert a + (b + r.trace) == (a + b) + r.trace;
  }

  lemma NoPortInQuestions(asked: seq<Action>)
    requires NoPortCarried(asked)
    ensures NoPortCarried(asked + [AskPort, WarnPort3000, AskKeepPort3000])
  {
    var t := asked + [AskPort, WarnPort3000, AskKeepPort3000];
    forall i | 0 <= i < |t|
      ensures !CarriesPort(t[i])
    {
      if i < |asked| {
        assert t[i] == asked[i];
      }
    }
  }

  /** One round of the negotiation that settles a port. */
  lemma NegotiationSettles(full: bool, oracle: Oracle, rest: seq<string>, asked: seq<Action>)
    requires NoPortCarried(asked) && |rest| >= 1
    requires var text := WithDefault(rest[0], DefaultServerPort);
             text != ClientDefaultPort || (|rest| >= 2 && rest[1] != No)
    ensures var text := WithDefault(rest[0], DefaultServerPort);
            var port := if text != ClientDefaultPort then Defined(text) else Undefined;
            var r := Then(asked, PortPrompt(full, oracle, rest));
            PortsIn(r.trace) <= {port} && r.end != Aborted
            && (oracle.clientManifest ==> PortsIn(r.trace) == {port})
  {
    var text := WithDefault(rest[0], DefaultServerPort);
    var r := PortPrompt(full, oracle, rest);
    if text != ClientDefaultPort {
      OtherPortGoesStraightOn(full, oracle, rest);
    } else {
      ConfirmingDefaultPortLosesIt(full, oracle, rest);
    }
    PortsAfterQuestions(asked, r.trace);
  }

  /** One round of the negotiation that runs out of answers. */
  lemma NegotiationWaits(full: bool, oracle: Oracle, rest: seq<string>, asked: seq<Action>)
    requires NoPortCarried(asked)
    requires |rest| == 0 || (|rest| == 1 && WithDefault(rest[0], DefaultServerPort) == ClientDefaultPort)
    ensures var r := Then(asked, PortPrompt(full, oracle, rest));
            PortsIn(r.trace) == {} && r.end == AwaitingAnswer
  {
    var r := PortPrompt(full, oracle, rest);
    assert forall i :: 0 <= i < |r.trace| ==> IsPortQuestion(r.trace[i]);
    PortsAfterQuestions(asked, r.trace);
  }

  // ---------------------------------------------------------------------------
  // Minimal and full mode

  /** In minimal mode the port negotiation ends, if it ends, with `fin` and the
      manifest patch, and no full-mode step ever happens. It crashes only on an
      unreadable manifest, and then right after `fin`. */
  lemma {:induction false} MinimalPortPrompt(oracle: Oracle, answers: seq<string>)
    ensures var t := PortPrompt(false, oracle, answers).trace;
            forall i :: 0 <= i < |t| ==> !IsFullOnly(t[i])
    ensures var r := PortPrompt(false, oracle, answers);
            var n := |r.trace|;
            r.end == Completed ==>
              n >= 2 && r.trace[n - 2].Finish? && r.trace[n - 1] == PatchProxy(r.trace[n - 2].port)
    ensures var r := PortPrompt(false, oracle, answers);
            var n := |r.trace|;
            r.end == Crashed ==> !oracle.clientManifest && n >= 1 && r.trace[n - 1].Finish?
    ensures PortPrompt(false, oracle, answers).end in {Completed, AwaitingAnswer, Crashed}
    decreases |answers|
  {
    var t := PortPrompt(false, oracle, answers).trace;
    if |answers| >= 1 {
      var text := WithDefault(answers[0], DefaultServerPort);
      var q := [AskPort, WarnPort3000, AskKeepPort3000];
      if text != ClientDefaultPort {
        var p := Defined(text);
        assert t == if oracle.clientManifest then [AskPort, Finish(p), PatchProxy(p)] else [AskPort, Finish(p)];
      } else if |answers| >= 2 && answers[1] == No {
        MinimalPortPrompt(oracle, answers[2..]);
        var s := PortPrompt(false, oracle, answers[2..]).trace;
        assert t == q + s;
        forall i | 0 <= i < |t|
          ensures !IsFullOnly(t[i])
        {
          if i >= 3 {
            assert t[i] == s[i - 3];
          } else {
            assert t[i] == q[i];
          }
        }
        if PortPrompt(false, oracle, answers).end == Completed {
          assert t[|t| - 2] == s[|s| - 2] && t[|t| - 1] == s[|s| - 1];
        }
        if PortPrompt(false, oracle, answers).end == Crashed {
          assert t[|t| - 1] == s[|s| - 1];
        }
      } else if |answers| >= 2 {
        var p := Undefined;
        assert t == if oracle.clientManifest then q + [Finish(p), PatchProxy(p)] else q + [Finish(p)];
      }
    }
  }

  /** Minimal mode: `fin` is called with the port directly and no Gemfile,
      model or configuration patch and no extra command happens; a completed
      run ends with `fin` and then the manifest patch. */
  lemma MinimalSkipsFullSteps(inv: Invocation, oracle: Oracle, answers: seq<string>)
    requires !inv.full
    ensures var t := Scaffold(inv, oracle, answers).trace;
            forall i :: 0 <= i < |t| ==> !IsFullOnly(t[i])
    ensures var r := Scaffold(inv, oracle, answers);
            var n := |r.trace|;
            r.end == Completed ==>
              n >= 2 && r.trace[n - 2].Finish? && r.trace[n - 1] == PatchProxy(r.trace[n - 2].port)
  {
    var t := Scaffold(inv, oracle, answers).trace;
    RunShape(inv, oracle, answers);
    if ReachesPortPrompt(inv, oracle, answers) {
      var p := PortPrompt(false, oracle, answers[1..]).trace;
      MinimalPortPrompt(oracle, answers[1..]);
      var pre := SetupTrace(inv.dest);
      assert t == pre + p;
      forall i | 0 <= i < |t|
        ensures !IsFullOnly(t[i])
      {
        if i >= 7 {
          assert t[i] == p[i - 7];
        } else {
          assert t[i] == pre[i];
        }
      }
      if Scaffold(inv, oracle, answers).end == Completed {
        assert t[|t| - 2] == p[|p| - 2] && t[|t| - 1] == p[|p| - 1];
      }
    }
  }

  /** Full mode with a readable manifest: once a port is settled, the Gemfile
      patch, `bundle`, `yarn add`, the starter-file removal and the manifest
      patch are started in that order, then the Devise model is asked for. The
      run completes exactly when the model name is answered and the model file
      is found, and then ends with the model patch, the configuration patch and
      `fin`, the last two with the settled port. A failed devise chain is
      reported either way; a missing model file ends the run right after the
      chain, with no patch of the model or configuration and no `fin`. */
  lemma FullSettlementOrder(oracle: Oracle, port: PortValue, answers: seq<string>)
    ensures var t := Settle(true, oracle, port, answers).trace;
            oracle.clientManifest ==>
              |t| >= 6 && t[..5] == FullModeCommands + [PatchProxy(port)] && t[5] == AskDeviseModel
    ensures var r := Settle(true, oracle, port, answers);
            r.end == Completed <==> oracle.clientManifest && |answers| >= 1 && oracle.modelFileFound
    ensures var r := Settle(true, oracle, port, answers);
            var n := |r.trace|;
            r.end == Completed ==>
              n >= 8 && r.trace[n - 3].PatchModel?
              && r.trace[n - 2] == PatchDevConfig(port) && r.trace[n - 1] == Finish(port)
    ensures var r := Settle(true, oracle, port, answers);
            oracle.clientManifest && |answers| >= 1 ==>
              (Notify(DeviseChainFailed) in r.trace <==> oracle.deviseChain == Error)
              && r.trace[6] == RunDeviseChain(WithDefault(answers[0], DefaultDeviseModel))
    ensures var r := Settle(true, oracle, port, answers);
            oracle.clientManifest && |answers| >= 1 && !oracle.modelFileFound ==>
              r.end == Crashed
              && forall i :: 6 < i < |r.trace| ==> r.trace[i] == Notify(DeviseChainFailed)
  {
    if oracle.clientManifest {
      var t := Settle(true, oracle, port, answers).trace;
      var pre := FullModeCommands + [PatchProxy(port)];
      var d := DeviseSetup(oracle, port, answers).trace;
      assert t == pre + d;
      assert t[..5] == pre;
      DeviseSetupOrder(oracle, port, answers);
      if |answers| >= 1 {
        assert t[5..] == d;
        if Notify(DeviseChainFailed) in t {
          var k :| 0 <= k < |t| && t[k] == Notify(DeviseChainFailed);
          assert k >= 5 && d[k - 5] == t[k];
        }
        if Notify(DeviseChainFailed) in d {
          var k :| 0 <= k < |d| && d[k] == Notify(DeviseChainFailed);
          assert t[k + 5] == d[k];
        }
        if !oracle.modelFileFound {
          forall i | 6 < i < |t|
            ensures t[i] == Notify(DeviseChainFailed)
          {
            assert t[i] == d[i - 5];
          }
        }
      }
    }
  }

  /** The callback of `bundle` on its own: the model question, then the chain
      with the model name, a report exactly when the chain failed, and the
      patches and `fin` exactly when the model file is found. */
  lemma DeviseSetupOrder(oracle: Oracle, port: PortValue, answers: seq<string>)
    ensures var r := DeviseSetup(oracle, port, answers);
            |r.trace| >= 1 && r.trace[0] == AskDeviseModel
            && (r.end == Completed <==> |answers| >= 1 && oracle.modelFileFound)
    ensures var r := DeviseSetup(oracle, port, answers);
            var n := |r.trace|;
            r.end == Completed ==>
              n >= 5 && r.trace[n - 3].PatchModel?
              && r.trace[n - 2] == PatchDevConfig(port) && r.trace[n - 1] == Finish(port)
    ensures var d := DeviseSetup(oracle, port, answers).trace;
            |answers| >= 1 ==>
              (Notify(DeviseChainFailed) in d <==> oracle.deviseChain == Error)
              && d[1] == RunDeviseChain(WithDefault(answers[0], DefaultDeviseModel))
    ensures var r := DeviseSetup(oracle, port, answers);
            |answers| >= 1 && !oracle.modelFileFound ==>
              r.end == Crashed
              && forall i :: 1 < i < |r.trace| ==> r.trace[i] == Notify(DeviseChainFailed)
  {
    var d := DeviseSetup(oracle, port, answers).trace;
    if |answers| >= 1 {
      var model := WithDefault(answers[0], DefaultDeviseModel);
      var report := if oracle.deviseChain == Error then [Notify(DeviseChainFailed)] else [];
      var tail := if oracle.modelFileFound then [PatchModel(model), PatchDevConfig(port), Finish(port)] else [];
      assert d == [AskDeviseModel, RunDeviseChain(model)] + report + tail;
      if oracle.deviseChain == Error {
        assert d[2] == Notify(DeviseChainFailed);
      } else {
        assert Notify(DeviseChainFailed) !in d;
      }
    }
  }
}
