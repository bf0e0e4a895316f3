/** What the emitted prelude and epilogue do when the module runs in the
    browser: the global `$RefreshReg$`/`$RefreshSig$` slots, the registration
    forwarder, the signature tracker and the update handler. The registry's
    `sign` is a parameter; `register` and `flushUpdates` appear as the calls
    made and the outcome observed. */
module Runtime {
  import opened Results
  import opened Markers
  import JsonString
  import Assembly
  import opened Text

  /** A JavaScript value as the hooks see it: only truthiness matters. */
  datatype JsValue = Undefined | Null | Object(ref: nat)

  predicate Truthy(v: JsValue) {
    v.Object?
  }

  /** Contents of `self.$RefreshReg$`: unset, the no-op default, this plugin's
      forwarder (carrying the file-id literal spliced into the prelude), or a
      function installed by someone else. */
  datatype RegHook = RegUnset | RegNoop | RegForward(fileIdLiteral: string) | RegForeign(owner: nat)

  /** Contents of `self.$RefreshSig$`: unset, the identity default, this
      plugin's tracker factory, or a function installed by someone else. */
  datatype SigHook = SigUnset | SigIdentity | SigTracking | SigForeign(owner: nat)

  datatype HookSlots = HookSlots(reg: RegHook, sig: SigHook)

  /** `self.$RefreshReg$ || (() => {})` and `self.$RefreshSig$ || (() => (type) => type)`:
      what the prelude saves. */
  function Defaulted(slots: HookSlots): (saved: HookSlots)
    ensures saved.reg != RegUnset && saved.sig != SigUnset
    ensures slots.reg == RegUnset ==> saved.reg == RegNoop
    ensures slots.sig == SigUnset ==> saved.sig == SigIdentity
    ensures slots.reg != RegUnset ==> saved.reg == slots.reg
    ensures slots.sig != SigUnset ==> saved.sig == slots.sig
  {
    HookSlots(if slots.reg == RegUnset then RegNoop else slots.reg,
              if slots.sig == SigUnset then SigIdentity else slots.sig)
  }

  /** The hooks a module's prelude installs. */
  function Installed(fileId: string): HookSlots {
    HookSlots(RegForward(JsonString.Stringify(fileId)), SigTracking)
  }

  /** After the prelude: the slots, and `prevRefreshReg`/`prevRefreshSig`
      (absent when there is no hot context, as the `let`s stay undefined). */
  datatype PreludeState = PreludeState(slots: HookSlots, saved: Option<HookSlots>)

  function RunPrelude(before: HookSlots, hot: bool, fileId: string): PreludeState {
    if hot then PreludeState(Installed(fileId), Some(Defaulted(before)))
    else PreludeState(before, None)
  }

  /** The statements of the epilogue's hot branch, in source order. */
  datatype EpilogueStep = RestoreReg | RestoreSig | RegisterAccept

  const EpilogueSteps: seq<EpilogueStep> := [RestoreReg, RestoreSig, RegisterAccept]

  /** The epilogue statement each step stands for. */
  function StepText(step: EpilogueStep): string {
    match step
    case RestoreReg => Assembly.RestoreRegText
    case RestoreSig => Assembly.RestoreSigText
    case RegisterAccept => Assembly.AcceptText
  }

  function StepsText(steps: seq<EpilogueStep>): string
    decreases |steps|
  {
    if steps == [] then [] else StepText(steps[0]) + StepsText(steps[1..])
  }

  /** The steps are the epilogue's statements in the order the emitted text
      holds them: the text is its opening, the steps' statements one after
      another, and its closing. So the `$RefreshSig$` restore is written
      before the `import.meta.hot.accept(` call. */
  lemma EpilogueStepsFollowText()
    ensures Assembly.Epilogue == Assembly.EpilogueOpen + StepsText(EpilogueSteps) + Assembly.EpilogueClose
    ensures var sigAt := |Assembly.EpilogueOpen + Assembly.RestoreRegText|;
            var acceptAt := sigAt + |Assembly.RestoreSigText|;
            && OccursAt(Assembly.Epilogue, Assembly.RestoreSigText, sigAt)
            && OccursAt(Assembly.Epilogue, Assembly.AcceptText, acceptAt)
            && sigAt < acceptAt
  {
    StepsSpelledOut();
    FiveParts(Assembly.EpilogueOpen, Assembly.RestoreRegText, Assembly.RestoreSigText,
              Assembly.AcceptText, Assembly.EpilogueClose);
  }

  /** The epilogue's steps, as text, are its three statements in order. */
  lemma StepsSpelledOut()
    ensures StepsText(EpilogueSteps) == StepText(RestoreReg) + StepText(RestoreSig) + StepText(RegisterAccept)
  {
    assert EpilogueSteps[1..] == [RestoreSig, RegisterAccept];
    assert EpilogueSteps[1..][1..] == [RegisterAccept];
    assert StepsText([RegisterAccept]) == StepText(RegisterAccept) + StepsText([]);
  }

  /** In a text made of five parts, the third and fourth start where their
      predecessors end. */
  lemma FiveParts(open: string, reg: string, sig: string, acc: string, close: string)
    requires |sig| > 0
    ensures open + reg + sig + acc + close == open + (reg + sig + acc) + close
    ensures OccursAt(open + reg + sig + acc + close, sig, |open + reg|)
    ensures OccursAt(open + reg + sig + acc + close, acc, |open + reg| + |sig|)
    ensures |open + reg| < |open + reg| + |sig|
  {
    SpliceAt(open + reg, sig, acc + close);
    SpliceAt(open + reg + sig, acc, close);
    assert open + reg + sig + acc + close == (open + reg) + sig + (acc + close);
  }

  /** A text spliced between two others occurs where it was put. */
  lemma SpliceAt(before: string, middle: string, after: string)
    ensures OccursAt(before + middle + after, middle, |before|)
  {
    assert (before + middle + after)[|before|..|before| + |middle|] == middle;
  }

  /** Slots and handler count as the steps run. */
  datatype EpilogueState = EpilogueState(slots: HookSlots, accepts: nat, slotsAtAccept: seq<HookSlots>)

  function ExecStep(step: EpilogueStep, saved: HookSlots, st: EpilogueState): EpilogueState {
    match step
    case RestoreReg => st.(slots := st.slots.(reg := saved.reg))
    case RestoreSig => st.(slots := st.slots.(sig := saved.sig))
    case RegisterAccept => st.(accepts := st.accepts + 1, slotsAtAccept := st.slotsAtAccept + [st.slots])
  }

  function ExecSteps(steps: seq<EpilogueStep>, saved: HookSlots, st: EpilogueState): EpilogueState
    decreases |steps|
  {
    if steps == [] then st else ExecSteps(steps[1..], saved, ExecStep(steps[0], saved, st))
  }

  /** The epilogue: under a hot context, run its steps against the saved hooks.
      Yields the slots and the number of handlers registered. */
  function RunEpilogue(st: PreludeState, hot: bool): (HookSlots, nat) {
    if hot && st.saved.Some? then
      var done := ExecSteps(EpilogueSteps, st.saved.value, EpilogueState(st.slots, 0, []));
      (done.slots, done.accepts)
    else (st.slots, 0)
  }

  /** The update handler is registered once, and only after both hooks are put
      back: at that moment the slots already hold the saved hooks, and they
      still do when the epilogue ends. */
  lemma RestoreBeforeAccept(saved: HookSlots, slots: HookSlots)
    ensures var done := ExecSteps(EpilogueSteps, saved, EpilogueState(slots, 0, []));
            done.slotsAtAccept == [saved] && done.accepts == 1 && done.slots == saved
  {
    var s1 := ExecStep(RestoreReg, saved, EpilogueState(slots, 0, []));
    var s2 := ExecStep(RestoreSig, saved, s1);
    var s3 := ExecStep(RegisterAccept, saved, s2);
    assert s2.slots == saved;
    assert EpilogueSteps[1..] == [RestoreSig, RegisterAccept];
    assert EpilogueSteps[1..][1..] == [RegisterAccept];
    assert ExecSteps(EpilogueSteps, saved, EpilogueState(slots, 0, [])) == ExecSteps([], saved, s3);
  }

  /** One evaluation of an emitted module: the hooks its body calls, the hooks
      it leaves behind, the update handlers it registers. */
  datatype Evaluation = Evaluation(bodyHooks: HookSlots, after: HookSlots, accepts: nat)

  /** Evaluates the module the plugin produced for a body of shape `shape`. */
  function Evaluate(shape: Classification, hot: bool, fileId: string, before: HookSlots): (e: Evaluation)
    ensures shape == NoMarkers || !hot ==> e == Evaluation(before, before, 0)
    ensures shape != NoMarkers && hot ==> e.bodyHooks == Installed(fileId)
    ensures shape == Full && hot ==> e.after == Defaulted(before) && e.accepts == 1
    ensures shape == SignatureOnly && hot ==> e.after == Installed(fileId) && e.accepts == 0
  {
    match shape
    case NoMarkers => Evaluation(before, before, 0)
    case SignatureOnly =>
      var p := RunPrelude(before, hot, fileId);
      Evaluation(p.slots, p.slots, 0)
    case Full =>
      var p := RunPrelude(before, hot, fileId);
      RestoreBeforeAccept(Defaulted(before), p.slots);
      var (after, accepts) := RunEpilogue(p, hot);
      Evaluation(p.slots, after, accepts)
  }

  /** Evaluates modules one after another (module bodies never interleave),
      each under a hot context; yields the hooks left in the slots. */
  function EvaluateAll(modules: seq<(Classification, string)>, slots: HookSlots): HookSlots
    decreases |modules|
  {
    if modules == [] then slots
    else EvaluateAll(modules[1..], Evaluate(modules[0].0, true, modules[0].1, slots).after)
  }

  /** Defaulting twice is defaulting once. */
  lemma DefaultedIdempotent(slots: HookSlots)
    ensures Defaulted(Defaulted(slots)) == Defaulted(slots)
  {
  }

  /** Modules that register restore the hooks they found, so after any run of
      them the slots hold what was there before (unset slots now defaulted). */
  lemma {:induction false} RegisteringModulesRestoreHooks(modules: seq<(Classification, string)>, slots: HookSlots)
    requires forall i :: 0 <= i < |modules| ==> modules[i].0 == Full
    requires |modules| > 0
    ensures EvaluateAll(modules, slots) == Defaulted(slots)
    decreases |modules|
  {
    var next := Evaluate(modules[0].0, true, modules[0].1, slots).after;
    assert next == Defaulted(slots);
    if |modules| > 1 {
      RegisteringModulesRestoreHooks(modules[1..], next);
      DefaultedIdempotent(slots);
    }
  }

  /** Reference account of what a sequence of module evaluations leaves in the
      slots: the hooks of the last signature-only module (which has no
      epilogue), else the defaulted originals if any module registered, else
      the originals. */
  function LeftBehind(modules: seq<(Classification, string)>, slots: HookSlots): HookSlots
    decreases |modules|
  {
    if modules == [] then slots
    else
      var last := modules[|modules| - 1];
      match last.0
      case SignatureOnly => Installed(last.1)
      case Full => Defaulted(LeftBehind(modules[..|modules| - 1], slots))
      case NoMarkers => LeftBehind(modules[..|modules| - 1], slots)
  }

  /** Evaluating one more module acts on what the earlier ones left. */
  lemma {:induction false} EvaluateAllSnoc(modules: seq<(Classification, string)>, m: (Classification, string), slots: HookSlots)
    ensures EvaluateAll(modules + [m], slots) == Evaluate(m.0, true, m.1, EvaluateAll(modules, slots)).after
    decreases |modules|
  {
    if modules == [] {
      assert modules + [m] == [m];
    } else {
      assert (modules + [m])[1..] == modules[1..] + [m];
      EvaluateAllSnoc(modules[1..], m, Evaluate(modules[0].0, true, modules[0].1, slots).after);
    }
  }

  /** The slots after any sequence of evaluations are as `LeftBehind` says: a
      signature-only module leaves its own hooks installed. */
  lemma {:induction false} EvaluateAllLeavesBehind(modules: seq<(Classification, string)>, slots: HookSlots)
    ensures EvaluateAll(modules, slots) == LeftBehind(modules, slots)
    decreases |modules|
  {
    if modules != [] {
      var init := modules[..|modules| - 1];
      var last := modules[|modules| - 1];
      assert init + [last] == modules;
      EvaluateAllSnoc(init, last, slots);
      EvaluateAllLeavesBehind(init, slots);
    }
  }

  // ---------------------------------------------------------------------
  // The registration forwarder

  /** A call the registry receives: `register(type, id)` from this plugin's
      forwarder, or a call to someone else's hook. */
  datatype RegistryCall = Register(component: JsValue, id: string)
                        | Delegated(owner: nat, component: JsValue, localId: string)

  /** `self.$RefreshReg$(type, localId)` as the instrumented body calls it:
      calling an unset slot throws. */
  function CallReg(hook: RegHook, component: JsValue, localId: string): (r: Result<seq<RegistryCall>>)
    ensures r.Err? <==> hook == RegUnset || (hook.RegForward? && JsonString.ScanLiteral(hook.fileIdLiteral).None?)
    ensures r.Ok? ==> |r.value| <= 1 && (hook == RegNoop <==> r.value == [])
    ensures r.Ok? ==> forall k :: 0 <= k < |r.value| ==> r.value[k].component == component
  {
    match hook
    case RegUnset => Err("TypeError: self.$RefreshReg$ is not a function")
    case RegNoop => Ok([])
    case RegForeign(owner) => Ok([Delegated(owner, component, localId)])
    case RegForward(literal) =>
      match JsonString.ScanLiteral(literal)
      case Some((fileId, _)) => Ok([Register(component, fileId + " " + localId)])
      case None => Err("SyntaxError")
  }

  /** The forwarder a module installs registers `type` under
      `fileId + " " + localId`. */
  lemma ForwarderRegistersCompositeKey(fileId: string, component: JsValue, localId: string)
    ensures CallReg(Installed(fileId).reg, component, localId) == Ok([Register(component, fileId + " " + localId)])
  {
    JsonString.LiteralRoundTrip(fileId, []);
    assert JsonString.Stringify(fileId) + [] == JsonString.Stringify(fileId);
  }

  /** In `fileId + " " + localId` with a space-free local id, the separator is
      the last space. */
  lemma SeparatorIsLastSpace(fileId: string, localId: string)
    requires ' ' !in localId
    ensures var key := fileId + " " + localId;
            key[|fileId|] == ' ' && forall j :: |fileId| < j < |key| ==> key[j] != ' '
  {
    var key := fileId + " " + localId;
    forall j | |fileId| < j < |key|
      ensures key[j] != ' '
    {
      assert key[j] == localId[j - |fileId| - 1];
    }
  }

  /** The saved `$RefreshReg$` is always callable: a foreign hook still
      receives the call, and an unset slot was saved as the no-op, which
      records nothing. */
  lemma DefaultedRegIsCallable(slots: HookSlots, component: JsValue, localId: string)
    ensures !slots.reg.RegForward? ==> CallReg(Defaulted(slots).reg, component, localId).Ok?
    ensures slots.reg == RegUnset ==> CallReg(Defaulted(slots).reg, component, localId) == Ok([])
    ensures slots.reg.RegForeign? ==>
              CallReg(Defaulted(slots).reg, component, localId) == Ok([Delegated(slots.reg.owner, component, localId)])
  {
  }

  /** With local ids free of spaces (the rewrite uses identifiers), the
      composite key names one file and one local id. */
  lemma CompositeKeyInjective(file1: string, local1: string, file2: string, local2: string)
    requires ' ' !in local1 && ' ' !in local2
    requires file1 + " " + local1 == file2 + " " + local2
    ensures file1 == file2 && local1 == local2
  {
    var key := file1 + " " + local1;
    SeparatorIsLastSpace(file1, local1);
    SeparatorIsLastSpace(file2, local2);
    if |file1| != |file2| {
      assert false;
    }
    assert file1 == key[..|file1|] == file2;
    assert local1 == key[|file1| + 1..] == local2;
  }

  // ---------------------------------------------------------------------
  // The signature tracker

  /** The state of one closure returned by the prelude's `$RefreshSig$()`. */
  datatype Tracker = Tracker(status: string, savedType: JsValue)

  /** `let status = 'begin'; let savedType;` */
  const FreshTracker := Tracker("begin", Undefined)

  /** The arguments the instrumented code passes the closure. The rewritten
      body also calls it with no arguments (`_s()`), so `key` and `forceReset`
      may be `undefined`, written `None`. */
  datatype SignArgs = SignArgs(component: JsValue, key: Option<string>, forceReset: Option<bool>, customHooks: JsValue)

  /** One call `sign(type, key, forceReset, getCustomHooks, status)`. */
  datatype SignCall = SignCall(component: JsValue, key: Option<string>, forceReset: Option<bool>, customHooks: JsValue, status: string)

  /** The registry's `sign`: returns the next status. */
  type SignFn = (JsValue, Option<string>, Option<bool>, JsValue, string) -> string

  function Apply(sign: SignFn, c: SignCall): string {
    sign(c.component, c.key, c.forceReset, c.customHooks, c.status)
  }

  /** One invocation of the closure: latch the first truthy type, call `sign`
      with `type || savedType` and the current status, keep the status it
      returns, return `type`. */
  function Invoke(t: Tracker, sign: SignFn, a: SignArgs): (r: (Tracker, JsValue, SignCall))
    ensures r.1 == a.component
    ensures r.2.status == t.status && r.0.status == Apply(sign, r.2)
    ensures Truthy(t.savedType) ==> r.0.savedType == t.savedType
    ensures !Truthy(t.savedType) ==> r.0.savedType == a.component
    ensures Truthy(a.component) || Truthy(t.savedType) ==> Truthy(r.2.component)
    ensures Truthy(a.component) ==> r.2.component == a.component
    ensures r.2.key == a.key && r.2.forceReset == a.forceReset && r.2.customHooks == a.customHooks
  {
    var saved := if !Truthy(t.savedType) then a.component else t.savedType;
    var call := SignCall(if Truthy(a.component) then a.component else saved,
                         a.key, a.forceReset, a.customHooks, t.status);
    (Tracker(Apply(sign, call), saved), a.component, call)
  }

  /** A run of invocations: the final state, what each returned, and the
      `sign` calls made. */
  datatype Trace = Trace(final: Tracker, returned: seq<JsValue>, calls: seq<SignCall>)

  function Run(t: Tracker, sign: SignFn, args: seq<SignArgs>): (tr: Trace)
    ensures |tr.returned| == |args| && |tr.calls| == |args|
    ensures forall i :: 0 <= i < |args| ==> tr.returned[i] == args[i].component
    ensures forall i :: 0 <= i < |args| ==>
              tr.calls[i].key == args[i].key && tr.calls[i].forceReset == args[i].forceReset
              && tr.calls[i].customHooks == args[i].customHooks
    decreases |args|
  {
    if args == [] then Trace(t, [], [])
    else
      var (next, value, call) := Invoke(t, sign, args[0]);
      var rest := Run(next, sign, args[1..]);
      Trace(rest.final, [value] + rest.returned, [call] + rest.calls)
  }

  /** The status is threaded: the first call gets the starting status, each
      later call the status `sign` returned to the one before, and the state
      keeps the last one returned. */
  lemma {:induction false} StatusThreaded(t: Tracker, sign: SignFn, args: seq<SignArgs>)
    ensures var tr := Run(t, sign, args);
            && (|args| > 0 ==> tr.calls[0].status == t.status)
            && (forall i :: 0 < i < |args| ==> tr.calls[i].status == Apply(sign, tr.calls[i - 1]))
            && tr.final.status == (if |args| == 0 then t.status else Apply(sign, tr.calls[|args| - 1]))
    decreases |args|
  {
    if args != [] {
      var (next, _, call) := Invoke(t, sign, args[0]);
      StatusThreaded(next, sign, args[1..]);
      var tr := Run(t, sign, args);
      var rest := Run(next, sign, args[1..]);
      assert tr.calls == [call] + rest.calls;
      if |args| > 1 {
        assert tr.calls[1] == rest.calls[0];
      }
    }
  }

  /** Reference definition: the first truthy type among the invocations. */
  function FirstTruthy(args: seq<SignArgs>): (r: Option<JsValue>)
    ensures r.Some? ==> Truthy(r.value)
    decreases |args|
  {
    if args == [] then None
    else if Truthy(args[0].component) then Some(args[0].component)
    else FirstTruthy(args[1..])
  }

  /** The type a closure has latched once it has seen `args`, starting from `saved`. */
  function Latched(saved: JsValue, args: seq<SignArgs>): Option<JsValue> {
    if Truthy(saved) then Some(saved) else FirstTruthy(args)
  }

  /** One invocation moves one argument from the list into the latched state. */
  lemma LatchedStep(t: Tracker, sign: SignFn, a: SignArgs, rest: seq<SignArgs>)
    ensures Latched(Invoke(t, sign, a).0.savedType, rest) == Latched(t.savedType, [a] + rest)
  {
    assert ([a] + rest)[1..] == rest;
  }

  /** The type the `i`-th `sign` call should receive: the invocation's own
      type when truthy, otherwise the type latched so far (or, if none, the
      falsy type itself). */
  function ExpectedSignType(saved: JsValue, args: seq<SignArgs>, i: nat): JsValue
    requires i < |args|
  {
    if Truthy(args[i].component) then args[i].component
    else Latched(saved, args[..i]).GetOr(args[i].component)
  }

  /** The `i`-th `sign` call receives `type || savedType`: its own type when
      truthy, else the first truthy type latched so far. */
  lemma {:induction false} SignSeesLatchedTypeAt(t: Tracker, sign: SignFn, args: seq<SignArgs>, i: nat)
    requires i < |args|
    ensures Run(t, sign, args).calls[i].component == ExpectedSignType(t.savedType, args, i)
    decreases i
  {
    var step := Invoke(t, sign, args[0]);
    var rest := Run(step.0, sign, args[1..]);
    assert Run(t, sign, args).calls == [step.2] + rest.calls;
    if i == 0 {
      assert args[..0] == [];
    } else {
      var tail := args[1..];
      assert tail[i - 1] == args[i];
      SignSeesLatchedTypeAt(step.0, sign, tail, i - 1);
      LatchedStep(t, sign, args[0], tail[..i - 1]);
      assert [args[0]] + tail[..i - 1] == args[..i];
      assert Latched(step.0.savedType, tail[..i - 1]) == Latched(t.savedType, args[..i]);
      assert ExpectedSignType(step.0.savedType, tail, i - 1) == ExpectedSignType(t.savedType, args, i);
      assert Run(t, sign, args).calls[i] == rest.calls[i - 1];
    }
  }

  /** Once any truthy type has been seen, the closure holds the first one. */
  lemma {:induction false} TrackerKeepsFirstTruthyType(t: Tracker, sign: SignFn, args: seq<SignArgs>)
    requires Latched(t.savedType, args).Some?
    ensures Run(t, sign, args).final.savedType == Latched(t.savedType, args).value
    decreases |args|
  {
    if args != [] {
      var (next, _, _) := Invoke(t, sign, args[0]);
      LatchedStep(t, sign, args[0], args[1..]);
      assert [args[0]] + args[1..] == args;
      TrackerKeepsFirstTruthyType(next, sign, args[1..]);
    }
  }

  // ---------------------------------------------------------------------
  // The update handler

  /** What `flushUpdates()` did: applied the update, or threw. */
  datatype FlushResult = Flushed | Threw(error: string)

  /** Observable effects of the handler. */
  datatype Effect = FlushUpdates | LocationReload

  /** The callback passed to `import.meta.hot.accept`: try to flush, and on
      any error reload the page. */
  function OnAccept(flush: FlushResult): (effects: seq<Effect>)
    ensures |effects| >= 1 && effects[0] == FlushUpdates
    ensures LocationReload in effects <==> flush.Threw?
    ensures multiset(effects)[LocationReload] == (if flush.Threw? then 1 else 0)
  {
    [FlushUpdates] + (if flush.Threw? then [LocationReload] else [])
  }

  function Failures(flushes: seq<FlushResult>): nat
    decreases |flushes|
  {
    if flushes == [] then 0 else (if flushes[0].Threw? then 1 else 0) + Failures(flushes[1..])
  }

  /** State carried across hot updates of one registering module. */
  datatype Session = Session(slots: HookSlots, effects: seq<Effect>, handlers: nat)

  /** Each update re-evaluates the new version of the module (which restores
      the hooks and registers a handler) and then runs the handler. */
  function Updates(fileId: string, s: Session, flushes: seq<FlushResult>): Session
    decreases |flushes|
  {
    if flushes == [] then s
    else
      var e := Evaluate(Full, true, fileId, s.slots);
      Updates(fileId, Session(e.after, s.effects + OnAccept(flushes[0]), s.handlers + e.accepts), flushes[1..])
  }

  /** Across any number of updates: the hooks stay as they were (defaulted),
      each update flushes once and registers one handler, and the page reloads
      exactly once per failed flush. */
  lemma {:induction false} UpdatesStayConsistent(fileId: string, s: Session, flushes: seq<FlushResult>)
    requires s.slots == Defaulted(s.slots)
    ensures var s' := Updates(fileId, s, flushes);
            && s'.slots == s.slots
            && s'.handlers == s.handlers + |flushes|
            && multiset(s'.effects)[FlushUpdates] == multiset(s.effects)[FlushUpdates] + |flushes|
            && multiset(s'.effects)[LocationReload] == multiset(s.effects)[LocationReload] + Failures(flushes)
    decreases |flushes|
  {
    if flushes != [] {
      var e := Evaluate(Full, true, fileId, s.slots);
      var next := Session(e.after, s.effects + OnAccept(flushes[0]), s.handlers + e.accepts);
      assert multiset(next.effects) == multiset(s.effects) + multiset(OnAccept(flushes[0]));
      UpdatesStayConsistent(fileId, next, flushes[1..]);
    }
  }
}
