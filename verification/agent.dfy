/**
 * The agent: `chrome.storage.local`'s three keys, the `Agent` class with its
 * throttle methods and its step loop, and the START/STOP message handling.
 * Everything the loop learns from the browser, the clock, the key store and
 * the network in step `n` is the input `env(n)`.
 */
module AgentLoop {
  import opened Wrappers
  import opened JsValues
  import opened Tabs
  import opened GeminiProtocol
  import opened GeminiClient
  import opened ActionExecutor
  import opened CaptureThrottle

  const StepDelayMs: nat := 800
  const DefaultMaxSteps: int := 10
  const DefaultResult: string := "success"
  const UnknownGoal: string := "Unknown goal"

  /** The keys of `chrome.storage.local` the agent reads and writes. */
  class Store {
    var lastCaptureAt: int
    var agentShouldRun: Option<bool>
    var lastAgentResult: Option<string>

    /** An empty storage area; an absent `lastCaptureAt` reads as 0. */
    constructor ()
      ensures lastCaptureAt == 0 && agentShouldRun.None? && lastAgentResult.None?
    {
      lastCaptureAt := 0;
      agentShouldRun := None;
      lastAgentResult := None;
    }
  }

  /** What one step learns from outside: tab queries, a STOP arriving, the capture, the key, the HTTP exchange, the tab's reply. */
  datatype StepEnv = StepEnv(
    tabs: seq<Tab>,
    stopBeforeCheck: bool,
    capture: CaptureOutcome,
    checkedAt: int,
    recordedAt: int,
    apiKey: Option<string>,
    http: HttpOutcome,
    navError: Option<string>,
    send: SendOutcome,
    requery: seq<Tab>)

  /** How a step ended: one of the four exits of the loop, or an executed action. */
  datatype StepOutcome =
    | NoTab
    | TabClosed
    | StopRequested
    | Finished(result: string)
    | Acted(action: Json, effect: Effect)

  /** One iteration: its step number, how it ended, its sleeps in order, and the request it sent. */
  datatype StepRecord = StepRecord(step: nat, outcome: StepOutcome, sleeps: seq<nat>, request: Option<Json>)

  /** Everything the loop carries from one iteration to the next. */
  datatype RunState = RunState(
    step: nat,
    tab: Option<Tab>,
    history: seq<Turn>,
    throttle: ThrottleState,
    shouldRun: Option<bool>,
    lastResult: Option<string>)

  /** From step 1 on, a tab has been resolved. */
  predicate Resumable(s: RunState) {
    s.step == 0 || s.tab.Some?
  }

  /** `options.maxSteps || 10` */
  function MaxSteps(option: Option<int>): (r: int)
    ensures r != 0
    ensures r == DefaultMaxSteps || option == Some(r)
  {
    if option.Some? && option.value != 0 then option.value else DefaultMaxSteps
  }

  /** `geminiAction.result || 'success'` */
  function StoredResult(d: Decision): (r: string)
    ensures r != ""
    ensures r == DefaultResult || d.result == Some(r)
  {
    if d.result.Some? && d.result.value != "" then d.result.value else DefaultResult
  }

  function StepDelay(step: nat): seq<nat> {
    if step > 1 then [StepDelayMs] else []
  }

  /** Step 1 picks the first normal tab; later steps look the stored tab up again by id in its window. */
  function ResolveTab(step: nat, previous: Option<Tab>, tabs: seq<Tab>): Option<Tab>
    requires step == 1 || previous.Some?
  {
    if step == 1 then GetNormalTab(tabs) else FindById(tabs, previous.value.id)
  }

  /** The stored flag as `shouldContinue` reads it, after a STOP that arrived before the read. */
  function FlagAtCheck(flag: Option<bool>, e: StepEnv): Option<bool> {
    if e.stopBeforeCheck then Some(false) else flag
  }

  /**
   * The rest of a step once a decision that is not `done` is in: execute it,
   * let normalisation's writes reach the shared arguments in the history, and
   * append the function response named by the decision's own action name.
   */
  function ActSpec(history: seq<Turn>, tab: Tab, d: Decision, e: StepEnv): (r: (Execution, seq<Turn>))
    ensures |r.1| == |history| + 1
    ensures r.1[|history|].FunctionResponseTurn? && r.1[|history|].name == d.action
    ensures !d.argsShared ==> r.1[..|history|] == history
  {
    WriteBackArgsEffect(history, Execute(tab, Action(d.action, d.args), e.navError, e.send).args);
    var x := Execute(tab, Action(d.action, d.args), e.navError, e.send);
    var h := if d.argsShared then WriteBackArgs(history, x.args) else history;
    (x, h + [BuildFunctionResponse(d.action, x.result, CurrentUrl(e.requery, tab))])
  }

  /**
   * The part of an iteration after the tab was found and the flag allowed it:
   * capture, ask the model, then store the result of a `done` or act.
   */
  function ProceedSpec(s: RunState, tab: Tab, delay: seq<nat>, e: StepEnv, goal: string, parse: string -> ParseResult)
    : (r: (RunState, StepRecord))
    ensures r.0.step == s.step && r.0.tab == s.tab && r.0.shouldRun == s.shouldRun
  {
    var c := CaptureSpec(s.throttle, e.capture, e.checkedAt, e.recordedAt);
    var call := CallSpec(c.screenshot, goal, s.history, e.apiKey, e.http, parse);
    var s1 := s.(throttle := c.state, history := call.history);
    if IsDone(call.decision) then
      var result := StoredResult(call.decision);
      (s1.(lastResult := Some(result)), StepRecord(s.step, Finished(result), delay + c.sleeps, call.request))
    else
      var (x, h) := ActSpec(call.history, tab, call.decision, e);
      (s1.(history := h), StepRecord(s.step, Acted(call.decision.action, x.effect), delay + c.sleeps + x.sleeps, call.request))
  }

  /** One iteration of `run`'s loop, from the state before `this.step++`. */
  function StepSpec(s: RunState, e: StepEnv, goal: string, parse: string -> ParseResult): (r: (RunState, StepRecord))
    requires Resumable(s)
    ensures r.0.step == s.step + 1 && r.1.step == r.0.step
    ensures r.1.outcome.Acted? ==> r.0.tab.Some?
  {
    var n := s.step + 1;
    var delay := StepDelay(n);
    var found := ResolveTab(n, s.tab, e.tabs);
    if found.None? || !HasId(found.value) then
      (s.(step := n, tab := found), StepRecord(n, if n == 1 then NoTab else TabClosed, delay, None))
    else
      var flag := FlagAtCheck(s.shouldRun, e);
      if flag == Some(false) then
        (s.(step := n, tab := found, shouldRun := flag), StepRecord(n, StopRequested, delay, None))
      else
        ProceedSpec(s.(step := n, tab := found, shouldRun := flag), found.value, delay, e, goal, parse)
  }

  /** The iteration `r` made at state `s`, followed by the rest of the loop when it executed an action. */
  function Iterate(s: RunState, r: (RunState, StepRecord), env: int -> StepEnv, goal: string, parse: string -> ParseResult, maxSteps: int)
    : (RunState, seq<StepRecord>)
    requires s.step < maxSteps && r.0.step == s.step + 1 && (r.1.outcome.Acted? ==> r.0.tab.Some?)
    decreases maxSteps - s.step, 0
  {
    if r.1.outcome.Acted? then
      var rest := RunFrom(r.0, env, goal, parse, maxSteps);
      (rest.0, [r.1] + rest.1)
    else (r.0, [r.1])
  }

  /** The loop from state `s` on: the final state and the record of every iteration. */
  function RunFrom(s: RunState, env: int -> StepEnv, goal: string, parse: string -> ParseResult, maxSteps: int)
    : (RunState, seq<StepRecord>)
    requires Resumable(s)
    decreases maxSteps - s.step, 1
  {
    if s.step >= maxSteps then (s, []) else Iterate(s, StepSpec(s, env(s.step + 1), goal, parse), env, goal, parse, maxSteps)
  }

  /** One unfolding of the loop at a state with steps left. */
  lemma IterateSplit(s: RunState, env: int -> StepEnv, goal: string, parse: string -> ParseResult, maxSteps: int)
    requires Resumable(s) && s.step < maxSteps
    ensures var r := StepSpec(s, env(s.step + 1), goal, parse);
      (r.1.outcome.Acted? ==>
        RunFrom(s, env, goal, parse, maxSteps) ==
          (RunFrom(r.0, env, goal, parse, maxSteps).0, [r.1] + RunFrom(r.0, env, goal, parse, maxSteps).1)) &&
      (!r.1.outcome.Acted? ==> RunFrom(s, env, goal, parse, maxSteps) == (r.0, [r.1]))
  {
    var r := StepSpec(s, env(s.step + 1), goal, parse);
    assert RunFrom(s, env, goal, parse, maxSteps) == Iterate(s, r, env, goal, parse, maxSteps);
  }

  /**
   * The loop makes one record per iteration and stops by its bound: from a
   * state with steps left it runs at least one iteration and never passes
   * `maxSteps`; at or past the bound it runs none.
   */
  lemma {:induction false} RunFromSteps(s: RunState, env: int -> StepEnv, goal: string, parse: string -> ParseResult, maxSteps: int)
    requires Resumable(s)
    ensures var r := RunFrom(s, env, goal, parse, maxSteps);
      r.0.step == s.step + |r.1| &&
      (s.step < maxSteps ==> r.0.step <= maxSteps && |r.1| > 0) &&
      (s.step >= maxSteps ==> r.1 == [])
    decreases maxSteps - s.step
  {
    if s.step < maxSteps {
      IterateSplit(s, env, goal, parse, maxSteps);
      var r := StepSpec(s, env(s.step + 1), goal, parse);
      if r.1.outcome.Acted? {
        RunFromSteps(r.0, env, goal, parse, maxSteps);
      }
    }
  }

  /** `records` followed by the loop from `s` gives `target`. */
  ghost predicate OnTrack(s: RunState, records: seq<StepRecord>, target: (RunState, seq<StepRecord>),
                          env: int -> StepEnv, goal: string, parse: string -> ParseResult, maxSteps: int)
  {
    Resumable(s) &&
    var r := RunFrom(s, env, goal, parse, maxSteps);
    r.0 == target.0 && records + r.1 == target.1
  }

  /**
   * One iteration from a state on track: an executed action keeps the loop
   * on track with its record appended; any other outcome completes the target.
   */
  lemma AdvanceOnTrack(s: RunState, records: seq<StepRecord>, target: (RunState, seq<StepRecord>),
                       env: int -> StepEnv, goal: string, parse: string -> ParseResult, maxSteps: int,
                       next: RunState, record: StepRecord)
    requires OnTrack(s, records, target, env, goal, parse, maxSteps) && s.step < maxSteps
    requires (next, record) == StepSpec(s, env(s.step + 1), goal, parse)
    ensures record.outcome.Acted? ==> OnTrack(next, records + [record], target, env, goal, parse, maxSteps)
    ensures !record.outcome.Acted? ==> target == (next, records + [record])
  {
    IterateSplit(s, env, goal, parse, maxSteps);
    if record.outcome.Acted? {
      var rest := RunFrom(next, env, goal, parse, maxSteps);
      assert records + [record] + rest.1 == records + ([record] + rest.1);
    }
  }

  /** The loop stops at its bound with exactly the records gathered so far. */
  lemma ExhaustedOnTrack(s: RunState, records: seq<StepRecord>, target: (RunState, seq<StepRecord>),
                         env: int -> StepEnv, goal: string, parse: string -> ParseResult, maxSteps: int)
    requires OnTrack(s, records, target, env, goal, parse, maxSteps) && s.step >= maxSteps
    ensures target == (s, records)
  {
    assert records + [] == records;
  }

  /** The state `run` starts from: its flag set to `true`, no tab yet. */
  function InitialState(step: nat, history: seq<Turn>, throttle: ThrottleState, lastResult: Option<string>): RunState {
    RunState(step, None, history, throttle, Some(true), lastResult)
  }

  /**
   * `run` on an agent whose history, throttle and stored result are as
   * given: the loop from step 0, with the flag set to `true`.
   */
  function RunSpec(history: seq<Turn>, throttle: ThrottleState, lastResult: Option<string>,
                   env: int -> StepEnv, goal: string, parse: string -> ParseResult, maxSteps: int)
    : (r: (RunState, seq<StepRecord>))
    ensures r.0.step == |r.1|
    ensures maxSteps > 0 ==> 0 < |r.1| <= maxSteps
    ensures maxSteps <= 0 ==> r.1 == []
  {
    RunFromSteps(InitialState(0, history, throttle, lastResult), env, goal, parse, maxSteps);
    RunFrom(InitialState(0, history, throttle, lastResult), env, goal, parse, maxSteps)
  }

  class Agent {
    const goal: Json
    const maxSteps: int
    var step: nat
    /** The conversation history array; `call` pushes onto it and returns it, so the reassignment in `run` keeps the same array. */
    const history: History
    var multiplier: nat

    /** `new Agent(goal, { maxSteps })`, with `maxSteps` absent when `None`. */
    constructor (goal: Json, maxStepsOption: Option<int>)
      ensures this.goal == goal && maxSteps == MaxSteps(maxStepsOption)
      ensures step == 0 && fresh(history) && history.turns == [] && multiplier == 1
    {
      this.goal := goal;
      maxSteps := MaxSteps(maxStepsOption);
      step := 0;
      history := new History();
      multiplier := 1;
    }

    /** `getCaptureInterval` at time `now`. */
    method CaptureInterval(store: Store, now: int) returns (wait: nat)
      ensures wait == CaptureWait(store.lastCaptureAt, now)
    {
      var elapsed := now - store.lastCaptureAt;
      var w := MinCaptureIntervalMs - elapsed;
      wait := if w > 0 then w else 0;
    }

    /** `recordCapture` at time `now`. */
    method RecordCapture(store: Store, now: int)
      modifies store
      ensures store.lastCaptureAt == now
      ensures store.agentShouldRun == old(store.agentShouldRun) && store.lastAgentResult == old(store.lastAgentResult)
    {
      store.lastCaptureAt := now;
    }

    /** `shouldContinue`: only a stored `false` stops the agent. */
    method ShouldContinue(store: Store) returns (b: bool)
      ensures b <==> store.agentShouldRun != Some(false)
    {
      b := store.agentShouldRun != Some(false);
    }

    /** `captureScreenshot`, reading the clock at `checkedAt` and again at `recordedAt`. */
    method CaptureScreenshot(store: Store, outcome: CaptureOutcome, checkedAt: int, recordedAt: int)
      returns (screenshot: Option<string>, sleeps: seq<nat>)
      modifies this, store
      ensures var c := CaptureSpec(ThrottleState(old(store.lastCaptureAt), old(multiplier)), outcome, checkedAt, recordedAt);
        ThrottleState(store.lastCaptureAt, multiplier) == c.state && screenshot == c.screenshot && sleeps == c.sleeps
      ensures step == old(step)
      ensures store.agentShouldRun == old(store.agentShouldRun) && store.lastAgentResult == old(store.lastAgentResult)
    {
      sleeps := [];
      var wait := CaptureInterval(store, checkedAt);
      if wait > 0 {
        sleeps := [wait];
      }
      match Capture(outcome)
      case Image(url) =>
        RecordCapture(store, recordedAt);
        multiplier := 1;
        if DataUrl.GetSize(Some(url)) > MaxScreenshotBytes {
          screenshot := None;
        } else {
          screenshot := Some(url);
        }
      case NoImage =>
        screenshot := None;
      case QuotaError =>
        sleeps := sleeps + [QuotaBackoffMs * multiplier];
        multiplier := if multiplier * 2 < MaxBackoffMultiplier then multiplier * 2 else MaxBackoffMultiplier;
        RecordCapture(store, recordedAt);
        screenshot := None;
    }

    ghost function Snapshot(store: Store, tab: Option<Tab>): RunState
      reads this, history, store
    {
      RunState(step, tab, history.turns, ThrottleState(store.lastCaptureAt, multiplier),
               store.agentShouldRun, store.lastAgentResult)
    }

    /** The capture, the model call and the action of one iteration (see `ProceedSpec`). */
    method Proceed(store: Store, tab: Tab, delay: seq<nat>, e: StepEnv, goal: string, parse: string -> ParseResult,
                   ghost current: Option<Tab>)
      returns (record: StepRecord)
      modifies this, history, store
      ensures (Snapshot(store, current), record) == ProceedSpec(old(Snapshot(store, current)), tab, delay, e, goal, parse)
    {
      ghost var s := Snapshot(store, current);
      ghost var c := CaptureSpec(s.throttle, e.capture, e.checkedAt, e.recordedAt);
      var screenshot, waits := CaptureScreenshot(store, e.capture, e.checkedAt, e.recordedAt);
      ghost var call := CallSpec(c.screenshot, goal, s.history, e.apiKey, e.http, parse);
      var d, request := Call(screenshot, goal, history, e.apiKey, e.http, parse);
      ghost var s1 := s.(throttle := c.state, history := call.history);
      assert Snapshot(store, current) == s1;
      if IsDone(d) {
        var result := StoredResult(d);
        store.lastAgentResult := Some(result);
        return StepRecord(step, Finished(result), delay + waits, request);
      }
      var x := Act(tab, d, e);
      record := StepRecord(step, Acted(d.action, x.effect), delay + waits + x.sleeps, request);
    }

    /** Executing a decision that is not `done`, then recording it in the history (see `ActSpec`). */
    method Act(tab: Tab, d: Decision, e: StepEnv) returns (x: Execution)
      modifies history
      ensures (x, history.turns) == ActSpec(old(history.turns), tab, d, e)
    {
      x := Execute(tab, Action(d.action, d.args), e.navError, e.send);
      if d.argsShared {
        history.WriteArgs(x.args);
      }
      var currentUrl := CurrentUrl(e.requery, tab);
      history.Push(BuildFunctionResponse(d.action, x.result, currentUrl));
    }

    /** One iteration of `run`'s loop: step count, delay, tab, stop check, then `Proceed`. */
    method Step(store: Store, e: StepEnv, goal: string, parse: string -> ParseResult, previous: Option<Tab>)
      returns (activeTab: Option<Tab>, record: StepRecord)
      requires Resumable(Snapshot(store, previous))
      modifies this, history, store
      ensures step == old(step) + 1
      ensures (Snapshot(store, activeTab), record) == StepSpec(old(Snapshot(store, previous)), e, goal, parse)
    {
      step := step + 1;
      var delay := StepDelay(step);
      if step == 1 {
        activeTab := GetNormalTab(e.tabs);
      } else {
        activeTab := FindById(e.tabs, previous.value.id);
      }
      if activeTab.None? || !HasId(activeTab.value) {
        return activeTab, StepRecord(step, if step == 1 then NoTab else TabClosed, delay, None);
      }
      if e.stopBeforeCheck {
        var _ := HandleStop(store);
      }
      var proceed := ShouldContinue(store);
      if !proceed {
        return activeTab, StepRecord(step, StopRequested, delay, None);
      }
      record := Proceed(store, activeTab.value, delay, e, goal, parse, activeTab);
    }

    /** `Step`, followed along the loop's specification: where it leaves the loop relative to `target`. */
    method TrackedStep(store: Store, env: int -> StepEnv, goal: string, parse: string -> ParseResult, previous: Option<Tab>,
                       ghost records: seq<StepRecord>, ghost target: (RunState, seq<StepRecord>))
      returns (activeTab: Option<Tab>, record: StepRecord)
      requires OnTrack(Snapshot(store, previous), records, target, env, goal, parse, maxSteps) && step < maxSteps
      modifies this, history, store
      ensures step == old(step) + 1
      ensures record.outcome.Acted? ==> OnTrack(Snapshot(store, activeTab), records + [record], target, env, goal, parse, maxSteps)
      ensures !record.outcome.Acted? ==> target == (Snapshot(store, activeTab), records + [record])
    {
      ghost var pre := Snapshot(store, previous);
      activeTab, record := Step(store, env(step + 1), goal, parse, previous);
      AdvanceOnTrack(pre, records, target, env, goal, parse, maxSteps, Snapshot(store, activeTab), record);
    }

    /**
     * `run`: iterations while `step < maxSteps`, each ending in one of the
     * loop's exits or with an executed action; returns `{steps: step}` as
     * `steps`, with the record of every iteration.
     */
    method Run(store: Store, env: int -> StepEnv, parse: string -> ParseResult)
      returns (steps: int, trace: seq<StepRecord>)
      requires step == 0
      modifies this, history, store
      ensures var r := RunSpec(old(history.turns), ThrottleState(old(store.lastCaptureAt), old(multiplier)),
          old(store.lastAgentResult), env, ToJsString(goal), parse, maxSteps);
        steps == step && trace == r.1 &&
        step == r.0.step && history.turns == r.0.history &&
        store.lastCaptureAt == r.0.throttle.lastCaptureAt && multiplier == r.0.throttle.multiplier &&
        store.agentShouldRun == r.0.shouldRun && store.lastAgentResult == r.0.lastResult
    {
      var goalText := ToJsString(goal);
      ghost var target := RunSpec(history.turns, ThrottleState(store.lastCaptureAt, multiplier), store.lastAgentResult,
                                  env, goalText, parse, maxSteps);
      store.agentShouldRun := Some(true);
      var activeTab: Option<Tab> := None;
      trace := [];
      ghost var finished := false;
      while step < maxSteps
        invariant OnTrack(Snapshot(store, activeTab), trace, target, env, goalText, parse, maxSteps)
        invariant !finished
        decreases maxSteps - step
      {
        var record;
        activeTab, record := TrackedStep(store, env, goalText, parse, activeTab, trace, target);
        trace := trace + [record];
        if !record.outcome.Acted? {
          finished := true;
          break;
        }
      }
      if !finished {
        ExhaustedOnTrack(Snapshot(store, activeTab), trace, target, env, goalText, parse, maxSteps);
      }
      steps := step;
    }
  }

  /** The STOP_AGENT handler: the stored flag becomes `false`; the reply is `{stopped: true}`. */
  method HandleStop(store: Store) returns (reply: Json)
    modifies store
    ensures store.agentShouldRun == Some(false)
    ensures store.lastCaptureAt == old(store.lastCaptureAt) && store.lastAgentResult == old(store.lastAgentResult)
    ensures reply == Object1("stopped", Bool(true))
  {
    store.agentShouldRun := Some(false);
    reply := Object1("stopped", Bool(true));
  }

  /** The worker's reply to a runtime message, and the agent a START creates. */
  datatype Handled =
    | Ignored
    | Started(agent: Agent, reply: Json)
    | Stopped(reply: Json)
    | SafetyRelayed

  /**
   * The message listener: a message without a truthy `type` is ignored;
   * START_AGENT creates an agent for `message.goal || 'Unknown goal'` with the
   * default step budget and replies `{started: true}` (its `run` is started
   * without being awaited); STOP_AGENT stores `false` in the run flag.
   */
  method OnMessage(message: Json, store: Store) returns (h: Handled)
    modifies store
    ensures var t := Get(message, "type");
      (!Truthy(t) ==> h.Ignored? && store.agentShouldRun == old(store.agentShouldRun)) &&
      (t == Str("START_AGENT") ==>
        h.Started? && fresh(h.agent) && h.agent.goal == Or(Get(message, "goal"), Str(UnknownGoal)) &&
        h.agent.maxSteps == DefaultMaxSteps && h.agent.step == 0 && h.agent.history.turns == [] &&
        h.reply == Object1("started", Bool(true)) && store.agentShouldRun == old(store.agentShouldRun)) &&
      (t == Str("STOP_AGENT") ==> h == Stopped(Object1("stopped", Bool(true))) && store.agentShouldRun == Some(false))
    ensures store.lastCaptureAt == old(store.lastCaptureAt) && store.lastAgentResult == old(store.lastAgentResult)
  {
    var t := Get(message, "type");
    if !Truthy(t) {
      return Ignored;
    }
    if t == Str("START_AGENT") {
      var agent := new Agent(Or(Get(message, "goal"), Str(UnknownGoal)), None);
      return Started(agent, Object1("started", Bool(true)));
    }
    if t == Str("STOP_AGENT") {
      var reply := HandleStop(store);
      return Stopped(reply);
    }
    if t == Str("REQUEST_SAFETY_CONFIRMATION") {
      return SafetyRelayed;
    }
    return Ignored;
  }
}
