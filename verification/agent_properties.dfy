/**
 * Properties of the agent's loop: what one iteration does on each of its
 * exits, and what the whole run does to the step count, the history, the
 * throttle, the run flag and the stored result.
 */
module AgentProperties {
  import opened Wrappers
  import opened JsValues
  import opened Sequences
  import opened Tabs
  import opened GeminiProtocol
  import opened GeminiClient
  import opened ActionExecutor
  import opened CaptureThrottle
  import opened AgentLoop
  import opened GeminiCallProperties

  /** The tab iteration `s.step + 1` works on, before its id is checked. */
  function FoundTab(s: RunState, e: StepEnv): Option<Tab>
    requires Resumable(s)
  {
    ResolveTab(s.step + 1, s.tab, e.tabs)
  }

  predicate Usable(t: Option<Tab>) {
    t.Some? && HasId(t.value)
  }

  /** The loop's early exits that never reach the capture. */
  predicate EarlyExit(o: StepOutcome) {
    o.NoTab? || o.TabClosed? || o.StopRequested?
  }

  /**
   * An iteration ends before the capture exactly when the tab is missing or
   * without id (`NoTab` on the first step, `TabClosed` later), or when the
   * flag read at the check is `false`. Such an exit touches neither the
   * history, nor the throttle, nor the stored result; it sleeps only the
   * 800 ms step delay, and only from step 2 on.
   */
  lemma StepEarlyExit(s: RunState, e: StepEnv, goal: string, parse: string -> ParseResult)
    requires Resumable(s)
    ensures var r := StepSpec(s, e, goal, parse);
      var n := s.step + 1;
      (r.1.outcome.NoTab? <==> n == 1 && !Usable(FoundTab(s, e))) &&
      (r.1.outcome.TabClosed? <==> n > 1 && !Usable(FoundTab(s, e))) &&
      (r.1.outcome.StopRequested? <==> Usable(FoundTab(s, e)) && FlagAtCheck(s.shouldRun, e) == Some(false)) &&
      (EarlyExit(r.1.outcome) ==>
        r.0.history == s.history && r.0.throttle == s.throttle && r.0.lastResult == s.lastResult &&
        r.1.request.None? && r.1.sleeps == (if n > 1 then [StepDelayMs] else [])) &&
      (r.1.outcome.StopRequested? ==> r.0.shouldRun == Some(false)) &&
      (r.1.outcome.NoTab? || r.1.outcome.TabClosed? ==> r.0.shouldRun == s.shouldRun)
  {
  }

  /**
   * The tab: step 1 takes the first normal tab; every later step keeps the
   * tab with the same id, as reported by the query of that step.
   */
  lemma StepTab(s: RunState, e: StepEnv, goal: string, parse: string -> ParseResult)
    requires Resumable(s)
    ensures var r := StepSpec(s, e, goal, parse);
      r.0.tab == FoundTab(s, e) &&
      (s.step == 0 ==> r.0.tab == GetNormalTab(e.tabs) && (r.0.tab.Some? ==> IsNormal(r.0.tab.value))) &&
      (s.step > 0 && r.0.tab.Some? ==> r.0.tab.value.id == s.tab.value.id && r.0.tab.value in e.tabs)
  {
    var r := StepSpec(s, e, goal, parse);
    if s.step == 0 {
      match FirstIndex(e.tabs, IsNormal)
      case None =>
      case Some(i) => assert r.0.tab == Some(e.tabs[i]);
    } else {
      match FirstIndex(e.tabs, (t: Tab) => t.id == s.tab.value.id)
      case None =>
      case Some(i) => assert r.0.tab == Some(e.tabs[i]);
    }
  }

  /** An iteration that gets past the tab and flag checks is `ProceedSpec` on the found tab, after the step delay. */
  lemma StepReachesProceed(s: RunState, e: StepEnv, goal: string, parse: string -> ParseResult)
    requires Resumable(s)
    requires !EarlyExit(StepSpec(s, e, goal, parse).1.outcome)
    ensures Usable(FoundTab(s, e)) && FlagAtCheck(s.shouldRun, e) == s.shouldRun
    ensures StepSpec(s, e, goal, parse) ==
      ProceedSpec(s.(step := s.step + 1, tab := FoundTab(s, e)), FoundTab(s, e).value, StepDelay(s.step + 1), e, goal, parse)
  {
  }

  /**
   * The capture, the call and the action: the throttle moves as
   * `captureScreenshot` moves it, and the capture's sleeps follow the delay.
   * With a key, the history keeps its old turns, gains the user turn built
   * from the screenshot, and the request carries exactly the history up to
   * that user turn; without one, the step finishes with the missing-key error
   * and the history is as it was.
   */
  lemma ProceedEffects(s: RunState, tab: Tab, delay: seq<nat>, e: StepEnv, goal: string, parse: string -> ParseResult)
    ensures var r := ProceedSpec(s, tab, delay, e, goal, parse);
      var c := CaptureSpec(s.throttle, e.capture, e.checkedAt, e.recordedAt);
      var before := delay + c.sleeps;
      var user := BuildUserPart(goal, c.screenshot);
      r.0.throttle == c.state &&
      |r.1.sleeps| >= |before| && r.1.sleeps[..|before|] == before &&
      |r.0.history| >= |s.history| && r.0.history[..|s.history|] == s.history &&
      (KeyPresent(e.apiKey) ==>
        |r.0.history| > |s.history| && r.0.history[|s.history|] == user &&
        r.1.request == Some(BuildRequest(s.history + [user]))) &&
      (!KeyPresent(e.apiKey) ==>
        r.1.outcome == Finished("Error: " + KeyMissingMessage) && r.0.history == s.history && r.1.request.None?)
  {
    var r := ProceedSpec(s, tab, delay, e, goal, parse);
    var c := CaptureSpec(s.throttle, e.capture, e.checkedAt, e.recordedAt);
    var call := CallSpec(c.screenshot, goal, s.history, e.apiKey, e.http, parse);
    var before := delay + c.sleeps;
    CallHistoryGrowth(c.screenshot, goal, s.history, e.apiKey, e.http, parse);
    if !IsDone(call.decision) {
      var x := ActSpec(call.history, tab, call.decision, e).0;
      ActKeepsPrefix(call.history, tab, call.decision, e, |s.history|);
      assert r.1.sleeps == before + x.sleeps;
      assert r.1.sleeps[..|before|] == before;
    } else {
      assert r.1.sleeps == before;
    }
  }

  /** Acting changes at most the last turn of the history it is given, and appends the function response. */
  lemma ActKeepsPrefix(h: seq<Turn>, tab: Tab, d: Decision, e: StepEnv, k: nat)
    requires k < |h| - 1 || (k == |h| - 1 && !h[k].ModelTurn?)
    ensures var a := ActSpec(h, tab, d, e).1;
      |a| == |h| + 1 && a[..k] == h[..k] && a[k] == h[k] &&
      a[|a| - 1] == BuildFunctionResponse(d.action, Execute(tab, Action(d.action, d.args), e.navError, e.send).result,
                                          CurrentUrl(e.requery, tab))
  {
    var x := Execute(tab, Action(d.action, d.args), e.navError, e.send);
    var w := if d.argsShared then WriteBackArgs(h, x.args) else h;
    WriteBackArgsEffect(h, x.args);
    if k < |h| - 1 {
      assert w[..k] == w[..|h| - 1][..k];
      assert h[..k] == h[..|h| - 1][..k];
      assert w[k] == w[..|h| - 1][k];
      assert h[k] == h[..|h| - 1][k];
    }
  }

  /**
   * An iteration that gets past the check always captures, also when the key
   * is missing, after its step delay; see `ProceedEffects` for the rest.
   */
  lemma StepProceeds(s: RunState, e: StepEnv, goal: string, parse: string -> ParseResult)
    requires Resumable(s)
    requires !EarlyExit(StepSpec(s, e, goal, parse).1.outcome)
    ensures var r := StepSpec(s, e, goal, parse);
      var c := CaptureSpec(s.throttle, e.capture, e.checkedAt, e.recordedAt);
      var before := StepDelay(s.step + 1) + c.sleeps;
      var user := BuildUserPart(goal, c.screenshot);
      Usable(r.0.tab) && r.0.throttle == c.state && r.0.shouldRun == s.shouldRun &&
      |r.1.sleeps| >= |before| && r.1.sleeps[..|before|] == before &&
      |r.0.history| >= |s.history| && r.0.history[..|s.history|] == s.history &&
      (KeyPresent(e.apiKey) ==>
        |r.0.history| > |s.history| && r.0.history[|s.history|] == user &&
        r.1.request == Some(BuildRequest(s.history + [user]))) &&
      (!KeyPresent(e.apiKey) ==>
        r.1.outcome == Finished("Error: " + KeyMissingMessage) && r.0.history == s.history && r.1.request.None?)
  {
    StepReachesProceed(s, e, goal, parse);
    ProceedEffects(s.(step := s.step + 1, tab := FoundTab(s, e)), FoundTab(s, e).value, StepDelay(s.step + 1), e, goal, parse);
  }

  /**
   * A `done` decision ends the loop and stores `result || 'success'`, never
   * an empty text; the history is the one `call` left.
   */
  lemma ProceedFinished(s: RunState, tab: Tab, delay: seq<nat>, e: StepEnv, goal: string, parse: string -> ParseResult)
    requires ProceedSpec(s, tab, delay, e, goal, parse).1.outcome.Finished?
    ensures var r := ProceedSpec(s, tab, delay, e, goal, parse);
      var c := CaptureSpec(s.throttle, e.capture, e.checkedAt, e.recordedAt);
      var call := CallSpec(c.screenshot, goal, s.history, e.apiKey, e.http, parse);
      var result := r.1.outcome.result;
      IsDone(call.decision) && result != "" && r.0.lastResult == Some(result) && r.0.history == call.history &&
      (call.decision.result.Some? && call.decision.result.value != "" ==> result == call.decision.result.value) &&
      (call.decision.result.None? || call.decision.result.value == "" ==> result == DefaultResult)
  {
    var c := CaptureSpec(s.throttle, e.capture, e.checkedAt, e.recordedAt);
    var call := CallSpec(c.screenshot, goal, s.history, e.apiKey, e.http, parse);
    assert IsDone(call.decision);
  }

  /**
   * An executed action leaves the stored result alone and ends the history
   * with a function response named by the decision's action as `call`
   * returned it (before normalisation), carrying the url the tab shows after
   * the action; the history grows by at least the user turn and that response.
   */
  lemma ProceedActed(s: RunState, tab: Tab, delay: seq<nat>, e: StepEnv, goal: string, parse: string -> ParseResult)
    requires ProceedSpec(s, tab, delay, e, goal, parse).1.outcome.Acted?
    ensures var r := ProceedSpec(s, tab, delay, e, goal, parse);
      var c := CaptureSpec(s.throttle, e.capture, e.checkedAt, e.recordedAt);
      var call := CallSpec(c.screenshot, goal, s.history, e.apiKey, e.http, parse);
      var last := r.0.history[|r.0.history| - 1];
      !IsDone(call.decision) && r.1.outcome.action == call.decision.action &&
      |r.0.history| >= |s.history| + 2 && r.0.history[..|s.history|] == s.history &&
      last == BuildFunctionResponse(call.decision.action,
                                    Execute(tab, Action(call.decision.action, call.decision.args), e.navError, e.send).result,
                                    CurrentUrl(e.requery, tab)) &&
      last.FunctionResponseTurn? && last.name == r.1.outcome.action &&
      r.0.lastResult == s.lastResult
  {
    var c := CaptureSpec(s.throttle, e.capture, e.checkedAt, e.recordedAt);
    var call := CallSpec(c.screenshot, goal, s.history, e.apiKey, e.http, parse);
    CallHistoryGrowth(c.screenshot, goal, s.history, e.apiKey, e.http, parse);
    ActKeepsPrefix(call.history, tab, call.decision, e, |s.history|);
  }

  /** The stored result of a finished iteration (see `ProceedFinished`). */
  lemma StepFinished(s: RunState, e: StepEnv, goal: string, parse: string -> ParseResult)
    requires Resumable(s)
    requires StepSpec(s, e, goal, parse).1.outcome.Finished?
    ensures var r := StepSpec(s, e, goal, parse);
      r.1.outcome.result != "" && r.0.lastResult == Some(r.1.outcome.result) && r.0.shouldRun == s.shouldRun
  {
    StepReachesProceed(s, e, goal, parse);
    ProceedFinished(s.(step := s.step + 1, tab := FoundTab(s, e)), FoundTab(s, e).value, StepDelay(s.step + 1), e, goal, parse);
  }

  /** The history after an executed action (see `ProceedActed`). */
  lemma StepActed(s: RunState, e: StepEnv, goal: string, parse: string -> ParseResult)
    requires Resumable(s)
    requires StepSpec(s, e, goal, parse).1.outcome.Acted?
    ensures var r := StepSpec(s, e, goal, parse);
      |r.0.history| >= |s.history| + 2 && r.0.history[..|s.history|] == s.history &&
      (var last := r.0.history[|r.0.history| - 1];
       last.FunctionResponseTurn? && last.name == r.1.outcome.action) &&
      r.0.lastResult == s.lastResult && r.0.shouldRun == s.shouldRun && r.0.shouldRun != Some(false)
  {
    StepReachesProceed(s, e, goal, parse);
    var t := s.(step := s.step + 1, tab := FoundTab(s, e));
    ProceedActed(t, FoundTab(s, e).value, StepDelay(s.step + 1), e, goal, parse);
  }

  /** No iteration takes the backoff multiplier outside 1, 2, 4, 8 and 16. */
  lemma StepKeepsMultiplier(s: RunState, e: StepEnv, goal: string, parse: string -> ParseResult)
    requires Resumable(s) && ValidMultiplier(s.throttle.multiplier)
    ensures ValidMultiplier(StepSpec(s, e, goal, parse).0.throttle.multiplier)
  {
    if !EarlyExit(StepSpec(s, e, goal, parse).1.outcome) {
      StepReachesProceed(s, e, goal, parse);
      CaptureKeepsMultiplier(s.throttle, e.capture, e.checkedAt, e.recordedAt);
    }
  }

  /** The names of the function responses in a history, in order. */
  function ResponseNames(h: seq<Turn>): (names: seq<Json>)
    ensures |names| <= |h|
  {
    if h == [] then []
    else
      var last := h[|h| - 1];
      ResponseNames(h[..|h| - 1]) + (if last.FunctionResponseTurn? then [last.name] else [])
  }

  lemma {:induction false} ResponseNamesAppend(a: seq<Turn>, b: seq<Turn>)
    ensures ResponseNames(a + b) == ResponseNames(a) + ResponseNames(b)
    decreases |b|
  {
    if b != [] {
      var c := b[..|b| - 1];
      assert (a + b)[..|a + b| - 1] == a + c;
      assert b[..|b| - 1] == c;
      ResponseNamesAppend(a, c);
    } else {
      assert a + b == a;
    }
  }

  /** The actions of the executed iterations, in order. */
  function ActedNames(records: seq<StepRecord>): (names: seq<Json>)
    ensures |names| <= |records|
  {
    if records == [] then []
    else
      var o := records[0].outcome;
      (if o.Acted? then [o.action] else []) + ActedNames(records[1..])
  }

  /**
   * Each executed action adds exactly one function response to the history,
   * named by its action, and nothing else in an iteration adds or removes one.
   */
  lemma StepResponses(s: RunState, e: StepEnv, goal: string, parse: string -> ParseResult)
    requires Resumable(s)
    ensures var r := StepSpec(s, e, goal, parse);
      ResponseNames(r.0.history) ==
        ResponseNames(s.history) + (if r.1.outcome.Acted? then [r.1.outcome.action] else [])
  {
    if !EarlyExit(StepSpec(s, e, goal, parse).1.outcome) {
      StepReachesProceed(s, e, goal, parse);
      ProceedResponses(s.(step := s.step + 1, tab := FoundTab(s, e)), FoundTab(s, e).value, StepDelay(s.step + 1), e, goal, parse);
    }
  }

  /** `StepResponses` for the part of an iteration after the checks. */
  lemma ProceedResponses(s: RunState, tab: Tab, delay: seq<nat>, e: StepEnv, goal: string, parse: string -> ParseResult)
    ensures var r := ProceedSpec(s, tab, delay, e, goal, parse);
      ResponseNames(r.0.history) ==
        ResponseNames(s.history) + (if r.1.outcome.Acted? then [r.1.outcome.action] else [])
  {
    var c := CaptureSpec(s.throttle, e.capture, e.checkedAt, e.recordedAt);
    var call := CallSpec(c.screenshot, goal, s.history, e.apiKey, e.http, parse);
    CallAddsNoResponse(c.screenshot, goal, s.history, e.apiKey, e.http, parse);
    if !IsDone(call.decision) {
      var x := Execute(tab, Action(call.decision.action, call.decision.args), e.navError, e.send);
      var w := if call.decision.argsShared then WriteBackArgs(call.history, x.args) else call.history;
      WriteBackKeepsResponses(call.history, x.args);
      var fr := BuildFunctionResponse(call.decision.action, x.result, CurrentUrl(e.requery, tab));
      assert ActSpec(call.history, tab, call.decision, e).1 == w + [fr];
      ResponseNamesAppend(w, [fr]);
      assert ResponseNames([fr]) == [fr.name] by {
        assert [fr][..0] == [];
      }
    }
  }

  /** `call` appends a user turn and possibly a model turn, never a function response. */
  lemma CallAddsNoResponse(screenshot: Option<string>, goal: string, h: seq<Turn>,
                           apiKey: Option<string>, http: HttpOutcome, parse: string -> ParseResult)
    ensures ResponseNames(CallSpec(screenshot, goal, h, apiKey, http, parse).history) == ResponseNames(h)
  {
    if KeyPresent(apiKey) {
      RespondModelTurn(http, parse);
      var model := Respond(http, parse).1;
      assert CallSpec(screenshot, goal, h, apiKey, http, parse).history ==
        h + ([BuildUserPart(goal, screenshot)] + (if model.Some? then [model.value] else []));
      AppendNoResponse(h, BuildUserPart(goal, screenshot), model);
    }
  }

  /** Appending a user turn and possibly a model turn adds no function response. */
  lemma AppendNoResponse(h: seq<Turn>, user: Turn, model: Option<Turn>)
    requires user.UserTurn? && (model.Some? ==> model.value.ModelTurn?)
    ensures ResponseNames(h + ([user] + (if model.Some? then [model.value] else []))) == ResponseNames(h)
  {
    var added := [user] + (if model.Some? then [model.value] else []);
    ResponseNamesAppend(h, added);
    assert [user][..0] == [];
    if model.Some? {
      assert added[..1] == [user];
    }
  }

  /** The only turn a reply adds to the history is a model turn. */
  lemma RespondModelTurn(http: HttpOutcome, parse: string -> ParseResult)
    ensures Respond(http, parse).1.Some? ==> Respond(http, parse).1.value.ModelTurn?
  {
  }

  /** Writing the arguments back replaces a model turn by a model turn. */
  lemma WriteBackKeepsResponses(h: seq<Turn>, args: Json)
    ensures ResponseNames(WriteBackArgs(h, args)) == ResponseNames(h)
  {
    if |h| > 0 && h[|h| - 1].ModelTurn? {
      var w := WriteBackArgs(h, args);
      assert w[..|w| - 1] == h[..|h| - 1];
    }
  }

  /** No iteration drops or changes a turn the history had before it. */
  lemma StepKeepsHistory(s: RunState, e: StepEnv, goal: string, parse: string -> ParseResult)
    requires Resumable(s)
    ensures var r := StepSpec(s, e, goal, parse);
      |r.0.history| >= |s.history| && r.0.history[..|s.history|] == s.history
  {
    if !EarlyExit(StepSpec(s, e, goal, parse).1.outcome) {
      StepProceeds(s, e, goal, parse);
    } else {
      StepEarlyExit(s, e, goal, parse);
    }
  }

  /** One unfolding of the loop at a state with steps left. */
  lemma Unroll(s: RunState, env: int -> StepEnv, goal: string, parse: string -> ParseResult, maxSteps: int)
    returns (next: RunState, record: StepRecord)
    requires Resumable(s) && s.step < maxSteps
    ensures next.step == s.step + 1 && record.step == next.step
    ensures record.outcome.Acted? ==> (Resumable(next) &&
      RunFrom(s, env, goal, parse, maxSteps) ==
        (RunFrom(next, env, goal, parse, maxSteps).0, [record] + RunFrom(next, env, goal, parse, maxSteps).1))
    ensures !record.outcome.Acted? ==> RunFrom(s, env, goal, parse, maxSteps) == (next, [record])
  {
    IterateSplit(s, env, goal, parse, maxSteps);
    next, record := StepSpec(s, env(s.step + 1), goal, parse).0, StepSpec(s, env(s.step + 1), goal, parse).1;
  }

  /**
   * `Unroll`, with what the iteration does to the state: the history keeps
   * its turns and gains a function response exactly when the iteration
   * acted; the stored result changes only on a `done`; a flag that was not
   * `false` becomes `false` only on a stop request; the multiplier stays valid.
   */
  lemma UnrollEffects(s: RunState, env: int -> StepEnv, goal: string, parse: string -> ParseResult, maxSteps: int)
    returns (next: RunState, record: StepRecord)
    requires Resumable(s) && s.step < maxSteps
    ensures next.step == s.step + 1 && record.step == next.step
    ensures record.outcome.Acted? ==> (Resumable(next) &&
      RunFrom(s, env, goal, parse, maxSteps) ==
        (RunFrom(next, env, goal, parse, maxSteps).0, [record] + RunFrom(next, env, goal, parse, maxSteps).1))
    ensures !record.outcome.Acted? ==> RunFrom(s, env, goal, parse, maxSteps) == (next, [record])
    ensures |next.history| >= |s.history| && next.history[..|s.history|] == s.history
    ensures ResponseNames(next.history) ==
      ResponseNames(s.history) + (if record.outcome.Acted? then [record.outcome.action] else [])
    ensures record.outcome.Finished? ==> record.outcome.result != "" && next.lastResult == Some(record.outcome.result)
    ensures !record.outcome.Finished? ==> next.lastResult == s.lastResult
    ensures s.shouldRun != Some(false) ==>
      (record.outcome.StopRequested? ==> next.shouldRun == Some(false)) &&
      (!record.outcome.StopRequested? ==> next.shouldRun == s.shouldRun)
    ensures ValidMultiplier(s.throttle.multiplier) ==> ValidMultiplier(next.throttle.multiplier)
  {
    var e := env(s.step + 1);
    IterateSplit(s, env, goal, parse, maxSteps);
    next, record := StepSpec(s, e, goal, parse).0, StepSpec(s, e, goal, parse).1;
    StepKeepsHistory(s, e, goal, parse);
    StepResponses(s, e, goal, parse);
    StepEarlyExit(s, e, goal, parse);
    if record.outcome.Acted? {
      StepActed(s, e, goal, parse);
    } else if record.outcome.Finished? {
      StepFinished(s, e, goal, parse);
    }
    if ValidMultiplier(s.throttle.multiplier) {
      StepKeepsMultiplier(s, e, goal, parse);
    }
  }

  /**
   * The loop's count: it runs no iteration at or past the bound; otherwise
   * it ends within the bound, having numbered its iterations consecutively
   * from `s.step + 1`.
   */
  lemma {:induction false} RunShape(s: RunState, env: int -> StepEnv, goal: string, parse: string -> ParseResult, maxSteps: int)
    requires Resumable(s)
    ensures var r := RunFrom(s, env, goal, parse, maxSteps);
      |r.1| == r.0.step - s.step &&
      (s.step >= maxSteps ==> r == (s, [])) &&
      (s.step < maxSteps ==> s.step < r.0.step <= maxSteps) &&
      (forall i :: 0 <= i < |r.1| ==> r.1[i].step == s.step + i + 1)
    decreases maxSteps - s.step
  {
    if s.step < maxSteps {
      var next, record := Unroll(s, env, goal, parse, maxSteps);
      if record.outcome.Acted? {
        RunShape(next, env, goal, parse, maxSteps);
        var rest := RunFrom(next, env, goal, parse, maxSteps);
        var records := [record] + rest.1;
        forall i | 0 < i < |records| ensures records[i] == rest.1[i - 1] {
        }
      }
    }
  }

  /** Every iteration of the loop but the last executed an action. */
  lemma {:induction false} RunActedPrefix(s: RunState, env: int -> StepEnv, goal: string, parse: string -> ParseResult, maxSteps: int)
    requires Resumable(s)
    ensures var r := RunFrom(s, env, goal, parse, maxSteps);
      forall i :: 0 <= i < |r.1| - 1 ==> r.1[i].outcome.Acted?
    decreases maxSteps - s.step
  {
    if s.step < maxSteps {
      var next, record := Unroll(s, env, goal, parse, maxSteps);
      if record.outcome.Acted? {
        RunActedPrefix(next, env, goal, parse, maxSteps);
        var rest := RunFrom(next, env, goal, parse, maxSteps);
        var records := [record] + rest.1;
        forall i | 0 < i < |records| - 1 ensures records[i].outcome.Acted? {
          assert records[i] == rest.1[i - 1];
        }
      }
    }
  }

  /** The loop stops short of the bound only after an iteration that did not execute an action. */
  lemma {:induction false} RunStopsShort(s: RunState, env: int -> StepEnv, goal: string, parse: string -> ParseResult, maxSteps: int)
    requires Resumable(s)
    ensures var r := RunFrom(s, env, goal, parse, maxSteps);
      r.0.step < maxSteps && |r.1| > 0 ==> !r.1[|r.1| - 1].outcome.Acted?
    decreases maxSteps - s.step
  {
    if s.step < maxSteps {
      var next, record := Unroll(s, env, goal, parse, maxSteps);
      if record.outcome.Acted? {
        RunStopsShort(next, env, goal, parse, maxSteps);
        var rest := RunFrom(next, env, goal, parse, maxSteps);
        if next.step < maxSteps {
          var _, _ := Unroll(next, env, goal, parse, maxSteps);
          assert ([record] + rest.1)[|rest.1|] == rest.1[|rest.1| - 1];
        }
      }
    }
  }

  /** The history keeps every turn it had. */
  lemma {:induction false} RunKeepsHistory(s: RunState, env: int -> StepEnv, goal: string, parse: string -> ParseResult, maxSteps: int)
    requires Resumable(s)
    ensures var r := RunFrom(s, env, goal, parse, maxSteps);
      |r.0.history| >= |s.history| && r.0.history[..|s.history|] == s.history
    decreases maxSteps - s.step
  {
    if s.step < maxSteps {
      var next, record := UnrollEffects(s, env, goal, parse, maxSteps);
      if record.outcome.Acted? {
        RunKeepsHistory(next, env, goal, parse, maxSteps);
        var h := RunFrom(next, env, goal, parse, maxSteps).0.history;
        assert h[..|s.history|] == h[..|next.history|][..|s.history|];
      }
    } else {
      assert s.history[..|s.history|] == s.history;
    }
  }

  /**
   * The history gains one function response per executed action, in the
   * order of the iterations, named by the action.
   */
  lemma {:induction false} RunResponses(s: RunState, env: int -> StepEnv, goal: string, parse: string -> ParseResult, maxSteps: int)
    requires Resumable(s)
    ensures var r := RunFrom(s, env, goal, parse, maxSteps);
      ResponseNames(r.0.history) == ResponseNames(s.history) + ActedNames(r.1)
    decreases maxSteps - s.step
  {
    if s.step < maxSteps {
      var next, record := UnrollEffects(s, env, goal, parse, maxSteps);
      var own := if record.outcome.Acted? then [record.outcome.action] else [];
      if record.outcome.Acted? {
        RunResponses(next, env, goal, parse, maxSteps);
        var rest := RunFrom(next, env, goal, parse, maxSteps);
        assert ([record] + rest.1)[1..] == rest.1;
        assert ActedNames([record] + rest.1) == own + ActedNames(rest.1);
        ConcatAssoc(ResponseNames(s.history), own, ActedNames(rest.1));
      } else {
        assert [record][1..] == [];
        assert ActedNames([record]) == own + [];
      }
    } else {
      assert ResponseNames(s.history) + [] == ResponseNames(s.history);
    }
  }

  /**
   * The stored result changes only when the run ends on a `done`, and then
   * holds that iteration's non-empty result.
   */
  lemma {:induction false} RunLastResult(s: RunState, env: int -> StepEnv, goal: string, parse: string -> ParseResult, maxSteps: int)
    requires Resumable(s)
    ensures var r := RunFrom(s, env, goal, parse, maxSteps);
      var finished := |r.1| > 0 && r.1[|r.1| - 1].outcome.Finished?;
      (finished ==> r.1[|r.1| - 1].outcome.result != "" && r.0.lastResult == Some(r.1[|r.1| - 1].outcome.result)) &&
      (!finished ==> r.0.lastResult == s.lastResult)
    decreases maxSteps - s.step
  {
    if s.step < maxSteps {
      var next, record := UnrollEffects(s, env, goal, parse, maxSteps);
      if record.outcome.Acted? {
        RunLastResult(next, env, goal, parse, maxSteps);
        var rest := RunFrom(next, env, goal, parse, maxSteps);
        if rest.1 != [] {
          assert ([record] + rest.1)[|rest.1|] == rest.1[|rest.1| - 1];
        }
      }
    }
  }

  /**
   * From a flag that is not `false`, the run leaves the flag `false` exactly
   * when it ended on a stop request, and leaves it as it was otherwise.
   */
  lemma {:induction false} RunFlag(s: RunState, env: int -> StepEnv, goal: string, parse: string -> ParseResult, maxSteps: int)
    requires Resumable(s) && s.shouldRun != Some(false)
    ensures var r := RunFrom(s, env, goal, parse, maxSteps);
      var stopped := |r.1| > 0 && r.1[|r.1| - 1].outcome.StopRequested?;
      (stopped ==> r.0.shouldRun == Some(false)) && (!stopped ==> r.0.shouldRun == s.shouldRun)
    decreases maxSteps - s.step
  {
    if s.step < maxSteps {
      var next, record := UnrollEffects(s, env, goal, parse, maxSteps);
      if record.outcome.Acted? {
        RunFlag(next, env, goal, parse, maxSteps);
        var rest := RunFrom(next, env, goal, parse, maxSteps);
        if rest.1 != [] {
          assert ([record] + rest.1)[|rest.1|] == rest.1[|rest.1| - 1];
        }
      }
    }
  }

  /** The backoff multiplier stays within 1, 2, 4, 8 and 16 over the whole run. */
  lemma {:induction false} RunKeepsMultiplier(s: RunState, env: int -> StepEnv, goal: string, parse: string -> ParseResult, maxSteps: int)
    requires Resumable(s) && ValidMultiplier(s.throttle.multiplier)
    ensures ValidMultiplier(RunFrom(s, env, goal, parse, maxSteps).0.throttle.multiplier)
    decreases maxSteps - s.step
  {
    if s.step < maxSteps {
      var next, record := UnrollEffects(s, env, goal, parse, maxSteps);
      if record.outcome.Acted? {
        RunKeepsMultiplier(next, env, goal, parse, maxSteps);
      }
    }
  }

  /**
   * `run` as a whole, from step 0 with the flag set: it returns at most
   * `max(0, maxSteps)` steps, one record per step, numbered from 1; only the
   * last iteration may end otherwise than with an executed action, and one
   * must when the run returns before the bound. The history keeps its turns
   * and gains one function response per executed action; the flag ends
   * `false` only after a stop request; the stored result changes only on a
   * `done`; the multiplier stays a power of two up to 16.
   */
  lemma RunOutline(history: seq<Turn>, throttle: ThrottleState, lastResult: Option<string>,
                   env: int -> StepEnv, goal: string, parse: string -> ParseResult, maxSteps: int)
    ensures var r := RunSpec(history, throttle, lastResult, env, goal, parse, maxSteps);
      var steps := r.0.step;
      var last := if r.1 == [] then None else Some(r.1[|r.1| - 1].outcome);
      (maxSteps <= 0 ==> steps == 0 && r.1 == []) &&
      (maxSteps > 0 ==> 1 <= steps <= maxSteps) &&
      |r.1| == steps &&
      (forall i :: 0 <= i < |r.1| ==> r.1[i].step == i + 1) &&
      (forall i :: 0 <= i < |r.1| - 1 ==> r.1[i].outcome.Acted?) &&
      (steps < maxSteps && steps > 0 ==> !last.value.Acted?) &&
      |r.0.history| >= |history| && r.0.history[..|history|] == history &&
      ResponseNames(r.0.history) == ResponseNames(history) + ActedNames(r.1) &&
      r.0.shouldRun == (if last == Some(StopRequested) then Some(false) else Some(true)) &&
      (last.Some? && last.value.Finished? ==> r.0.lastResult == Some(last.value.result)) &&
      (!(last.Some? && last.value.Finished?) ==> r.0.lastResult == lastResult) &&
      (ValidMultiplier(throttle.multiplier) ==> ValidMultiplier(r.0.throttle.multiplier))
  {
    var s := InitialState(0, history, throttle, lastResult);
    assert RunSpec(history, throttle, lastResult, env, goal, parse, maxSteps) == RunFrom(s, env, goal, parse, maxSteps);
    RunShape(s, env, goal, parse, maxSteps);
    RunActedPrefix(s, env, goal, parse, maxSteps);
    RunStopsShort(s, env, goal, parse, maxSteps);
    RunKeepsHistory(s, env, goal, parse, maxSteps);
    RunResponses(s, env, goal, parse, maxSteps);
    RunFlag(s, env, goal, parse, maxSteps);
    RunLastResult(s, env, goal, parse, maxSteps);
    if ValidMultiplier(throttle.multiplier) {
      RunKeepsMultiplier(s, env, goal, parse, maxSteps);
    }
  }

  lemma ConcatAssoc<T>(a: seq<T>, b: seq<T>, c: seq<T>)
    ensures a + b + c == a + (b + c)
  {
  }
}
