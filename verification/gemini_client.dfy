/**
 * `GeminiClient.call`: reads the API key, appends the user turn to the
 * caller's history array in place, sends the whole history, and turns the
 * reply into a decision, appending the model turn on the function-call path.
 * The key lookup, `fetch` and `JSON.parse` are inputs.
 */
module GeminiClient {
  import opened Wrappers
  import opened JsValues
  import opened Sequences
  import opened GeminiProtocol

  const Endpoint: string := "https://generativelanguage.googleapis.com/v1beta/models/gemini-2.5-computer-use-preview-10-2025:generateContent"
  const KeyMissingMessage: string := "Gemini API key not found. Please set it in extension options."
  const NoCallsMessage: string := "No function calls found"

  /** What `fetch` produced: a rejection, or a response with its status and body text. */
  datatype HttpOutcome = FetchRejected(message: string) | HttpResponse(status: int, body: string)

  /** `response.ok` */
  predicate StatusOk(status: int) {
    200 <= status <= 299
  }

  /**
   * What `call` returns: the action and its arguments, and a result text for
   * the terminal replies. `argsShared` is set when `args` is the very object held
   * by the first function call of the model turn just appended to the history.
   */
  datatype Decision = Decision(action: Json, args: Json, result: Option<string>, argsShared: bool)

  predicate IsDone(d: Decision) {
    d.action == Str("done")
  }

  function Done(result: string): Decision {
    Decision(Str("done"), Undefined, Some(result), false)
  }

  /** `{}` */
  function EmptyObject(): Json {
    Obj(map[])
  }

  /** The message of the Error thrown for a non-OK status. */
  function ApiErrorMessage(status: int, body: string, parse: string -> ParseResult): (m: string)
    ensures StartsWith(m, "API error " + IntToString(status) + ": ")
  {
    var detail :=
      match parse(body)
      case Parsed(json) =>
        var m := Get(Get(json, "error"), "message");
        if Truthy(m) then ToJsString(m) else body
      case SyntaxError(_) => body;
    "API error " + IntToString(status) + ": " + detail
  }

  /** The decision for a parsed successful reply, and the model turn to append, if any. */
  function Interpret(result: Json, parse: string -> ParseResult): (r: (Decision, Option<Turn>))
    ensures r.1.Some? ==> r.1.value.ModelTurn? && ParseResponse(result, parse).FunctionCalls?
    ensures r.0.argsShared ==> r.1.Some?
    ensures r.0.result.Some? ==> IsDone(r.0)
  {
    match ParseResponse(result, parse)
    case ParseThrew(m) => (Done("Error: " + m), None)
    case FunctionCalls(calls) =>
      var content := Get(Candidate(result), "content");
      if Truthy(content) then
        var fc := calls[0];
        (Decision(Get(fc, "name"), Or(Get(fc, "args"), EmptyObject()), None, Truthy(Get(fc, "args"))),
         Some(ModelTurn(Or(Get(content, "parts"), Arr([])))))
      else (Done(NoCallsMessage), None)
    case JsonAction(a) =>
      (Decision(Or(Get(a, "action"), Str("done")), Or(Get(a, "args"), EmptyObject()), None, false), None)
    case NoDecision => (Done(NoCallsMessage), None)
  }

  /** The decision for what `fetch` produced, and the model turn to append, if any. */
  function Respond(http: HttpOutcome, parse: string -> ParseResult): (r: (Decision, Option<Turn>))
    ensures r.1.Some? ==> http.HttpResponse? && StatusOk(http.status) && r.1.value.ModelTurn?
    ensures r.0.result.Some? ==> IsDone(r.0)
  {
    match http
    case FetchRejected(m) => (Done("Error: " + m), None)
    case HttpResponse(status, body) =>
      if !StatusOk(status) then (Done("Error: " + ApiErrorMessage(status, body, parse)), None)
      else
        match parse(body)
        case SyntaxError(m) => (Done("Error: " + m), None)
        case Parsed(result) => Interpret(result, parse)
  }

  /** A key is present when the stored value is a non-empty string. */
  predicate KeyPresent(apiKey: Option<string>) {
    apiKey.Some? && apiKey.value != ""
  }

  datatype CallResult = CallResult(decision: Decision, history: seq<Turn>, request: Option<Json>)

  /** The specification of `call`: its decision, the history afterwards, and the request it sent. */
  function CallSpec(screenshot: Option<string>, goal: string, history: seq<Turn>,
                    apiKey: Option<string>, http: HttpOutcome, parse: string -> ParseResult): (c: CallResult)
    ensures c.request.Some? <==> KeyPresent(apiKey)
    ensures |history| <= |c.history| && c.history[..|history|] == history
  {
    if !KeyPresent(apiKey) then CallResult(Done("Error: " + KeyMissingMessage), history, None)
    else
      var user := BuildUserPart(goal, screenshot);
      var (d, model) := Respond(http, parse);
      CallResult(d, history + [user] + (if model.Some? then [model.value] else []), Some(BuildRequest(history + [user])))
  }

  /** The conversation history array, appended to in place. */
  class History {
    var turns: seq<Turn>

    constructor ()
      ensures turns == []
    {
      turns := [];
    }

    method Push(t: Turn)
      modifies this
      ensures turns == old(turns) + [t]
    {
      turns := turns + [t];
    }

    /**
     * The effect on the history of a write into the arguments object of the
     * last model turn's first function call (see `WriteBackArgs`).
     */
    method WriteArgs(args: Json)
      modifies this
      ensures turns == WriteBackArgs(old(turns), args)
    {
      if |turns| > 0 && turns[|turns| - 1].ModelTurn? {
        var last := turns[|turns| - 1];
        turns := turns[..|turns| - 1] + [ModelTurn(WithFirstCallArgs(last.parts, args))];
      }
    }
  }

  /** `GeminiClient.call`, pushing onto the caller's `history` as the source does. */
  method Call(screenshot: Option<string>, goal: string, history: History,
              apiKey: Option<string>, http: HttpOutcome, parse: string -> ParseResult)
    returns (d: Decision, request: Option<Json>)
    modifies history
    ensures var r := CallSpec(screenshot, goal, old(history.turns), apiKey, http, parse);
      d == r.decision && request == r.request && history.turns == r.history
  {
    if !KeyPresent(apiKey) {
      d := Done("Error: " + KeyMissingMessage);
      request := None;
      return;
    }
    var userPart := BuildUserPart(goal, screenshot);
    var contents := history.turns + [userPart];
    history.Push(userPart);
    request := Some(BuildRequest(contents));
    var answer := Respond(http, parse);
    d := answer.0;
    var model := answer.1;
    if model.Some? {
      history.Push(model.value);
    }
  }

  /**
   * The parts of a model turn after a write into the arguments object of its
   * first function call: that call's `args` becomes `args`.
   */
  function WithFirstCallArgs(parts: Json, args: Json): Json {
    if !parts.Arr? then parts
    else
      match FirstIndex(parts.items, HasCall)
      case None => parts
      case Some(i) =>
        var p := parts.items[i];
        var key := if Truthy(Get(p, "functionCall")) then "functionCall" else "function_call";
        var fc := Get(p, key);
        if fc.Obj? then Arr(parts.items[i := Obj(p.fields[key := Obj(fc.fields["args" := args])])])
        else parts
  }

  /** The history after a write into the arguments of the last model turn's first call. */
  function WriteBackArgs(h: seq<Turn>, args: Json): seq<Turn> {
    if |h| > 0 && h[|h| - 1].ModelTurn?
    then h[..|h| - 1] + [ModelTurn(WithFirstCallArgs(h[|h| - 1].parts, args))]
    else h
  }

  /**
   * The write-back touches only the last turn, and afterwards the turn's
   * first call carries exactly the written arguments; writing back the
   * arguments the call already had changes nothing.
   */
  lemma WriteBackArgsEffect(h: seq<Turn>, args: Json)
    ensures |WriteBackArgs(h, args)| == |h|
    ensures |h| > 0 ==> WriteBackArgs(h, args)[..|h| - 1] == h[..|h| - 1]
    ensures |h| > 0 && h[|h| - 1].ModelTurn? && h[|h| - 1].parts.Arr? ==>
      (var before := h[|h| - 1].parts.items;
       var after := WriteBackArgs(h, args)[|h| - 1].parts;
       after.Arr? && |after.items| == |before| &&
       (CallsOf(before) != [] && CallsOf(before)[0].Obj? ==>
          CallsOf(after.items) != [] && Get(CallsOf(after.items)[0], "args") == args))
    ensures (|h| > 0 && h[|h| - 1].ModelTurn? && h[|h| - 1].parts.Arr? &&
      CallsOf(h[|h| - 1].parts.items) != [] &&
      Truthy(Get(CallsOf(h[|h| - 1].parts.items)[0], "args"))) ==>
        WriteBackArgs(h, Get(CallsOf(h[|h| - 1].parts.items)[0], "args")) == h
  {
    if |h| > 0 {
      assert WriteBackArgs(h, args)[..|h| - 1] == h[..|h| - 1];
      if h[|h| - 1].ModelTurn? && h[|h| - 1].parts.Arr? {
        var before := h[|h| - 1].parts.items;
        if CallsOf(before) != [] && CallsOf(before)[0].Obj? {
          WithFirstCallArgsSets(before, args);
        }
        if CallsOf(before) != [] && Truthy(Get(CallsOf(before)[0], "args")) {
          WithFirstCallArgsUnchanged(before);
          assert h[..|h| - 1] + [h[|h| - 1]] == h;
        }
      }
    }
  }

  lemma WithFirstCallArgsSets(items: seq<Json>, args: Json)
    requires CallsOf(items) != [] && CallsOf(items)[0].Obj?
    ensures var after := WithFirstCallArgs(Arr(items), args);
      after.Arr? && |after.items| == |items| &&
      CallsOf(after.items) != [] && Get(CallsOf(after.items)[0], "args") == args
  {
    CallsOfFirst(items);
    var i := FirstIndex(items, HasCall).value;
    var p := items[i];
    var key := if Truthy(Get(p, "functionCall")) then "functionCall" else "function_call";
    var fc := Get(p, key);
    assert CallOf(p) == fc;
    var q := Obj(p.fields[key := Obj(fc.fields["args" := args])]);
    assert WithFirstCallArgs(Arr(items), args) == Arr(items[i := q]);
    CallOfWithArgs(p, key, args);
    FirstCallReplaced(items, i, q);
  }

  /** Replacing the first part that carries a call by another such part makes its call the first one. */
  lemma FirstCallReplaced(items: seq<Json>, i: nat, q: Json)
    requires i < |items| && FirstIndex(items, HasCall) == Some(i) && HasCall(q)
    ensures CallsOf(items[i := q]) != [] && CallsOf(items[i := q])[0] == CallOf(q)
  {
    var after := items[i := q];
    FirstIndexSame(items, after, HasCall, i);
    CallsOfFirst(after);
  }

  /** The part after the write still carries a call, and that call has the written arguments. */
  lemma CallOfWithArgs(p: Json, key: string, args: Json)
    requires key == (if Truthy(Get(p, "functionCall")) then "functionCall" else "function_call")
    requires Get(p, key).Obj?
    ensures var q := Obj(p.fields[key := Obj(Get(p, key).fields["args" := args])]);
      HasCall(q) && CallOf(q) == Obj(Get(p, key).fields["args" := args])
  {
    var q := Obj(p.fields[key := Obj(Get(p, key).fields["args" := args])]);
    if key == "function_call" {
      assert "functionCall" != key by { assert "functionCall"[8] != key[8]; }
      assert Get(q, "functionCall") == Get(p, "functionCall");
    }
  }

  lemma WithFirstCallArgsUnchanged(items: seq<Json>)
    requires CallsOf(items) != [] && Truthy(Get(CallsOf(items)[0], "args"))
    ensures WithFirstCallArgs(Arr(items), Get(CallsOf(items)[0], "args")) == Arr(items)
  {
    CallsOfFirst(items);
    var i := FirstIndex(items, HasCall).value;
    var p := items[i];
    var key := if Truthy(Get(p, "functionCall")) then "functionCall" else "function_call";
    var fc := Get(p, key);
    assert CallOf(p) == fc;
    var oldArgs := Get(fc, "args");
    assert fc.fields["args" := oldArgs] == fc.fields;
    assert p.fields[key := fc] == p.fields;
    assert items[i := p] == items;
  }
}

/** What `GeminiClient.call` promises about the history, the request and the decision. */
module GeminiCallProperties {
  import opened Wrappers
  import opened JsValues
  import opened GeminiProtocol
  import opened GeminiClient

  /**
   * With a key, `call` appends exactly one user turn before sending, sends the
   * old history followed by that turn, and afterwards has appended at most one
   * more turn; the old history is never reordered or shortened. Without a key
   * it appends nothing, sends nothing and ends with the key error, because the
   * key is read before the push.
   */
  lemma CallHistoryGrowth(screenshot: Option<string>, goal: string, h: seq<Turn>,
                          apiKey: Option<string>, http: HttpOutcome, parse: string -> ParseResult)
    ensures var r := CallSpec(screenshot, goal, h, apiKey, http, parse);
      var user := BuildUserPart(goal, screenshot);
      KeyPresent(apiKey) ==>
        |h| + 1 <= |r.history| <= |h| + 2 && r.history[..|h|] == h && r.history[|h|] == user &&
        r.request == Some(BuildRequest(h + [user])) &&
        DecodeRequest(r.request.value) == Some(h + [user])
    ensures var r := CallSpec(screenshot, goal, h, apiKey, http, parse);
      !KeyPresent(apiKey) ==>
        r.history == h && r.request.None? && r.decision == Done("Error: " + KeyMissingMessage)
  {
    if KeyPresent(apiKey) {
      var user := BuildUserPart(goal, screenshot);
      BuildRequestRoundTrip(h + [user]);
      var r := CallSpec(screenshot, goal, h, apiKey, http, parse);
      assert r.history[..|h|] == h;
    }
  }

  /** The successful reply `result` to a request made with a key, if there was one. */
  predicate RepliedWith(apiKey: Option<string>, http: HttpOutcome, parse: string -> ParseResult, result: Json) {
    KeyPresent(apiKey) && http.HttpResponse? && StatusOk(http.status) && parse(http.body) == Parsed(result)
  }

  /**
   * On the function-call path the decision is the first call's name with its
   * arguments (`{}` when they are missing or falsy), and the history gains the
   * user turn and then one model turn holding the candidate's parts; when the
   * arguments are shared, they are the first call's arguments in that model turn.
   */
  lemma CallFunctionPath(screenshot: Option<string>, goal: string, h: seq<Turn>,
                         apiKey: Option<string>, http: HttpOutcome, parse: string -> ParseResult, result: Json)
    requires RepliedWith(apiKey, http, parse, result)
    requires ParseResponse(result, parse).FunctionCalls?
    ensures var r := CallSpec(screenshot, goal, h, apiKey, http, parse);
      var fc := ParseResponse(result, parse).calls[0];
      PartsOf(result).Arr? &&
      r.decision == Decision(Get(fc, "name"), Or(Get(fc, "args"), EmptyObject()), None, Truthy(Get(fc, "args"))) &&
      r.history == h + [BuildUserPart(goal, screenshot), ModelTurn(PartsOf(result))] &&
      (r.decision.argsShared ==> Get(CallsOf(PartsOf(result).items)[0], "args") == r.decision.args)
  {
    ParseResponseChain(result, parse);
    var content := Get(Candidate(result), "content");
    assert Truthy(content);
  }

  /**
   * On the JSON path the decision is the object's `action || 'done'` and
   * `args || {}`, and only the user turn is appended: no model turn.
   */
  lemma CallJsonPath(screenshot: Option<string>, goal: string, h: seq<Turn>,
                     apiKey: Option<string>, http: HttpOutcome, parse: string -> ParseResult, result: Json)
    requires RepliedWith(apiKey, http, parse, result)
    requires ParseResponse(result, parse).JsonAction?
    ensures var r := CallSpec(screenshot, goal, h, apiKey, http, parse);
      var a := ParseResponse(result, parse).action;
      r.decision == Decision(Or(Get(a, "action"), Str("done")), Or(Get(a, "args"), EmptyObject()), None, false) &&
      r.history == h + [BuildUserPart(goal, screenshot)]
  {
  }

  /** A rejected `fetch` ends with its message, after the user turn was appended. */
  lemma CallFetchRejected(screenshot: Option<string>, goal: string, h: seq<Turn>,
                          apiKey: Option<string>, message: string, parse: string -> ParseResult)
    requires KeyPresent(apiKey)
    ensures var r := CallSpec(screenshot, goal, h, apiKey, FetchRejected(message), parse);
      r.decision == Done("Error: " + message) && r.history == h + [BuildUserPart(goal, screenshot)]
  {
  }

  /**
   * A non-OK status ends with `API error <status>: <detail>`, the detail being
   * the JSON body's truthy `error.message`, else the raw body.
   */
  lemma CallHttpError(screenshot: Option<string>, goal: string, h: seq<Turn>,
                      apiKey: Option<string>, status: int, body: string, parse: string -> ParseResult)
    requires KeyPresent(apiKey) && !StatusOk(status)
    ensures var r := CallSpec(screenshot, goal, h, apiKey, HttpResponse(status, body), parse);
      var detail :=
        if parse(body).Parsed? && Truthy(Get(Get(parse(body).value, "error"), "message"))
        then ToJsString(Get(Get(parse(body).value, "error"), "message"))
        else body;
      r.decision == Done("Error: " + ("API error " + IntToString(status) + ": " + detail)) &&
      r.history == h + [BuildUserPart(goal, screenshot)]
  {
    RespondHttpError(status, body, parse);
  }

  lemma RespondHttpError(status: int, body: string, parse: string -> ParseResult)
    requires !StatusOk(status)
    ensures var detail :=
        if parse(body).Parsed? && Truthy(Get(Get(parse(body).value, "error"), "message"))
        then ToJsString(Get(Get(parse(body).value, "error"), "message"))
        else body;
      Respond(HttpResponse(status, body), parse) == (Done("Error: " + ("API error " + IntToString(status) + ": " + detail)), None)
  {
    var code := IntToString(status);
    var detail :=
      if parse(body).Parsed? && Truthy(Get(Get(parse(body).value, "error"), "message"))
      then ToJsString(Get(Get(parse(body).value, "error"), "message"))
      else body;
    assert ApiErrorMessage(status, body, parse) == "API error " + code + ": " + detail;
  }

  /** A reply with neither a function call nor a usable JSON object ends with `No function calls found`. */
  lemma CallNoDecision(screenshot: Option<string>, goal: string, h: seq<Turn>,
                       apiKey: Option<string>, http: HttpOutcome, parse: string -> ParseResult, result: Json)
    requires RepliedWith(apiKey, http, parse, result)
    requires ParseResponse(result, parse) == NoDecision
    ensures var r := CallSpec(screenshot, goal, h, apiKey, http, parse);
      r.decision == Done(NoCallsMessage) && r.history == h + [BuildUserPart(goal, screenshot)]
  {
  }

  /**
   * Every decision that is not `done` carries truthy arguments (`args || {}`),
   * a result text comes only with `done`, and shared arguments are those of the
   * first call of the model turn that `call` appended last.
   */
  lemma DecisionShape(screenshot: Option<string>, goal: string, h: seq<Turn>,
                      apiKey: Option<string>, http: HttpOutcome, parse: string -> ParseResult)
    ensures var r := CallSpec(screenshot, goal, h, apiKey, http, parse);
      (!IsDone(r.decision) ==> Truthy(r.decision.args)) &&
      (r.decision.result.Some? ==> IsDone(r.decision)) &&
      (r.decision.argsShared ==>
        |r.history| > 0 && r.history[|r.history| - 1].ModelTurn? &&
        r.history[|r.history| - 1].parts.Arr? &&
        CallsOf(r.history[|r.history| - 1].parts.items) != [] &&
        Get(CallsOf(r.history[|r.history| - 1].parts.items)[0], "args") == r.decision.args)
  {
    RespondShape(http, parse);
    var answer := Respond(http, parse);
    if KeyPresent(apiKey) && answer.1.Some? {
      var r := CallSpec(screenshot, goal, h, apiKey, http, parse);
      assert r.history == (h + [BuildUserPart(goal, screenshot)]) + [answer.1.value];
    }
  }

  /** `DecisionShape` for the decision drawn from what `fetch` produced, and the model turn it appends. */
  lemma RespondShape(http: HttpOutcome, parse: string -> ParseResult)
    ensures var (d, model) := Respond(http, parse);
      (!IsDone(d) ==> Truthy(d.args)) && (d.result.Some? ==> IsDone(d)) &&
      (d.argsShared ==>
        model.Some? && model.value.ModelTurn? && model.value.parts.Arr? &&
        CallsOf(model.value.parts.items) != [] && Get(CallsOf(model.value.parts.items)[0], "args") == d.args)
  {
    if http.HttpResponse? && StatusOk(http.status) && parse(http.body).Parsed? {
      var result := parse(http.body).value;
      ParseResponseChain(result, parse);
      assert Respond(http, parse) == Interpret(result, parse);
    }
  }
}
