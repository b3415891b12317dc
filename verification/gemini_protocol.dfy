/**
 * The wire format the agent exchanges with the Gemini Computer Use model:
 * conversation turns, the request body, and `GeminiClient.parseResponse`'s
 * fallback chain (function calls, then a JSON object found in the text, then
 * nothing).
 */
module GeminiProtocol {
  import opened Wrappers
  import opened JsValues
  import opened Sequences
  import DataUrl

  /**
   * One entry of the conversation history. A model turn holds the candidate's
   * `parts` exactly as received; a function-response turn holds the fields of
   * `buildFunctionResponse`'s `functionResponse.response`.
   */
  datatype Turn =
    | UserTurn(text: string, image: Option<string>)
    | ModelTurn(parts: Json)
    | FunctionResponseTurn(name: Json, result: Json, success: bool, url: Option<string>)

  /** `JSON.parse` as an input: a value, or the SyntaxError's message. */
  datatype ParseResult = Parsed(value: Json) | SyntaxError(message: string)

  function UserText(goal: string): string {
    "Goal: " + goal + "\n\nRespond with ONLY Computer Use tool calls. No other text."
  }

  /**
   * `buildUserPart`: the instruction text, and the payload of the screenshot's
   * data URL as an inline image when that payload is non-empty.
   */
  function BuildUserPart(goal: string, screenshot: Option<string>): (t: Turn)
    ensures t.UserTurn? && t.text == UserText(goal)
    ensures t.image.Some? ==> screenshot.Some? && t.image.value != ""
  {
    var base64 := if screenshot.Some? then DataUrl.Payload(screenshot.value) else None;
    UserTurn(UserText(goal), if base64.Some? && base64.value != "" then base64 else None)
  }

  /** The user turn carries an `inline_data` part exactly when the URL's payload after the first comma is non-empty. */
  lemma BuildUserPartImage(goal: string, screenshot: Option<string>)
    ensures BuildUserPart(goal, screenshot).UserTurn?
    ensures BuildUserPart(goal, screenshot).text == UserText(goal)
    ensures BuildUserPart(goal, screenshot).image.Some? <==>
      screenshot.Some? && DataUrl.GetSize(screenshot) > 0
    ensures BuildUserPart(goal, screenshot).image.Some? ==>
      DataUrl.Payload(screenshot.value) == BuildUserPart(goal, screenshot).image &&
      ',' !in BuildUserPart(goal, screenshot).image.value
  {
    if screenshot.Some? {
      DataUrl.PayloadAfterFirstComma(screenshot.value);
    }
  }

  function UrlJson(url: Option<string>): Json {
    if url.Some? then Str(url.value) else Undefined
  }

  /** The JavaScript object a turn is sent as. */
  function TurnJson(t: Turn): Json {
    match t
    case UserTurn(text, image) =>
      var textPart := Object1("text", Str(text));
      var imageParts :=
        if image.Some?
        then [Object1("inline_data", Object2("mime_type", Str("image/png"), "data", Str(image.value)))]
        else [];
      Object2("role", Str("user"), "parts", Arr([textPart] + imageParts))
    case ModelTurn(parts) =>
      Object2("role", Str("model"), "parts", parts)
    case FunctionResponseTurn(name, result, success, url) =>
      var response := Object3("result", result, "success", Bool(success), "url", UrlJson(url));
      Object2("role", Str("user"), "parts",
        Arr([Object1("functionResponse", Object2("name", name, "response", response))]))
  }

  function TurnsJson(turns: seq<Turn>): (js: seq<Json>)
    ensures |js| == |turns|
  {
    if turns == [] then [] else [TurnJson(turns[0])] + TurnsJson(turns[1..])
  }

  /** `buildRequest(contents)` */
  function BuildRequest(contents: seq<Turn>): (r: Json)
    ensures Get(r, "contents").Arr? && |Get(r, "contents").items| == |contents|
  {
    Object2("contents", Arr(TurnsJson(contents)),
      "tools", Arr([Object1("computer_use", Object1("environment", Str("ENVIRONMENT_BROWSER")))]))
  }

  /** Reads a turn back from its JSON form. */
  function DecodeTurn(j: Json): Option<Turn> {
    var role := Get(j, "role");
    var parts := Get(j, "parts");
    if role == Str("model") then Some(ModelTurn(parts))
    else if role != Str("user") || !parts.Arr? || |parts.items| == 0 then None
    else
      var first := parts.items[0];
      if first.Obj? && "functionResponse" in first.fields then
        var fr := first.fields["functionResponse"];
        var response := Get(fr, "response");
        var success := Get(response, "success");
        var url := Get(response, "url");
        if |parts.items| == 1 && success.Bool? && (url.Str? || url.Undefined?) then
          Some(FunctionResponseTurn(Get(fr, "name"), Get(response, "result"), success.b,
            if url.Str? then Some(url.s) else None))
        else None
      else
        var text := Get(first, "text");
        if !text.Str? then None
        else if |parts.items| == 1 then Some(UserTurn(text.s, None))
        else
          var data := Get(Get(parts.items[1], "inline_data"), "data");
          if |parts.items| == 2 && data.Str? then Some(UserTurn(text.s, Some(data.s))) else None
  }

  function DecodeTurns(js: seq<Json>): Option<seq<Turn>> {
    if js == [] then Some([])
    else
      match DecodeTurn(js[0])
      case None => None
      case Some(t) =>
        match DecodeTurns(js[1..])
        case None => None
        case Some(rest) => Some([t] + rest)
  }

  /** Reads the transcript back out of a request body. */
  function DecodeRequest(request: Json): Option<seq<Turn>> {
    var contents := Get(request, "contents");
    if contents.Arr? then DecodeTurns(contents.items) else None
  }

  lemma DecodeTurnJson(t: Turn)
    ensures DecodeTurn(TurnJson(t)) == Some(t)
  {
    match t
    case UserTurn(text, image) =>
      var parts := Get(TurnJson(t), "parts");
      assert parts.items[0] == Object1("text", Str(text));
    case ModelTurn(_) =>
    case FunctionResponseTurn(_, _, _, _) =>
  }

  lemma {:induction false} DecodeTurnsJson(turns: seq<Turn>)
    ensures DecodeTurns(TurnsJson(turns)) == Some(turns)
  {
    if turns != [] {
      DecodeTurnJson(turns[0]);
      DecodeTurnsJson(turns[1..]);
      assert TurnsJson(turns)[1..] == TurnsJson(turns[1..]);
      assert [turns[0]] + turns[1..] == turns;
    }
  }

  /**
   * The request carries the whole transcript, every turn in order and
   * nothing else: reading it back gives the turns it was built from.
   */
  lemma BuildRequestRoundTrip(contents: seq<Turn>)
    ensures DecodeRequest(BuildRequest(contents)) == Some(contents)
    ensures Get(Get(Index0(Get(BuildRequest(contents), "tools")), "computer_use"), "environment") == Str("ENVIRONMENT_BROWSER")
  {
    DecodeTurnsJson(contents);
  }

  // ---------------------------------------------------------------------
  // parseResponse

  /** `result?.candidates?.[0]` */
  function Candidate(result: Json): Json {
    Index0(Get(result, "candidates"))
  }

  /** `candidate?.content?.parts || []` */
  function PartsOf(result: Json): Json {
    Or(Get(Get(Candidate(result), "content"), "parts"), Arr([]))
  }

  /** `p.functionCall || p.function_call` */
  function CallOf(p: Json): Json {
    Or(Get(p, "functionCall"), Get(p, "function_call"))
  }

  predicate HasCall(p: Json) {
    Truthy(CallOf(p))
  }

  /** `parts.filter(p => p.functionCall || p.function_call).map(p => p.functionCall || p.function_call)` */
  function CallsOf(parts: seq<Json>): (calls: seq<Json>)
    ensures |calls| <= |parts|
    ensures forall i :: 0 <= i < |calls| ==> Truthy(calls[i])
  {
    if parts == [] then []
    else if HasCall(parts[0]) then [CallOf(parts[0])] + CallsOf(parts[1..])
    else CallsOf(parts[1..])
  }

  /**
   * The calls are found exactly when some part carries one, and the first call
   * is the one carried by the first such part.
   */
  lemma {:induction false} CallsOfFirst(parts: seq<Json>)
    ensures |CallsOf(parts)| > 0 <==> FirstIndex(parts, HasCall).Some?
    ensures |CallsOf(parts)| > 0 ==> CallsOf(parts)[0] == CallOf(parts[FirstIndex(parts, HasCall).value])
  {
    if parts != [] && !HasCall(parts[0]) {
      CallsOfFirst(parts[1..]);
      var r := FirstIndex(parts[1..], HasCall);
      if r.Some? {
        assert parts[1..][r.value] == parts[r.value + 1];
      }
    }
  }

  /** Every call, in the order of the parts that carry it. */
  lemma {:induction false} CallsOfInOrder(parts: seq<Json>, i: nat)
    requires i < |parts| && HasCall(parts[i])
    ensures var k := |CallsOf(parts[..i])|;
      k < |CallsOf(parts)| && CallsOf(parts)[k] == CallOf(parts[i])
  {
    if i > 0 {
      CallsOfInOrder(parts[1..], i - 1);
      assert parts[..i][1..] == parts[1..][..i - 1];
    }
  }

  /** `p.text || ''`, as `join` renders it. */
  function TextOf(p: Json): string {
    var t := Get(p, "text");
    if Truthy(t) then ToJsString(t) else ""
  }

  /** `parts.map(p => p.text || '').join('\n')` */
  function JoinTexts(parts: seq<Json>): string {
    if parts == [] then ""
    else if |parts| == 1 then TextOf(parts[0])
    else TextOf(parts[0]) + "\n" + JoinTexts(parts[1..])
  }

  /**
   * The match of `/\{[\s\S]*\}/`: from the first '{' to the last '}' of the
   * text, when that '}' comes after that '{'.
   */
  function GreedyBraceMatch(s: string): Option<string> {
    var i := IndexOf(s, '{');
    var j := LastIndexOf(s, '}');
    if i.Some? && j.Some? && i.value < j.value then Some(s[i.value..j.value + 1]) else None
  }

  /**
   * The regular expression's leftmost-longest match: the match exists exactly
   * when some '{' precedes some '}', and it then runs from the first '{' to the
   * last '}'.
   */
  lemma GreedyBraceMatchSpec(s: string)
    ensures GreedyBraceMatch(s).Some? <==>
      exists i, j :: 0 <= i < j < |s| && s[i] == '{' && s[j] == '}'
    ensures GreedyBraceMatch(s).Some? ==>
      exists i, j :: 0 <= i < j < |s| && s[i] == '{' && s[j] == '}' &&
        '{' !in s[..i] && '}' !in s[j + 1..] && GreedyBraceMatch(s).value == s[i..j + 1]
  {
    var i := IndexOf(s, '{');
    var j := LastIndexOf(s, '}');
    if exists a, b :: 0 <= a < b < |s| && s[a] == '{' && s[b] == '}' {
      var a, b :| 0 <= a < b < |s| && s[a] == '{' && s[b] == '}';
      assert i.Some? by { assert s[a] in s; }
      assert j.Some? by { assert s[b] in s; }
    }
  }

  /** The match once the first '{' and the last '}' are known. */
  lemma GreedyBraceMatchAt(s: string, i: nat, k: nat)
    requires IndexOf(s, '{') == Some(i) && LastIndexOf(s, '}') == Some(k) && i < k
    ensures GreedyBraceMatch(s) == Some(s[i..k + 1])
  {
  }

  /**
   * The match is not brace-balanced: two separate objects in one text are
   * matched together, as one span that is not a single JSON value.
   */
  lemma GreedyMatchSpansTwoObjects(a: string, b: string)
    requires '{' in a && '}' in b
    ensures var i := IndexOf(a, '{').value;
            var j := LastIndexOf(b, '}').value;
            GreedyBraceMatch(a + b) == Some(a[i..] + b[..j + 1])
  {
    var i := IndexOf(a, '{').value;
    var j := LastIndexOf(b, '}').value;
    IndexOfAppend(a, b, '{');
    LastIndexOfAppend(a, b, '}');
    GreedyBraceMatchAt(a + b, i, |a| + j);
    SliceAcross(a, b, i, j + 1);
  }

  /** The three outcomes of `parseResponse`, and the TypeError a malformed `parts` raises. */
  datatype Parsed =
    | FunctionCalls(calls: seq<Json>)
    | JsonAction(action: Json)
    | NoDecision
    | ParseThrew(message: string)

  function PropertyReadError(v: Json, key: string): string {
    "Cannot read properties of " + (if v.Null? then "null" else "undefined") + " (reading '" + key + "')"
  }

  /** `GeminiClient.parseResponse` */
  function ParseResponse(result: Json, parse: string -> ParseResult): (r: Parsed)
    ensures r.FunctionCalls? ==> |r.calls| > 0
  {
    var parts := PartsOf(result);
    if !parts.Arr? then ParseThrew("parts.filter is not a function")
    else
      match FirstIndex(parts.items, Nullish)
      case Some(k) => ParseThrew(PropertyReadError(parts.items[k], "functionCall"))
      case None =>
        var calls := CallsOf(parts.items);
        if |calls| > 0 then FunctionCalls(calls)
        else
          var text := JoinTexts(parts.items);
          if text == "" then NoDecision
          else
            match GreedyBraceMatch(text)
            case None => NoDecision
            case Some(m) =>
              match parse(m)
              case Parsed(v) => JsonAction(v)
              case SyntaxError(_) => NoDecision
  }

  /**
   * The fallback chain: function calls win whenever any part carries one (all
   * of them, in order); only otherwise is the text searched for a JSON object,
   * whose failure to match or to parse gives no decision, and whose parsed
   * value is otherwise the action. A `parts` that is not an array, or holds
   * `null`, raises a TypeError instead.
   */
  lemma ParseResponseChain(result: Json, parse: string -> ParseResult)
    ensures var parts := PartsOf(result);
      var r := ParseResponse(result, parse);
      (r.ParseThrew? <==> (!parts.Arr? || exists k :: 0 <= k < |parts.items| && Nullish(parts.items[k]))) &&
      (r.FunctionCalls? <==>
        parts.Arr? && (forall k :: 0 <= k < |parts.items| ==> !Nullish(parts.items[k])) &&
        exists k :: 0 <= k < |parts.items| && HasCall(parts.items[k])) &&
      (r.FunctionCalls? ==> r.calls == CallsOf(parts.items)) &&
      (r.JsonAction? ==>
        |CallsOf(parts.items)| == 0 && GreedyBraceMatch(JoinTexts(parts.items)).Some? &&
        parse(GreedyBraceMatch(JoinTexts(parts.items)).value) == Parsed(r.action)) &&
      (parts.Arr? && (forall k :: 0 <= k < |parts.items| ==> !Nullish(parts.items[k])) &&
       |CallsOf(parts.items)| == 0 && GreedyBraceMatch(JoinTexts(parts.items)).Some? &&
       parse(GreedyBraceMatch(JoinTexts(parts.items)).value).Parsed? ==>
        r == JsonAction(parse(GreedyBraceMatch(JoinTexts(parts.items)).value).value))
  {
    var parts := PartsOf(result);
    if parts.Arr? {
      CallsOfFirst(parts.items);
      var n := FirstIndex(parts.items, Nullish);
      if n.Some? {
        assert Nullish(parts.items[n.value]);
      }
      var c := FirstIndex(parts.items, HasCall);
      if c.Some? {
        assert HasCall(parts.items[c.value]);
      }
    }
  }

  /** No candidates, no content or no parts: nothing to decide on. */
  lemma EmptyResponseHasNoDecision(result: Json, parse: string -> ParseResult)
    requires !Truthy(Get(Get(Candidate(result), "content"), "parts"))
    ensures ParseResponse(result, parse) == NoDecision
  {
  }
}
