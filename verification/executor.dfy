/**
 * `ActionExecutor`: the renaming of Gemini's action names into the ones the
 * worker handles, the execution of an action against a tab (navigation done
 * by the worker itself, everything else sent to the content script), and the
 * function-response turn reporting the outcome back to the model.
 * The content script's reply and the navigation callback are inputs.
 */
module ActionExecutor {
  import opened Wrappers
  import opened JsValues
  import UriEncoding
  import opened Tabs
  import opened GeminiProtocol

  const Navigate: string := "navigate"
  const Search: string := "search"
  const OpenWebBrowser: string := "open_web_browser"
  const DefaultUrl: string := "https://www.google.com"
  const SearchUrlPrefix: string := "https://www.google.com/search?q="
  /** The wait after starting a navigation, and the wait before messaging the content script. */
  const NavigationWaitMs: nat := 2000
  const PreSendWaitMs: nat := 100
  const SuccessText: string := "Action executed successfully"
  const UnknownErrorText: string := "Unknown error"

  /** The two properties of a decision that `normalizeAction` and `execute` read. */
  datatype Action = Action(name: Json, args: Json)

  /** `normalizeAction`'s outcome: the normalised action, or the message of the TypeError it throws. */
  datatype Normalized = Normalized(action: Action) | Threw(message: string)

  /**
   * `args.url = url`. On an object the key is set; on any other non-nullish
   * value the write has no effect (a sloppy-mode script).
   */
  function WithUrl(args: Json, url: string): Json {
    if args.Obj? then Obj(args.fields["url" := Str(url)]) else args
  }

  /** The Google search URL for a query, coerced to a string and URI-component encoded. */
  function SearchUrl(query: Json): string {
    SearchUrlPrefix + UriEncoding.Encode(ToJsString(query))
  }

  /** The TypeError for writing `url` on `null` or `undefined`. */
  function SetUrlError(args: Json): string {
    "Cannot set properties of " + (if args.Null? then "null" else "undefined") + " (setting 'url')"
  }

  /**
   * `normalizeAction`: its three rules applied in order. The copy is shallow,
   * so `args` here is the caller's own object; the `args` of the result is that
   * object after the writes.
   */
  function Normalize(a: Action): (r: Normalized)
    ensures r.Normalized? ==> r.action.name == a.name || r.action.name == Str(OpenWebBrowser)
    ensures r.Normalized? && r.action.name == Str(OpenWebBrowser) && r.action.args.Obj? ==>
      Truthy(Get(r.action.args, "url"))
  {
    var navigated :=
      if a.name == Str(Navigate) && Truthy(Get(a.args, "url")) then Action(Str(OpenWebBrowser), a.args) else a;
    var searched :=
      if navigated.name == Str(Search) && Truthy(Get(navigated.args, "query"))
      then Action(Str(OpenWebBrowser), WithUrl(navigated.args, SearchUrl(Get(navigated.args, "query"))))
      else navigated;
    if searched.name == Str(OpenWebBrowser) && !Truthy(Get(searched.args, "url")) then
      if Nullish(searched.args) then Threw(SetUrlError(searched.args))
      else Normalized(Action(Str(OpenWebBrowser), WithUrl(searched.args, DefaultUrl)))
    else Normalized(searched)
  }

  /** `navigate` with a url becomes `open_web_browser`, with the arguments and so the url untouched. */
  lemma NormalizeNavigate(a: Action)
    requires a.name == Str(Navigate) && Truthy(Get(a.args, "url"))
    ensures Normalize(a) == Normalized(Action(Str(OpenWebBrowser), a.args))
  {
  }

  /**
   * `search` with a query becomes `open_web_browser` whose arguments gain
   * `url`: the search URL with the encoded query as its only parameter. The
   * encoded part has no character that could end or split the parameter, and
   * decodes back to the query's string form.
   */
  lemma NormalizeSearch(a: Action)
    requires a.name == Str(Search) && Truthy(Get(a.args, "query"))
    ensures a.args.Obj?
    ensures var q := ToJsString(Get(a.args, "query"));
      Normalize(a) == Normalized(Action(Str(OpenWebBrowser), Obj(a.args.fields["url" := Str(SearchUrl(Get(a.args, "query")))]))) &&
      var encoded := SearchUrl(Get(a.args, "query"))[|SearchUrlPrefix|..];
      UriEncoding.Decode(encoded) == Some(q) &&
      '&' !in encoded && '#' !in encoded && '=' !in encoded
  {
    var q := ToJsString(Get(a.args, "query"));
    var url := SearchUrl(Get(a.args, "query"));
    assert url[|SearchUrlPrefix|..] == UriEncoding.Encode(q);
    UriEncoding.DecodeEncode(q);
    UriEncoding.EncodeAlphabet(q);
  }

  /**
   * `open_web_browser` without a url gets `https://www.google.com` when its
   * arguments are an object, throws when they are `null` or `undefined`, and is
   * left as it is otherwise.
   */
  lemma NormalizeOpenWithoutUrl(a: Action)
    requires a.name == Str(OpenWebBrowser) && !Truthy(Get(a.args, "url"))
    ensures Nullish(a.args) ==> Normalize(a) == Threw(SetUrlError(a.args))
    ensures a.args.Obj? ==> Normalize(a) == Normalized(Action(a.name, Obj(a.args.fields["url" := Str(DefaultUrl)])))
    ensures !Nullish(a.args) && !a.args.Obj? ==> Normalize(a) == Normalized(a)
  {
  }

  /** Every other action, including `navigate` without a url and `search` without a query, is returned unchanged. */
  lemma NormalizeOther(a: Action)
    requires a.name != Str(OpenWebBrowser)
    requires a.name == Str(Navigate) ==> !Truthy(Get(a.args, "url"))
    requires a.name == Str(Search) ==> !Truthy(Get(a.args, "query"))
    ensures Normalize(a) == Normalized(a)
  {
  }

  /** `normalizeAction` throws exactly for `open_web_browser` with `null` or `undefined` arguments. */
  lemma NormalizeThrowsIff(a: Action)
    ensures Normalize(a).Threw? <==> a.name == Str(OpenWebBrowser) && Nullish(a.args)
    ensures Normalize(a).Threw? ==> Normalize(a).message == SetUrlError(a.args)
  {
  }

  /**
   * The only change to the caller's arguments is a write of `url`, made only on
   * an object; the name stays or becomes `open_web_browser`, and an
   * `open_web_browser` result always has a truthy url unless its arguments are
   * a non-object.
   */
  lemma NormalizeWritesOnlyUrl(a: Action)
    requires Normalize(a).Normalized?
    ensures var n := Normalize(a).action;
      (n.args == a.args || (a.args.Obj? && n.args == Obj(a.args.fields["url" := Get(n.args, "url")]))) &&
      (n.name == a.name || n.name == Str(OpenWebBrowser)) &&
      (n.name == Str(OpenWebBrowser) && n.args.Obj? ==> Truthy(Get(n.args, "url")))
  {
  }

  /** Normalising a normalised action changes nothing. */
  lemma NormalizeIdempotent(a: Action)
    requires Normalize(a).Normalized?
    ensures Normalize(Normalize(a).action) == Normalize(a)
  {
    var n := Normalize(a).action;
    NormalizeWritesOnlyUrl(a);
    if n.name != Str(OpenWebBrowser) {
      assert n == a;
      NormalizeOther(n);
    }
  }

  /** The action message sent to the content script; it carries the normalised name and arguments. */
  function ActionMessage(a: Action): Json {
    Object2("type", Str("EXEC_ACTION"), "action", Object2("action", a.name, "args", a.args))
  }

  /** What `execute` did outside the worker: nothing, a navigation of the tab, or a message to it. */
  datatype Effect =
    | NoEffect
    | NavigateTab(tabId: Option<int>, url: Json)
    | SendToTab(tabId: Option<int>, message: Json)

  /**
   * `execute`'s outcome: its result, the caller's arguments after normalisation
   * wrote into them, its effect, and the waits it made.
   */
  datatype Execution = Execution(result: Json, args: Json, effect: Effect, sleeps: seq<nat>)

  /**
   * `ActionExecutor.execute`. A navigation is reported as a success with its
   * url whatever `navError` the tab update reported; any other action goes to
   * the content script, and a thrown normalisation becomes `{success:false, error}`.
   */
  function Execute(tab: Tab, a: Action, navError: Option<string>, send: SendOutcome): (x: Execution)
    ensures Truthy(x.result)
  {
    match Normalize(a)
    case Threw(m) => Execution(Object2("success", Bool(false), "error", Str(m)), a.args, NoEffect, [])
    case Normalized(n) =>
      var url := Get(n.args, "url");
      if n.name == Str(OpenWebBrowser) && Truthy(url) then
        Execution(Object2("success", Bool(true), "url", url), n.args, NavigateTab(tab.id, url), [NavigationWaitMs])
      else
        SendMessageResultShape(send);
        Execution(SendMessageResult(send), n.args, SendToTab(tab.id, ActionMessage(n)), [PreSendWaitMs])
  }

  /**
   * A navigation succeeds with the url it navigated to, for every report of the
   * tab update, and waits 2000 ms.
   */
  lemma ExecuteNavigation(tab: Tab, a: Action, navError: Option<string>, send: SendOutcome)
    requires Normalize(a).Normalized?
    requires var n := Normalize(a).action; n.name == Str(OpenWebBrowser) && Truthy(Get(n.args, "url"))
    ensures var x := Execute(tab, a, navError, send);
      var url := Get(Normalize(a).action.args, "url");
      Get(x.result, "success") == Bool(true) && Get(x.result, "url") == url &&
      x.effect == NavigateTab(tab.id, url) && x.sleeps == [NavigationWaitMs] &&
      forall other :: Execute(tab, a, other, send) == x
  {
  }

  /**
   * Any other normalised action is messaged to the tab after 100 ms, and its
   * result is `sendMessage`'s: a failure carrying the send error or `No
   * response`, or the reply itself.
   */
  lemma ExecuteSend(tab: Tab, a: Action, navError: Option<string>, send: SendOutcome)
    requires Normalize(a).Normalized?
    requires var n := Normalize(a).action; !(n.name == Str(OpenWebBrowser) && Truthy(Get(n.args, "url")))
    ensures var x := Execute(tab, a, navError, send);
      x.effect == SendToTab(tab.id, ActionMessage(Normalize(a).action)) && x.sleeps == [PreSendWaitMs] &&
      (send.SendFailed? ==> Get(x.result, "success") == Bool(false) && Get(x.result, "error") == Str(send.lastError)) &&
      (send.Replied? && Truthy(send.response) ==> x.result == send.response) &&
      (send.Replied? && !Truthy(send.response) ==> Get(x.result, "error") == Str("No response"))
  {
    SendMessageResultShape(send);
  }

  /**
   * A throwing normalisation is caught: the result is a failure with the
   * TypeError's message, nothing is sent and nothing waits. It happens only for
   * nullish arguments, so never for the truthy arguments a decision carries.
   */
  lemma ExecuteCatches(tab: Tab, a: Action, navError: Option<string>, send: SendOutcome)
    ensures var x := Execute(tab, a, navError, send);
      (a.name == Str(OpenWebBrowser) && Nullish(a.args)) <==> x.effect.NoEffect?
    ensures var x := Execute(tab, a, navError, send);
      x.effect.NoEffect? ==>
        x.result == Object2("success", Bool(false), "error", Str(SetUrlError(a.args))) && x.sleeps == [] && x.args == a.args
  {
    NormalizeThrowsIff(a);
  }

  /** The value `buildFunctionResponse` reads as `result.success ? … : …`. */
  function ResultText(result: Json): Json {
    if Truthy(Get(result, "success")) then Str(SuccessText) else Or(Get(result, "error"), Str(UnknownErrorText))
  }

  /**
   * `buildFunctionResponse(action, result, currentUrl)`: a user turn with one
   * function-response part named by the decision's action name. `result` must
   * not be `null` or `undefined`, since its properties are read.
   */
  function BuildFunctionResponse(name: Json, result: Json, currentUrl: Option<string>): (t: Turn)
    requires !Nullish(result)
    ensures t.FunctionResponseTurn? && t.name == name && t.url == currentUrl
  {
    FunctionResponseTurn(name, ResultText(result), Get(result, "success") != Bool(false), currentUrl)
  }

  /**
   * The turn is sent as one `role: 'user'` entry with exactly one
   * `functionResponse` part. Its text is the success text when `success` is
   * truthy and `error || 'Unknown error'` otherwise, and its `success` flag is
   * false only for a literal `false`.
   */
  lemma FunctionResponseShape(name: Json, result: Json, currentUrl: Option<string>)
    requires !Nullish(result)
    ensures var j := TurnJson(BuildFunctionResponse(name, result, currentUrl));
      var parts := Get(j, "parts");
      var response := Get(Get(Index0(parts), "functionResponse"), "response");
      Get(j, "role") == Str("user") && parts.Arr? && |parts.items| == 1 &&
      Get(Get(Index0(parts), "functionResponse"), "name") == name &&
      (Truthy(Get(result, "success")) ==> Get(response, "result") == Str(SuccessText)) &&
      (!Truthy(Get(result, "success")) ==>
        Get(response, "result") == (if Truthy(Get(result, "error")) then Get(result, "error") else Str(UnknownErrorText))) &&
      (Get(response, "success") == Bool(false) <==> Get(result, "success") == Bool(false)) &&
      Get(response, "url") == UrlJson(currentUrl)
  {
  }

  /**
   * A result without `success` and with no truthy `error` is reported as a
   * success flag of `true` next to the text `Unknown error`.
   */
  lemma MissingSuccessQuirk(name: Json, result: Json, currentUrl: Option<string>)
    requires !Nullish(result)
    requires Get(result, "success") == Undefined && !Truthy(Get(result, "error"))
    ensures var t := BuildFunctionResponse(name, result, currentUrl);
      t.success && t.result == Str(UnknownErrorText)
  {
  }
}
