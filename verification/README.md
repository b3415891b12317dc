# Gemini browser agent: a Dafny model of its service worker

This project models the service worker of a Chrome extension (`background.js`)
that drives a browser tab with the Gemini Computer Use model. The worker
repeats one loop step at a time:

1. find the tab to act on;
2. check the stored run flag;
3. take a throttled screenshot;
4. send the conversation history to Gemini;
5. turn the reply into an action;
6. execute the action in the tab, or navigate the tab itself;
7. append a function-response turn to the history.

The loop stops when the model answers `done`, the tab disappears, a STOP
message sets the flag to `false`, or the step budget runs out.

The model follows the code's own structure.

- `js_values.dfy` (`JsValues`) holds JavaScript values as a `Json` datatype.
  It includes `undefined`, truthiness, `||`, property reads and string
  coercion.
- `sequences.dfy` (`Sequences`) holds the searches several parts share:
  `findIndex`, `find`, and `indexOf`/`lastIndexOf` of one character.
- `data_url.dfy` (`DataUrl`) covers `split(',')` on data URLs and
  `ScreenshotAPI.getSize`.
- `uri_encoding.dfy` (`UriEncoding`) holds `encodeURIComponent`, defined on
  UTF-8 bytes, and a `decodeURIComponent` to state its round trip.
- `tabs.dfy` (`Tabs`) covers `TabAPI.getNormalTab`, the re-query filters of
  the loop, and the result shaping of `TabAPI.sendMessage`.
- `capture_throttle.dfy` (`CaptureThrottle`) covers `ScreenshotAPI.capture`,
  the 2500 ms capture interval and the exponential quota backoff of
  `Agent.captureScreenshot`.
- `gemini_protocol.dfy` (`GeminiProtocol`) covers conversation turns,
  `buildUserPart`, `buildRequest` and `parseResponse`.
- `gemini_client.dfy` holds two modules.
  - `GeminiClient` models `GeminiClient.call`. It covers the key check and
    the in-place push onto the caller's history (a `History` class). It also
    covers the error paths and the write of normalised arguments back into
    the model turn that shares them.
  - `GeminiCallProperties` holds the properties of `call`.
- `executor.dfy` (`ActionExecutor`) covers `normalizeAction`, `execute` and
  `buildFunctionResponse`.
- `agent.dfy` (`AgentLoop`) holds the agent's storage keys (a `Store` class)
  and the `Agent` class.
  - The class has the throttle methods and the `run` loop, as imperative
    methods.
  - Each method is proved against a specification function: `StepSpec` for
    one iteration, `RunSpec` for the whole loop.
  - The module also has the START/STOP message handler.
- `agent_properties.dfy` (`AgentProperties`) holds what the loop promises,
  per iteration and over a whole run.

Everything the worker learns from outside is an input to the model:
`chrome.tabs.query`, `captureVisibleTab`, `chrome.storage.sync`, `fetch`,
`JSON.parse`, `chrome.tabs.update`, `chrome.tabs.sendMessage` and
`Date.now`. Iteration `n` of the loop reads all of them from `env(n)`, a
`StepEnv`. Sleeps are returned as lists of durations in milliseconds.

A few points where the code differs from a plain reading of its design. The
model follows the code in each case.

- The JSON fallback of `parseResponse` uses the greedy pattern
  `/\{[\s\S]*\}/`. It takes everything from the first `{` to the last `}`,
  not one balanced object (`GreedyMatchSpansTwoObjects`).
- On the JSON fallback path, `call` appends no model turn to the history. It
  appends only the user turn.
- `call` reads the API key first. Without a key it appends nothing. The
  screenshot is taken before `call`, so a step with no key still captures
  and still moves the throttle.
- The request's tool declares `environment: 'ENVIRONMENT_BROWSER'`.
- The 800 ms delay between steps comes before the tab lookup and the stop
  check, so it is slept even on an iteration that then stops.
- A navigation is reported as a success whatever `chrome.tabs.update`
  reported (`ExecuteNavigation`).
- `buildFunctionResponse` reports `success: true` next to the text
  `Unknown error` for a result with neither `success` nor `error`
  (`MissingSuccessQuirk`).
- After an action, the current url comes from the first tab that is not an
  extension page, even one without a url. In that case it falls back to the
  acting tab's url and skips a later normal tab (`UrlLessTabShadowsNormalTab`).
- `normalizeAction` copies the decision shallowly. Its writes of `args.url`
  therefore land in the arguments object of the model turn's function call,
  when `call` passed that object on (`fc.args` truthy). The next request
  sends the rewritten arguments. `GeminiClient.History.WriteArgs` and
  `WriteBackArgsEffect` model this.

## Model

| member | source | states |
|---|---|---|
| JsValues.NatToStringRoundTrip | background.js:320 | the decimal rendering of a status code reads back as that number |
| DataUrl.SplitJoin | background.js:188 | splitting on a separator loses nothing: joining the fields back gives the original text |
| DataUrl.PayloadAfterFirstComma | background.js:246 | `split(',')[1]` is `undefined` exactly when there is no comma; otherwise it is the comma-free text after the first comma, ending at the next comma or the end |
| DataUrl.GetSize | background.js:187-190 | the size is 0 for a missing URL or one without a comma, and otherwise the length of the payload after the first comma; it never exceeds the URL's length |
| UriEncoding.EncodeLength | background.js:388 | each character becomes itself or escapes of three characters each, so the encoding is at least as long as the text and empty only for the empty text |
| UriEncoding.DecodeEncode | background.js:388 | `decodeURIComponent(encodeURIComponent(s))` gives back `s` for every string |
| UriEncoding.EncodeAlphabet | background.js:388 | the encoding uses only unreserved characters and `%XX` escapes, and never `&`, `#`, `=`, `+` or a space |
| UriEncoding.EncodeUnreserved | background.js:388 | a string of unreserved characters is left exactly as it is |
| Tabs.GetNormalTab | background.js:91-108 | the tab returned is one of the queried tabs and has a non-empty url outside `chrome-extension://` |
| Tabs.GetNormalTabIsFirstNormal | background.js:91-108 | `getNormalTab` returns null exactly when no tab has a non-empty url outside `chrome-extension://`; otherwise it returns the first such tab |
| Tabs.CurrentUrl | background.js:592-596 | the current url is either the acting tab's url or the url of a re-queried normal tab |
| Tabs.CurrentUrlVersusNormalTab | background.js:592-596 | the current url agrees with `getNormalTab`'s choice when the first non-extension tab has a url; otherwise it is the acting tab's url |
| Tabs.UrlLessTabShadowsNormalTab | background.js:595-596 | for every re-query whose first tab outside `chrome-extension://` has a missing or empty url while a later tab is normal, `getNormalTab` finds a normal tab, yet the current url falls back to the acting tab's url |
| Tabs.SendMessageResult | background.js:148-156 | the result is always truthy; a truthy reply is passed on as it is, and anything else reports `success: false` |
| Tabs.SendMessageResultShape | background.js:148-156 | `sendMessage` always resolves to a truthy value: `{success:false, error}` with the send error's message, `{success:false, error:'No response'}` for a falsy reply, and a truthy reply unchanged |
| CaptureThrottle.Capture | background.js:195-224 | a non-empty data URL is the image; a failure whose message mentions `MAX_CAPTURE_VISIBLE_TAB_CALLS_PER_SECOND` is the quota error; everything else is null |
| CaptureThrottle.CaptureWait | background.js:472-477 | the wait is the least one after which 2500 ms have passed since the last capture, and 0 when they already have |
| CaptureThrottle.CaptureSpec | background.js:490-524 | a screenshot is returned only for a captured image, and is that image's data URL; the stored capture time either stays or becomes the recording time |
| CaptureThrottle.CaptureSleeps | background.js:493-497 | every capture first sleeps out what is left of the 2500 ms interval, when anything is, so that it starts exactly 2500 ms after the last one; the only other sleep is the quota backoff after it |
| CaptureThrottle.CaptureSuccess | background.js:500-510 | an image records the capture time and resets the multiplier to 1, also when it is dropped; it is returned exactly when its payload is at most 100000 characters |
| CaptureThrottle.CaptureQuota | background.js:511-519 | a quota error sleeps `1000 × multiplier` last, doubles the multiplier up to 16, records the time and returns no screenshot |
| CaptureThrottle.CaptureOtherFailure | background.js:521-522 | any other failure, and an empty capture, leave the stored time and the multiplier as they were and return no screenshot |
| CaptureThrottle.CaptureKeepsMultiplier | background.js:517 | every capture keeps the multiplier among 1, 2, 4, 8 and 16 |
| CaptureThrottle.CaptureSpacing | background.js:493-502 | when the capture is taken no earlier than the wait allows, a newly recorded capture lies at least 2500 ms after the previous one |
| CaptureThrottle.QuotaBackoffSchedule | background.js:512-517 | from multiplier 1, the Nth of consecutive quota errors backs off `1000 · min(2^(N−1), 16)` ms |
| CaptureThrottle.BackoffValues | background.js:517 | the backoff multipliers are 1, 2, 4, 8 and then 16 for good |
| GeminiProtocol.BuildUserPart | background.js:244-255 | the user turn carries the goal text, and an image only from a screenshot, never an empty one |
| GeminiProtocol.BuildUserPartImage | background.js:244-255 | the user turn carries the goal text, and carries an image exactly when the screenshot's payload after the first comma is non-empty; the image is that payload |
| GeminiProtocol.DecodeTurnJson | background.js:248-254 | a turn's JSON form reads back as that turn |
| GeminiProtocol.BuildRequest | background.js:257-264 | the request's `contents` is an array with one entry per turn of the history |
| GeminiProtocol.BuildRequestRoundTrip | background.js:257-264 | the request body carries every turn of the history in order and nothing else, and declares the browser environment |
| GeminiProtocol.CallsOf | background.js:272-274 | there is at most one call per part, and every call is truthy |
| GeminiProtocol.CallsOfFirst | background.js:272-278 | calls are found exactly when some part carries one, and the first call is the one carried by the first such part |
| GeminiProtocol.CallsOfInOrder | background.js:272-274 | every part that carries a call contributes its call, in the order of the parts |
| GeminiProtocol.GreedyBraceMatchSpec | background.js:283 | the pattern matches exactly when some `{` precedes some `}`, and the match runs from the first `{` to the last `}` |
| GeminiProtocol.GreedyMatchSpansTwoObjects | background.js:283 | for every text `a + b` with a `{` in `a` and a `}` in `b`, the match runs from the first `{` of `a` through the rest of `a` to the last `}` of `b`, so two separate objects are matched together as one span |
| GeminiProtocol.ParseResponse | background.js:266-294 | a function-call result holds at least one call |
| GeminiProtocol.ParseResponseChain | background.js:266-294 | a non-array or null-holding `parts` throws; otherwise calls win whenever any part has one, all of them in order; only then is the text's JSON match parsed, and when the match exists and parses, the action is exactly the parsed value |
| GeminiProtocol.EmptyResponseHasNoDecision | background.js:267-268 | a reply without candidates, content or parts gives no decision |
| GeminiClient.ApiErrorMessage | background.js:314-321 | the thrown message starts with `API error `, the status and a colon |
| GeminiClient.Interpret | background.js:323-357 | a model turn is appended only on the function-call path, and then it is a model turn; shared arguments come only with it; a result text comes only with `done` |
| GeminiClient.Respond | background.js:306-365 | a model turn is appended only for an OK reply; a result text comes only with `done` |
| GeminiClient.CallSpec | background.js:296-366 | a request is sent exactly when a key is present; the history only grows and keeps every earlier turn |
| GeminiClient.History.constructor | background.js:467 | the history starts empty |
| GeminiClient.History.Push | background.js:303 | a push appends exactly one turn and keeps the others |
| GeminiClient.History.WriteArgs | background.js:388 | a write into the shared arguments changes the history as `WriteBackArgs` says |
| GeminiClient.Call | background.js:296-366 | `call` returns the decision and request of its specification and leaves the caller's history array as that specification says |
| GeminiClient.WriteBackArgsEffect | background.js:338-340 | the write-back touches only the last turn; afterwards that turn's first call carries exactly the written arguments, and writing back the arguments it already had changes nothing |
| GeminiCallProperties.CallHistoryGrowth | background.js:298-305 | with a key, `call` appends the user turn, sends exactly the old history plus that turn, and appends at most one more turn; without a key it appends and sends nothing and ends with the key error |
| GeminiCallProperties.CallFunctionPath | background.js:329-343 | on the function path the decision is the first call's name and its `args`, or `{}` when those are falsy, and the history gains the user turn and one model turn with the candidate's parts |
| GeminiCallProperties.CallJsonPath | background.js:345-351 | on the JSON path the decision is the object's `action`, or `done` when that is falsy, with its `args`, or `{}`, and only the user turn is appended |
| GeminiCallProperties.CallFetchRejected | background.js:358-365 | a rejected fetch ends as `done` with `Error: <message>`, after the user turn was appended |
| GeminiCallProperties.CallHttpError | background.js:314-321 | a non-OK status ends as `done` with `Error: API error <status>: <detail>`; the detail is the body's truthy `error.message`, else the raw body |
| GeminiCallProperties.CallNoDecision | background.js:353-357 | a reply with no call and no usable JSON object ends as `done` with `No function calls found` |
| GeminiCallProperties.DecisionShape | background.js:336-350 | an action other than `done` always has truthy arguments; a result text comes only with `done`; shared arguments are those of the first call of the model turn appended last |
| ActionExecutor.NormalizeNavigate | background.js:381-383 | `navigate` with a url becomes `open_web_browser`, with the arguments untouched |
| ActionExecutor.NormalizeSearch | background.js:386-389 | `search` with a query becomes `open_web_browser`, and its arguments gain the Google search url; the encoded query decodes back to the query and holds no `&`, `#` or `=` |
| ActionExecutor.NormalizeOpenWithoutUrl | background.js:392-394 | `open_web_browser` without a url gets `https://www.google.com` on object arguments and throws on null or undefined ones |
| ActionExecutor.NormalizeOther | background.js:377-397 | every other action is returned unchanged |
| ActionExecutor.NormalizeThrowsIff | background.js:392-393 | normalisation throws exactly for `open_web_browser` with null or undefined arguments, with the TypeError's message |
| ActionExecutor.NormalizeWritesOnlyUrl | background.js:377-397 | the only change to the arguments is a write of `url`; the name stays or becomes `open_web_browser`, which then has a truthy url on object arguments |
| ActionExecutor.NormalizeIdempotent | background.js:377-397 | normalising a normalised action changes nothing |
| ActionExecutor.Execute | background.js:399-437 | `execute` always returns a truthy result |
| ActionExecutor.ExecuteNavigation | background.js:407-422 | a navigation navigates the tab, waits 2000 ms and reports success with its url, whatever the tab update reported |
| ActionExecutor.ExecuteSend | background.js:424-432 | any other action is sent to the tab as `EXEC_ACTION` after 100 ms, and its result is `sendMessage`'s |
| ActionExecutor.ExecuteCatches | background.js:433-436 | exactly a throwing normalisation has no effect; it then returns `{success:false, error}` with the TypeError's message and makes no wait |
| ActionExecutor.BuildFunctionResponse | background.js:439-455 | the turn is a function response named by the decision's action and carrying the current url |
| ActionExecutor.FunctionResponseShape | background.js:439-455 | the turn is sent as one user entry with one `functionResponse` part; its text is the success text or `error`, or `Unknown error` when that is falsy; its `success` is false only for a literal `false` |
| ActionExecutor.MissingSuccessQuirk | background.js:446-449 | every result whose `success` is missing and whose `error` is falsy is reported as a success with the text `Unknown error` |
| AgentLoop.Store.constructor | background.js:473 | an empty storage area reads `lastCaptureAt` as 0 and has neither a flag nor a result |
| AgentLoop.Agent.constructor | background.js:463-470 | a new agent keeps its goal, has `maxSteps` steps, or 10 when none are given, step 0, an empty history and multiplier 1 |
| AgentLoop.Agent.CaptureInterval | background.js:472-477 | the method computes the throttle's wait from the stored time |
| AgentLoop.Agent.RecordCapture | background.js:479-483 | the stored capture time becomes the current time, and nothing else in storage changes |
| AgentLoop.Agent.ShouldContinue | background.js:485-488 | only a stored `false` stops the agent |
| AgentLoop.Agent.CaptureScreenshot | background.js:490-524 | the stored time, the multiplier, the screenshot and the sleeps are those of the throttle's specification; the flag and the result are unchanged |
| AgentLoop.Agent.Proceed | background.js:568-604 | capture, call and action move the agent and storage exactly as `ProceedSpec` says |
| AgentLoop.Agent.Act | background.js:589-604 | executing a decision writes its arguments back and appends the function response, as `ActSpec` says |
| AgentLoop.Agent.Step | background.js:533-604 | one iteration advances the step by one and moves the agent and storage exactly as `StepSpec` says |
| AgentLoop.Agent.Run | background.js:526-610 | `run` returns `{steps}` equal to the final step; its trace, history, throttle, flag and stored result are those of `RunSpec` from step 0 with the flag set |
| AgentLoop.MaxSteps | background.js:465 | the step bound is never 0: it is the given value when that is non-zero, and 10 otherwise |
| AgentLoop.StoredResult | background.js:583 | the stored result is never empty: it is the decision's result when that is non-empty, and `success` otherwise |
| AgentLoop.ActSpec | background.js:589-604 | acting appends exactly one function response, named by the decision's action, and without shared arguments keeps every earlier turn |
| AgentLoop.ProceedSpec | background.js:568-604 | capture, call and action leave the step, the tab and the flag as they were |
| AgentLoop.RunFromSteps | background.js:532-606 | the loop from any state makes one record per iteration; with steps left it runs at least one and stops at the bound at the latest; at the bound it runs none |
| AgentLoop.RunSpec | background.js:526-610 | a run from step 0 ends at the step count equal to its number of records, between 1 and `maxSteps` when that is positive and none otherwise |
| AgentLoop.StepSpec | background.js:533 | every iteration advances the step count by one, and only an iteration with a tab executes an action |
| AgentLoop.HandleStop | background.js:631-638 | STOP stores `false` in the flag, leaves the other keys alone and replies `{stopped: true}` |
| AgentLoop.OnMessage | background.js:617-638 | a message without a truthy type is ignored; START creates a fresh agent for the message's goal, or `Unknown goal` when it is falsy, with 10 steps and replies `{started: true}`; STOP stores `false` |
| AgentProperties.StepEarlyExit | background.js:541-566 | an iteration ends with NoTab (step 1) or TabClosed (later) exactly when the tab is missing or has no id, and with a stop request exactly when the flag read is `false`; these exits change no history, throttle or result, and sleep only the step delay |
| AgentProperties.StepTab | background.js:541-558 | step 1 acts on the first normal tab; later steps keep the tab with the same id from that step's query |
| AgentProperties.ProceedEffects | background.js:569-575 | the throttle moves as the capture says; with a key the old history is kept, the user turn follows it, and the request is exactly that; without a key the step finishes with the key error |
| AgentProperties.StepProceeds | background.js:562-575 | an iteration past the checks always captures, also without a key, after its step delay |
| AgentProperties.ActKeepsPrefix | background.js:589-604 | acting changes at most the last turn it is given and appends the function response |
| AgentProperties.ProceedFinished | background.js:580-586 | `done` stores its result, or `success` when that is missing or empty, and never an empty text |
| AgentProperties.ProceedActed | background.js:589-604 | an executed action ends the history with a function response named by the action as `call` returned it, with the url after the action |
| AgentProperties.StepFinished | background.js:580-586 | a finished iteration stores its non-empty result and leaves the flag alone |
| AgentProperties.StepActed | background.js:589-604 | an executed action keeps the old history, adds at least two turns ending in its function response, and leaves the result and the flag alone |
| AgentProperties.StepKeepsMultiplier | background.js:517 | no iteration takes the multiplier outside 1, 2, 4, 8 and 16 |
| AgentProperties.StepResponses | background.js:599-604 | each executed action adds exactly one function response, named by the action; nothing else adds or removes one |
| AgentProperties.CallAddsNoResponse | background.js:302-334 | `call` never adds a function response to the history |
| AgentProperties.StepKeepsHistory | background.js:572-604 | no iteration drops or changes an earlier turn |
| AgentProperties.UnrollEffects | background.js:532-606 | one iteration of the loop: its record comes first, and the loop goes on exactly after an action; history, result, flag and multiplier change as the step lemmas say |
| AgentProperties.RunShape | background.js:532-533 | the loop runs no iteration at its bound; otherwise it ends within the bound, with iterations numbered consecutively |
| AgentProperties.RunActedPrefix | background.js:532-606 | every iteration but the last executed an action |
| AgentProperties.RunStopsShort | background.js:532-606 | the loop stops short of its bound only after an iteration that did not execute an action |
| AgentProperties.RunKeepsHistory | background.js:572-604 | the history keeps every turn it had |
| AgentProperties.RunResponses | background.js:599-604 | the history gains one function response per executed action, in order, named by the action |
| AgentProperties.RunLastResult | background.js:580-586 | the stored result changes only when the run ends on `done`, and then holds that non-empty result |
| AgentProperties.RunFlag | background.js:562-566 | from a flag that is not `false`, the run leaves it `false` exactly when it ended on a stop request |
| AgentProperties.RunKeepsMultiplier | background.js:517 | the multiplier stays among 1, 2, 4, 8 and 16 over the whole run |
| AgentProperties.RunOutline | background.js:526-610 | the loop returns between 1 and `maxSteps` steps (0 when `maxSteps` ≤ 0), with one record per step, numbered from 1; only the last iteration may end otherwise than with an action, and one must when the loop stops early; history, function responses, flag, result and multiplier are as the Run lemmas state |

## Left out

- Logging (`Logger`) and `StorageAPI.broadcast` of the request and the response are not modelled. They change nothing the loop reads.
- `lastModelResponse` and the other storage keys are not modelled.
- The `REQUEST_SAFETY_CONFIRMATION` relay (`background.js:640-656`) is not modelled. `OnMessage` only reports it as `SafetyRelayed`.
- `content.js`, `popup.js` and `sidepanel.js` are not part of this model. The content script's reply is an input.
- `chrome.scripting.executeScript`, the content-script injection before a send, is not modelled. Its outcome never reaches the result, and the 100 ms wait is kept.
- Concurrency is not modelled: overlapping runs started by two START messages, and the un-awaited promise of `run`.
- AgentLoop.StepEnv: a STOP is modelled only as arriving just before the flag check of an iteration. STOPs at other moments reach the same stored flag, but only the next check reads them.
- AgentLoop.Agent.Run: requires a fresh agent (step 0), which is how the message handler calls it.
- JSON numbers are integers in the model. Floats, NaN and the `0`/`-0` distinction are left out.
- `maxSteps` values that are not numbers are left out.
- The API key is a string or absent; a stored key that is not a string is not modelled.
- ActionExecutor.WithUrl: models a sloppy-mode write. A `url` written onto a non-object (a string, a number, or an array, all treated as primitives) is ignored. Arrays as arguments are not modelled as objects.
- ActionExecutor.Execute: a truthy url that is not a string (a number, an object) is reported as a successful navigation. In the code, `chrome.tabs.update` throws on such a url inside the promise executor, the promise rejects, and `execute` returns `{success:false, error}` with the thrown message; the model does not capture that error path.
- ActionExecutor.ActionMessage: the message carries the action's name and arguments. The copy of the decision that the code sends also holds its `conversationHistory` array, and that is left out.
- GeminiClient.Interpret: assumes `JSON.parse` of text that begins with `{` yields an object, as it does. A parse input returning some other value gives `done` here, where JavaScript would throw.
- UriEncoding.Encode: strings are sequences of Unicode scalar values, so the URIError of `encodeURIComponent` on a lone surrogate cannot arise.
- Timing is not modelled: the sleeps are returned as durations, and the clock is read at the two points the code reads it.
