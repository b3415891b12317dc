/**
 * The screenshot throttle of `Agent.captureScreenshot`: a minimum interval
 * between captures, measured from the stored `lastCaptureAt`, and an
 * exponential backoff on Chrome's capture quota error. Clock readings and the
 * outcome of `chrome.tabs.captureVisibleTab` are inputs; sleeps are returned
 * as durations.
 */
module CaptureThrottle {
  import opened Wrappers
  import opened JsValues
  import DataUrl

  const MinCaptureIntervalMs: int := 2500
  const MaxScreenshotBytes: nat := 100000
  const QuotaBackoffMs: nat := 1000
  const MaxBackoffMultiplier: nat := 16
  const QuotaMarker: string := "MAX_CAPTURE_VISIBLE_TAB_CALLS_PER_SECOND"

  /** What `captureVisibleTab` produced: a data URL (possibly missing or empty), or a `lastError` message. */
  datatype CaptureOutcome = Delivered(dataUrl: Option<string>) | Failed(message: string)

  /** `ScreenshotAPI.capture`'s outcome: an image, `null`, or the rethrown `CAPTURE_QUOTA` error. */
  datatype Shot = Image(dataUrl: string) | NoImage | QuotaError

  predicate IsQuotaMessage(message: string) {
    Contains(message, QuotaMarker)
  }

  /**
   * `ScreenshotAPI.capture`: a non-empty data URL is the image, a failure
   * mentioning the per-second quota is the quota error, and everything else
   * is `null`.
   */
  function Capture(o: CaptureOutcome): (r: Shot)
    ensures r.Image? <==> o.Delivered? && o.dataUrl.Some? && o.dataUrl.value != ""
    ensures r.Image? ==> r.dataUrl == o.dataUrl.value
    ensures r.QuotaError? <==> o.Failed? && IsQuotaMessage(o.message)
  {
    match o
    case Delivered(url) => if url.Some? && url.value != "" then Image(url.value) else NoImage
    case Failed(m) => if IsQuotaMessage(m) then QuotaError else NoImage
  }

  /**
   * `getCaptureInterval`: the shortest wait after which 2500 ms have passed
   * since `lastCaptureAt`, and no wait when they already have.
   */
  function CaptureWait(lastCaptureAt: int, now: int): (wait: nat)
    ensures now + wait >= lastCaptureAt + MinCaptureIntervalMs
    ensures wait == 0 || now + wait == lastCaptureAt + MinCaptureIntervalMs
  {
    var w := MinCaptureIntervalMs - (now - lastCaptureAt);
    if w > 0 then w else 0
  }

  /** The throttle's state: the stored `lastCaptureAt` and the agent's `quotaBackoffMultiplier`. */
  datatype ThrottleState = ThrottleState(lastCaptureAt: int, multiplier: nat)

  /** One `captureScreenshot` call: the state after it, the screenshot it returns, and its sleeps. */
  datatype CaptureStep = CaptureStep(state: ThrottleState, screenshot: Option<string>, sleeps: seq<nat>)

  function Doubled(multiplier: nat): nat {
    if multiplier * 2 < MaxBackoffMultiplier then multiplier * 2 else MaxBackoffMultiplier
  }

  /**
   * `captureScreenshot`, with the interval computed at `checkedAt` and
   * `lastCaptureAt` written at `recordedAt`.
   */
  function CaptureSpec(s: ThrottleState, o: CaptureOutcome, checkedAt: int, recordedAt: int): (c: CaptureStep)
    ensures c.screenshot.Some? ==> Capture(o).Image? && c.screenshot == o.dataUrl
    ensures c.state.lastCaptureAt == s.lastCaptureAt || c.state.lastCaptureAt == recordedAt
  {
    var wait := CaptureWait(s.lastCaptureAt, checkedAt);
    var waited := if wait > 0 then [wait] else [];
    match Capture(o)
    case Image(url) =>
      var kept := if DataUrl.GetSize(Some(url)) > MaxScreenshotBytes then None else Some(url);
      CaptureStep(ThrottleState(recordedAt, 1), kept, waited)
    case NoImage => CaptureStep(s, None, waited)
    case QuotaError =>
      CaptureStep(ThrottleState(recordedAt, Doubled(s.multiplier)), None, waited + [QuotaBackoffMs * s.multiplier])
  }

  /**
   * A captured image records the capture time and resets the multiplier,
   * also when the image is then dropped for exceeding 100000 characters of
   * payload; only an image within the limit is returned.
   */
  lemma CaptureSuccess(s: ThrottleState, o: CaptureOutcome, checkedAt: int, recordedAt: int)
    requires Capture(o).Image?
    ensures var c := CaptureSpec(s, o, checkedAt, recordedAt);
      c.state == ThrottleState(recordedAt, 1) &&
      (c.screenshot.Some? <==> DataUrl.GetSize(o.dataUrl) <= MaxScreenshotBytes) &&
      (c.screenshot.Some? ==> c.screenshot == o.dataUrl)
  {
  }

  /**
   * A quota error sleeps `1000 × multiplier` after the interval wait, doubles
   * the multiplier up to 16, records the time and returns no screenshot.
   */
  lemma CaptureQuota(s: ThrottleState, o: CaptureOutcome, checkedAt: int, recordedAt: int)
    requires o.Failed? && IsQuotaMessage(o.message)
    ensures var c := CaptureSpec(s, o, checkedAt, recordedAt);
      c.screenshot.None? && |c.sleeps| >= 1 && c.sleeps[|c.sleeps| - 1] == QuotaBackoffMs * s.multiplier &&
      c.state.lastCaptureAt == recordedAt &&
      c.state.multiplier == (if 2 * s.multiplier <= MaxBackoffMultiplier then 2 * s.multiplier else MaxBackoffMultiplier)
  {
  }

  /** Any other failure, and an empty capture, leave both the stored time and the multiplier as they were. */
  lemma CaptureOtherFailure(s: ThrottleState, o: CaptureOutcome, checkedAt: int, recordedAt: int)
    requires Capture(o).NoImage?
    ensures var c := CaptureSpec(s, o, checkedAt, recordedAt);
      c.state == s && c.screenshot.None? && |c.sleeps| <= 1
  {
  }

  /**
   * Every capture first sleeps out the rest of the 2500 ms interval, when any
   * is left, and nothing else except the quota backoff after it.
   */
  lemma CaptureSleeps(s: ThrottleState, o: CaptureOutcome, checkedAt: int, recordedAt: int)
    ensures var c := CaptureSpec(s, o, checkedAt, recordedAt);
      var w := CaptureWait(s.lastCaptureAt, checkedAt);
      var waited := if w > 0 then [w] else [];
      (w > 0 ==> |c.sleeps| >= 1 && checkedAt + c.sleeps[0] == s.lastCaptureAt + MinCaptureIntervalMs) &&
      (w == 0 ==> checkedAt >= s.lastCaptureAt + MinCaptureIntervalMs) &&
      (Capture(o).QuotaError? ==> c.sleeps == waited + [QuotaBackoffMs * s.multiplier]) &&
      (!Capture(o).QuotaError? ==> c.sleeps == waited)
  {
  }

  /** The multiplier values the throttle can reach from its initial 1. */
  predicate ValidMultiplier(m: nat) {
    m == 1 || m == 2 || m == 4 || m == 8 || m == 16
  }

  /** Every capture keeps the multiplier within 1, 2, 4, 8 and 16. */
  lemma CaptureKeepsMultiplier(s: ThrottleState, o: CaptureOutcome, checkedAt: int, recordedAt: int)
    requires ValidMultiplier(s.multiplier)
    ensures ValidMultiplier(CaptureSpec(s, o, checkedAt, recordedAt).state.multiplier)
  {
  }

  /**
   * When the capture is attempted no earlier than the wait allows and the
   * time is recorded after it, a recorded capture lies at least 2500 ms after
   * the previous one.
   */
  lemma CaptureSpacing(s: ThrottleState, o: CaptureOutcome, checkedAt: int, recordedAt: int)
    requires recordedAt >= checkedAt + CaptureWait(s.lastCaptureAt, checkedAt)
    ensures var c := CaptureSpec(s, o, checkedAt, recordedAt);
      c.state.lastCaptureAt == s.lastCaptureAt || c.state.lastCaptureAt >= s.lastCaptureAt + MinCaptureIntervalMs
  {
  }

  /** One call of a series: its capture outcome and its two clock readings. */
  datatype CaptureCall = CaptureCall(outcome: CaptureOutcome, checkedAt: int, recordedAt: int)

  /** The steps of consecutive `captureScreenshot` calls on one agent. */
  function CaptureSeries(s: ThrottleState, calls: seq<CaptureCall>): (steps: seq<CaptureStep>)
    ensures |steps| == |calls|
    decreases |calls|
  {
    if calls == [] then []
    else
      var c := CaptureSpec(s, calls[0].outcome, calls[0].checkedAt, calls[0].recordedAt);
      [c] + CaptureSeries(c.state, calls[1..])
  }

  function Pow2(k: nat): nat {
    if k == 0 then 1 else 2 * Pow2(k - 1)
  }

  /** `min(2^k, 16)` */
  function CappedPow2(k: nat): nat {
    if Pow2(k) < MaxBackoffMultiplier then Pow2(k) else MaxBackoffMultiplier
  }

  predicate AllQuotaErrors(calls: seq<CaptureCall>) {
    forall i :: 0 <= i < |calls| ==> Capture(calls[i].outcome).QuotaError?
  }

  lemma DoubledCapped(k: nat)
    ensures Doubled(CappedPow2(k)) == CappedPow2(k + 1)
  {
    if Pow2(k) >= MaxBackoffMultiplier {
      assert Pow2(k + 1) >= MaxBackoffMultiplier;
    }
  }

  lemma {:induction false} QuotaBackoffFrom(s: ThrottleState, calls: seq<CaptureCall>, j: nat)
    requires s.multiplier == CappedPow2(j) && AllQuotaErrors(calls)
    ensures var steps := CaptureSeries(s, calls);
      forall i :: 0 <= i < |calls| ==>
        |steps[i].sleeps| >= 1 && steps[i].sleeps[|steps[i].sleeps| - 1] == QuotaBackoffMs * CappedPow2(j + i) &&
        steps[i].state.multiplier == CappedPow2(j + i + 1)
    decreases |calls|
  {
    if calls != [] {
      var c := CaptureSpec(s, calls[0].outcome, calls[0].checkedAt, calls[0].recordedAt);
      DoubledCapped(j);
      assert c.state.multiplier == CappedPow2(j + 1);
      assert AllQuotaErrors(calls[1..]) by {
        forall i | 0 <= i < |calls[1..]| ensures Capture(calls[1..][i].outcome).QuotaError? {
          assert calls[1..][i] == calls[i + 1];
        }
      }
      QuotaBackoffFrom(c.state, calls[1..], j + 1);
      var steps := CaptureSeries(s, calls);
      forall i | 0 <= i < |calls|
        ensures |steps[i].sleeps| >= 1 && steps[i].sleeps[|steps[i].sleeps| - 1] == QuotaBackoffMs * CappedPow2(j + i)
        ensures steps[i].state.multiplier == CappedPow2(j + i + 1)
      {
        if i > 0 {
          assert steps[i] == CaptureSeries(c.state, calls[1..])[i - 1];
          assert j + 1 + (i - 1) == j + i;
        }
      }
    }
  }

  /**
   * Starting from the multiplier 1 (a fresh agent, or one whose last capture
   * succeeded), the Nth of consecutive quota errors backs off
   * `1000 · min(2^(N−1), 16)` ms (below, N is `i + 1`).
   */
  lemma QuotaBackoffSchedule(s: ThrottleState, calls: seq<CaptureCall>)
    requires s.multiplier == 1 && AllQuotaErrors(calls)
    ensures var steps := CaptureSeries(s, calls);
      forall i :: 0 <= i < |calls| ==>
        |steps[i].sleeps| >= 1 && steps[i].sleeps[|steps[i].sleeps| - 1] == QuotaBackoffMs * CappedPow2(i)
  {
    assert CappedPow2(0) == 1;
    QuotaBackoffFrom(s, calls, 0);
  }

  /** The schedule's values: 1000, 2000, 4000, 8000, then 16000 ms from the fifth error on. */
  lemma BackoffValues(n: nat)
    ensures CappedPow2(0) == 1 && CappedPow2(1) == 2 && CappedPow2(2) == 4 && CappedPow2(3) == 8
    ensures n >= 4 ==> CappedPow2(n) == MaxBackoffMultiplier
    ensures ValidMultiplier(CappedPow2(n))
  {
    if n >= 4 {
      Pow2AtLeast16(n);
    }
  }

  lemma {:induction false} Pow2AtLeast16(n: nat)
    requires n >= 4
    ensures Pow2(n) >= 16
  {
    if n > 4 {
      Pow2AtLeast16(n - 1);
    } else {
      assert Pow2(4) == 16;
    }
  }
}
