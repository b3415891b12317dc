/**
 * Tab selection and the shaping of content-script replies (`TabAPI`).
 * Tab queries are inputs: each is the list of tabs `chrome.tabs.query`
 * reported, in the order it reported them.
 */
module Tabs {
  import opened Wrappers
  import opened JsValues
  import opened Sequences

  /** The fields of a `chrome.tabs.Tab` the worker reads; `id` and `url` may be absent. */
  datatype Tab = Tab(id: Option<int>, windowId: int, url: Option<string>)

  const ExtensionScheme: string := "chrome-extension://"

  /** The filter of `getNormalTab`: a url is present, non-empty and not an extension page. */
  predicate IsNormal(t: Tab) {
    t.url.Some? && t.url.value != "" && !StartsWith(t.url.value, ExtensionScheme)
  }

  /** `!activeTab?.id`: a tab whose id is missing or 0 counts as no tab. */
  predicate HasId(t: Tab) {
    t.id.Some? && t.id.value != 0
  }

  /** `TabAPI.getNormalTab`: the first normal tab of the query result, `null` when there is none. */
  function GetNormalTab(tabs: seq<Tab>): (r: Option<Tab>)
    ensures r.Some? ==> r.value in tabs && IsNormal(r.value)
  {
    Find(tabs, IsNormal)
  }

  /**
   * The tab `getNormalTab` selects is normal and is the first normal tab, and
   * it returns `null` exactly when no tab is normal.
   */
  lemma GetNormalTabIsFirstNormal(tabs: seq<Tab>)
    ensures GetNormalTab(tabs).None? <==> forall i :: 0 <= i < |tabs| ==> !IsNormal(tabs[i])
    ensures GetNormalTab(tabs).Some? ==>
      var t := GetNormalTab(tabs).value;
      IsNormal(t) && t.url.Some? &&
      exists k :: 0 <= k < |tabs| && tabs[k] == t && forall j :: 0 <= j < k ==> !IsNormal(tabs[j])
  {
    var r := FirstIndex(tabs, IsNormal);
    if r.Some? {
      assert tabs[r.value] == GetNormalTab(tabs).value;
    }
  }

  /** The re-query at step 2 onward: `tabs.find(t => t.id === activeTab.id)`. */
  function FindById(tabs: seq<Tab>, id: Option<int>): Option<Tab> {
    Find(tabs, (t: Tab) => t.id == id)
  }

  /** The predicate of the re-query after an action: `!t.url?.startsWith('chrome-extension://')`. */
  predicate NotExtensionPage(t: Tab) {
    !(t.url.Some? && StartsWith(t.url.value, ExtensionScheme))
  }

  /**
   * `currentUrl`: the url of the first re-queried tab that is not an extension
   * page, falling back to the acting tab's url when that url is missing or empty.
   */
  function CurrentUrl(requery: seq<Tab>, tab: Tab): (r: Option<string>)
    ensures r == tab.url || exists t :: t in requery && IsNormal(t) && r == t.url
  {
    match Find(requery, NotExtensionPage)
    case Some(t) => if t.url.Some? && t.url.value != "" then t.url else tab.url
    case None => tab.url
  }

  /**
   * The two tab filters differ: the re-query keeps tabs without a url, so a
   * url-less tab ahead of a normal one makes `currentUrl` fall back to the
   * acting tab's url; when the first non-extension tab does have a url, the two
   * filters agree.
   */
  lemma CurrentUrlVersusNormalTab(requery: seq<Tab>, tab: Tab)
    ensures var f := Find(requery, NotExtensionPage);
      (f.Some? && f.value.url.Some? && f.value.url.value != "") ==>
        GetNormalTab(requery).Some? && CurrentUrl(requery, tab) == GetNormalTab(requery).value.url
    ensures var f := Find(requery, NotExtensionPage);
      !(f.Some? && f.value.url.Some? && f.value.url.value != "") ==> CurrentUrl(requery, tab) == tab.url
  {
    var f := FirstIndex(requery, NotExtensionPage);
    if f.Some? {
      var t := requery[f.value];
      if t.url.Some? && t.url.value != "" {
        assert IsNormal(t);
        var g := FirstIndex(requery, IsNormal);
        assert g.Some? by { assert IsNormal(requery[f.value]); }
        if g.value < f.value {
          assert NotExtensionPage(requery[g.value]);
        }
        assert g.value == f.value;
      }
    }
  }

  /**
   * The asymmetry at work: when the first re-queried tab that is not an
   * extension page has no url, `currentUrl` falls back to the acting tab's url
   * even though a later tab is normal and `getNormalTab` would pick one.
   */
  lemma UrlLessTabShadowsNormalTab(requery: seq<Tab>, tab: Tab, k: nat, j: nat)
    requires k < j < |requery|
    requires forall i :: 0 <= i < k ==> !NotExtensionPage(requery[i])
    requires requery[k].url.None? || requery[k].url == Some("")
    requires IsNormal(requery[j])
    ensures GetNormalTab(requery).Some? && IsNormal(GetNormalTab(requery).value)
    ensures CurrentUrl(requery, tab) == tab.url
  {
    assert NotExtensionPage(requery[k]);
  }

  /** What `chrome.tabs.sendMessage` delivered: a `lastError`, or a reply (`undefined` when none). */
  datatype SendOutcome = SendFailed(lastError: string) | Replied(response: Json)

  /**
   * `TabAPI.sendMessage`'s result: `{success:false, error}` on a send error,
   * the reply itself when it is truthy, `{success:false, error:'No response'}` otherwise.
   */
  function SendMessageResult(o: SendOutcome): (r: Json)
    ensures Truthy(r)
    ensures o.Replied? && Truthy(o.response) ==> r == o.response
    ensures !(o.Replied? && Truthy(o.response)) ==> Get(r, "success") == Bool(false)
  {
    match o
    case SendFailed(e) => Object2("success", Bool(false), "error", Str(e))
    case Replied(resp) => Or(resp, Object2("success", Bool(false), "error", Str("No response")))
  }

  /**
   * `sendMessage` always resolves to a truthy value; it reports failure
   * (`success: false`) for a send error and a missing reply, carries the
   * error text, and passes a truthy reply through unchanged.
   */
  lemma SendMessageResultShape(o: SendOutcome)
    ensures Truthy(SendMessageResult(o))
    ensures o.SendFailed? ==>
      Get(SendMessageResult(o), "success") == Bool(false) && Get(SendMessageResult(o), "error") == Str(o.lastError)
    ensures o.Replied? && !Truthy(o.response) ==>
      Get(SendMessageResult(o), "success") == Bool(false) && Get(SendMessageResult(o), "error") == Str("No response")
    ensures o.Replied? && Truthy(o.response) ==> SendMessageResult(o) == o.response
  {
  }
}
