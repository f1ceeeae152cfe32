/** Decisions the popup and options pages share: what a stored site value
    selects when the popup opens, which timezone the popup shows as current,
    and what the pages ask of storage, the background worker and the
    browser. */
module PageRules {
  import opened Text
  import Sessions

  /** What the popup selects on load: the stored site timezone with the toggle
      on when there is one, `'UTC'` with the toggle off otherwise. */
  datatype Choice = Choice(selected: string, enabled: bool, site: Option<string>)

  function InitialChoice(stored: Option<string>): (c: Choice)
    ensures c.enabled <==> Truthy(stored)
    ensures c.enabled ==> c.selected == stored.value && c.site == stored
    ensures !c.enabled ==> c.selected == "UTC" && c.site == None
    ensures c.selected != ""
  {
    if Truthy(stored) then Choice(stored.value, true, stored) else Choice("UTC", false, None)
  }

  /** The timezone the popup displays: the site's own only when the toggle is
      on and a site timezone is set, otherwise the stored default or
      `'UTC'`. */
  function DisplayedTimezone(checked: bool, site: Option<string>, storedDefault: Option<string>): (shown: string)
    ensures checked && Truthy(site) ==> shown == site.value
    ensures !(checked && Truthy(site)) && Truthy(storedDefault) ==> shown == storedDefault.value
    ensures !(checked && Truthy(site)) && !Truthy(storedDefault) ==> shown == "UTC"
    ensures shown != ""
  {
    if checked && Truthy(site) then site.value
    else if Truthy(storedDefault) then storedDefault.value
    else "UTC"
  }

  /** Right after loading, the popup displays the site's stored timezone if
      it has one, and the default otherwise. */
  lemma {:induction false} LoadThenDisplay(stored: Option<string>, storedDefault: Option<string>)
    ensures var c := InitialChoice(stored);
      DisplayedTimezone(c.enabled, c.site, storedDefault)
        == (if Truthy(stored) then stored.value else DisplayedTimezone(false, None, storedDefault))
  {
    var c := InitialChoice(stored);
    if Truthy(stored) {
      assert c.enabled && c.site == stored;
    } else {
      assert !c.enabled;
    }
  }

  /** What a page asks of the browser. */
  datatype PageEffect =
    | StorageSet(key: string, value: string)
    | StorageRemove(key: string)
    | SendMessage(message: Sessions.Message)
    | ReloadTab(tabId: int)
    | CloseWindow

  /** `{ type: 'applyTimezone', tabId, timezone }`. */
  function ApplyMessage(tabId: int, timezone: Option<string>): (m: Sessions.Message)
    ensures m.kind == "applyTimezone" && m.tabId == tabId && m.timezone == timezone
  {
    Sessions.Message("applyTimezone", tabId, timezone)
  }
}
