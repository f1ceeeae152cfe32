/** The popup script (popup.js): the page-level variables its callbacks
    update, the dropdown it renders from them, and what its toggle and its
    save button ask of storage and of the background worker. */
module PopupPage {
  import opened Sequences
  import opened Text
  import opened TimezoneLists
  import opened Favorites
  import opened PageRules
  import Sessions

  class Popup {
    /** `Intl.supportedValuesOf('timeZone')`. */
    const timezones: seq<string>
    var selectedTimezone: string
    var favoriteTimezones: seq<string>
    var siteTimezone: Option<string>
    /** `enableToggle.checked`. */
    var toggleChecked: bool

    /** The selection is always a real timezone name, never empty. */
    predicate Valid()
      reads this
    {
      selectedTimezone != "" && "" !in timezones
    }

    /** The page-level `let` declarations. */
    constructor(timezones: seq<string>)
      requires "" !in timezones
      ensures Valid() && this.timezones == timezones
      ensures selectedTimezone == "UTC" && favoriteTimezones == [] && siteTimezone == None && !toggleChecked
    {
      this.timezones := timezones;
      selectedTimezone := "UTC";
      favoriteTimezones := [];
      siteTimezone := None;
      toggleChecked := false;
    }

    /** The rows of `renderDropdown(filter)`. */
    function Dropdown(filter: string): (rows: seq<string>)
      reads this
      ensures forall x :: x in rows <==> x in timezones && Matches(x, filter, false)
    {
      FavoritesFirst(timezones, favoriteTimezones, filter)
    }

    /** The load callbacks: the stored favourites (`|| []`), then the stored
        value of the page's origin. */
    method Load(storedFavorites: Option<seq<string>>, stored: Option<string>)
      requires Valid()
      modifies this
      ensures Valid()
      ensures favoriteTimezones == (if storedFavorites.Some? then storedFavorites.value else [])
      ensures var c := InitialChoice(stored);
        toggleChecked == c.enabled && selectedTimezone == c.selected && siteTimezone == c.site
    {
      favoriteTimezones := if storedFavorites.Some? then storedFavorites.value else [];
      if Truthy(stored) {
        toggleChecked := true;
        selectedTimezone := stored.value;
        siteTimezone := stored;
      } else {
        toggleChecked := false;
        selectedTimezone := "UTC";
        siteTimezone := None;
      }
    }

    /** A click on the label of a dropdown row, which shows one of the
        supported timezones. */
    method SelectTimezone(tz: string)
      requires Valid() && tz in timezones
      modifies this
      ensures Valid()
      ensures selectedTimezone == tz
      ensures favoriteTimezones == old(favoriteTimezones) && siteTimezone == old(siteTimezone)
      ensures toggleChecked == old(toggleChecked)
    {
      selectedTimezone := tz;
    }

    /** `toggleFavorite(tz)`; `saved` is the list written to storage. */
    method ToggleFavorite(tz: string) returns (saved: seq<string>)
      requires Valid()
      modifies this
      ensures Valid()
      ensures favoriteTimezones == ToggleAll(old(favoriteTimezones), tz) && saved == favoriteTimezones
      ensures selectedTimezone == old(selectedTimezone) && siteTimezone == old(siteTimezone)
      ensures toggleChecked == old(toggleChecked)
    {
      if tz in favoriteTimezones {
        favoriteTimezones := RemoveAll(favoriteTimezones, tz);
      } else {
        favoriteTimezones := favoriteTimezones + [tz];
      }
      saved := favoriteTimezones;
    }

    /** The toggle's `change` listener, once the browser has flipped
        `checked`: switching off forgets the site's timezone in storage and
        tells the background worker to disable, then reloads the tab. */
    method OnToggleChanged(checked: bool, url: string, tabId: int) returns (effects: seq<PageEffect>)
      requires Valid()
      modifies this
      ensures Valid()
      ensures toggleChecked == checked
      ensures !checked ==>
        (siteTimezone == None && effects == [StorageRemove(url), SendMessage(ApplyMessage(tabId, None)), ReloadTab(tabId)])
      ensures checked ==> siteTimezone == old(siteTimezone) && effects == []
      ensures selectedTimezone == old(selectedTimezone) && favoriteTimezones == old(favoriteTimezones)
    {
      toggleChecked := checked;
      effects := [];
      if !toggleChecked {
        effects := [StorageRemove(url), SendMessage(ApplyMessage(tabId, None)), ReloadTab(tabId)];
        siteTimezone := None;
      }
    }

    /** The save button: with the toggle on, store the selection for the
        origin, tell the background worker to apply it, reload the tab and
        close; with the toggle off, only close. */
    method Save(url: string, tabId: int) returns (effects: seq<PageEffect>)
      requires Valid()
      ensures toggleChecked ==> effects == [StorageSet(url, selectedTimezone),
                                            SendMessage(ApplyMessage(tabId, Some(selectedTimezone))),
                                            ReloadTab(tabId), CloseWindow]
      ensures !toggleChecked ==> effects == [CloseWindow]
      ensures forall e :: e in effects && e.SendMessage? ==> Truthy(e.message.timezone)
    {
      if toggleChecked {
        effects := [StorageSet(url, selectedTimezone),
                    SendMessage(ApplyMessage(tabId, Some(selectedTimezone))),
                    ReloadTab(tabId), CloseWindow];
      } else {
        effects := [CloseWindow];
      }
    }

    /** `renderCurrentTimezoneDisplay()`, given the stored default. */
    function CurrentDisplay(storedDefault: Option<string>): (shown: string)
      reads this
      ensures toggleChecked && Truthy(siteTimezone) ==> shown == siteTimezone.value
      ensures !(toggleChecked && Truthy(siteTimezone)) ==> shown == (if Truthy(storedDefault) then storedDefault.value else "UTC")
    {
      DisplayedTimezone(toggleChecked, siteTimezone, storedDefault)
    }
  }

  /** What the popup sends reaches the background worker as intended: the
      save button's message enables the selected timezone on the tab, and
      switching the toggle off disables the tab. */
  lemma PopupMessagesRoute(v: Sessions.Version, s: Sessions.State, tabId: int, selected: string)
    requires Sessions.Inv(s) && selected != ""
    ensures Sessions.Route(v, s, ApplyMessage(tabId, Some(selected)), None).state == Sessions.Enable(s, tabId, selected)
    ensures Sessions.Route(v, s, ApplyMessage(tabId, None), None).state == Sessions.Disable(s, tabId)
    ensures Sessions.Route(v, s, ApplyMessage(tabId, Some(selected)), None).response.value.success
    ensures Sessions.Route(v, s, ApplyMessage(tabId, None), None).response.value.success
  {
  }
}
