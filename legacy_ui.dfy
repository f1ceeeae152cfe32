/** The shared page code of the older version (common.js): the favourites
    state object, the filtered timezone list, and the popup's load rule. */
module LegacyUi {
  import opened Sequences
  import opened Text
  import opened TimezoneLists
  import opened Favorites
  import opened PageRules

  class TimezoneState {
    /** `Intl.supportedValuesOf('timeZone')`. */
    const allTimezones: seq<string>
    var favoriteTimezones: seq<string>
    var selectedTimezone: string

    constructor(allTimezones: seq<string>)
      ensures this.allTimezones == allTimezones
      ensures favoriteTimezones == [] && selectedTimezone == "UTC"
    {
      this.allTimezones := allTimezones;
      favoriteTimezones := [];
      selectedTimezone := "UTC";
    }

    /** `loadFavorites()`: the stored array, or `[]` when there is none. */
    method LoadFavorites(stored: Option<seq<string>>)
      modifies this
      ensures favoriteTimezones == (if stored.Some? then stored.value else [])
      ensures selectedTimezone == old(selectedTimezone)
    {
      favoriteTimezones := if stored.Some? then stored.value else [];
    }

    /** `toggleFavorite(timezone)`: on a copy, `splice` the first occurrence
        or `push`, without sorting; `saved` is what is written to storage. */
    method ToggleFavorite(tz: string) returns (saved: seq<string>)
      modifies this
      ensures favoriteTimezones == ToggleFirst(old(favoriteTimezones), tz) && saved == favoriteTimezones
      ensures selectedTimezone == old(selectedTimezone)
    {
      var favorites := favoriteTimezones;
      var index := IndexOf(favorites, tz);
      if index >= 0 {
        favorites := RemoveAt(favorites, index);
      } else {
        favorites := favorites + [tz];
      }
      favoriteTimezones := favorites;
      saved := favorites;
    }

    method SetSelectedTimezone(tz: string)
      modifies this
      ensures selectedTimezone == tz && favoriteTimezones == old(favoriteTimezones)
    {
      selectedTimezone := tz;
    }
  }

  class TimezoneList {
    const state: TimezoneState
    var filter: string

    constructor(state: TimezoneState)
      ensures this.state == state && filter == ""
    {
      this.state := state;
      filter := "";
    }

    method SetFilter(filter: string)
      modifies this
      ensures this.filter == filter
    {
      this.filter := filter;
    }

    /** `getFilteredTimezones()`. */
    function FilteredTimezones(): (rows: seq<string>)
      reads this, state
      ensures forall x :: x in rows <==> x in state.allTimezones && Matches(x, filter, false)
    {
      FavoritesFirst(state.allTimezones, state.favoriteTimezones, filter)
    }
  }

  class PopupHandler {
    const state: TimezoneState
    /** `enableToggle.checked`. */
    var toggleChecked: bool

    constructor(allTimezones: seq<string>)
      ensures fresh(state) && state.allTimezones == allTimezones
      ensures state.favoriteTimezones == [] && state.selectedTimezone == "UTC" && !toggleChecked
    {
      state := new TimezoneState(allTimezones);
      toggleChecked := false;
    }

    /** `loadInitialData()`, given the stored favourites and the value stored
        under the tab's URL: a stored site timezone is selected with the
        toggle on, otherwise `'UTC'` with the toggle off. */
    method LoadInitialData(storedFavorites: Option<seq<string>>, stored: Option<string>)
      modifies this, state
      ensures state.favoriteTimezones == (if storedFavorites.Some? then storedFavorites.value else [])
      ensures var c := InitialChoice(stored);
        state.selectedTimezone == c.selected && toggleChecked == c.enabled
    {
      state.LoadFavorites(storedFavorites);
      if Truthy(stored) {
        state.SetSelectedTimezone(stored.value);
        toggleChecked := true;
      } else {
        state.SetSelectedTimezone("UTC");
        toggleChecked := false;
      }
    }
  }
}
