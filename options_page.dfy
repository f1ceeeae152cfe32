/** The options script (options.js): its page-level favourites and default
    timezone, and the lists it renders from them. */
module OptionsPage {
  import opened Sequences
  import opened Text
  import opened TimezoneLists
  import opened Favorites
  import opened PageRules

  class Options {
    /** `Intl.supportedValuesOf('timeZone')`. */
    const allTimezones: seq<string>
    var favoriteTimezones: seq<string>
    var selectedDefaultTimezone: string

    /** The page-level `let` declarations. */
    constructor(allTimezones: seq<string>)
      ensures this.allTimezones == allTimezones
      ensures favoriteTimezones == [] && selectedDefaultTimezone == "UTC"
    {
      this.allTimezones := allTimezones;
      favoriteTimezones := [];
      selectedDefaultTimezone := "UTC";
    }

    /** The favourites callback of `initialize()`: `result.favoriteTimezones || []`. */
    method LoadFavorites(stored: Option<seq<string>>)
      modifies this
      ensures favoriteTimezones == (if stored.Some? then stored.value else [])
      ensures selectedDefaultTimezone == old(selectedDefaultTimezone)
    {
      favoriteTimezones := if stored.Some? then stored.value else [];
    }

    /** `initializeDefaults()`, given the detected timezone and the stored
        default; the result is always `'UTC'` or a supported timezone. */
    method InitializeDefaults(detected: Option<string>, stored: Option<string>)
      modifies this
      ensures selectedDefaultTimezone == DefaultTimezone(stored, detected, allTimezones)
      ensures selectedDefaultTimezone == "UTC" || selectedDefaultTimezone in allTimezones
      ensures favoriteTimezones == old(favoriteTimezones)
    {
      selectedDefaultTimezone := if Truthy(stored) then stored.value else if Truthy(detected) then detected.value else "UTC";
      if selectedDefaultTimezone !in allTimezones {
        selectedDefaultTimezone := "UTC";
      }
    }

    /** The `change` listener of the default select; `saved` is the value
        written to storage. */
    method ChangeDefault(value: string) returns (saved: PageEffect)
      modifies this
      ensures selectedDefaultTimezone == value && saved == StorageSet("defaultTimezone", value)
      ensures favoriteTimezones == old(favoriteTimezones)
    {
      selectedDefaultTimezone := value;
      saved := StorageSet("defaultTimezone", selectedDefaultTimezone);
    }

    /** `toggleFavorite(tz)`; `saved` is the list written to storage. */
    method ToggleFavorite(tz: string) returns (saved: seq<string>)
      modifies this
      ensures favoriteTimezones == ToggleAll(old(favoriteTimezones), tz) && saved == favoriteTimezones
      ensures selectedDefaultTimezone == old(selectedDefaultTimezone)
    {
      if tz in favoriteTimezones {
        favoriteTimezones := RemoveAll(favoriteTimezones, tz);
      } else {
        favoriteTimezones := favoriteTimezones + [tz];
      }
      saved := favoriteTimezones;
    }

    /** The rows of `renderFavorites(filter)`; `collate(a, b)` stands for
        `a.localeCompare(b) <= 0`. */
    function FavoriteRows(filter: string, collate: (string, string) -> bool): (rows: seq<string>)
      reads this
      ensures multiset(rows) == multiset(MatchingTimezones(allTimezones, filter, false))
    {
      RankedTimezones(allTimezones, favoriteTimezones, filter, collate)
    }
  }

  /** After a favourite is added, its row (when it matches the search) sorts
      before every row that is not a favourite. */
  lemma {:induction false} AddedFavoriteRanksFirst(all: seq<string>, favorites: seq<string>, tz: string,
                                                   filter: string, collate: (string, string) -> bool)
    requires TotalPreorder(collate) && tz !in favorites
    ensures var favs := ToggleAll(favorites, tz);
      var rows := RankedTimezones(all, favs, filter, collate);
      forall i, j :: 0 <= i < j < |rows| && rows[j] == tz ==> rows[i] in favs
  {
    RankedTimezonesOrder(all, ToggleAll(favorites, tz), filter, collate);
  }
}
