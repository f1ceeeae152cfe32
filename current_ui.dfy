/** The shared page code of the current version (js/common.js): the
    favourites state object, the filtered timezone list, and the options
    page's site list. */
module CurrentUi {
  import opened Sequences
  import opened Text
  import opened TimezoneLists
  import opened Favorites

  class TimezoneState {
    /** `Intl.supportedValuesOf('timeZone')`. */
    const allTimezones: seq<string>
    var favoriteTimezones: seq<string>
    var selectedTimezone: Option<string>
    var timeFormat: string

    constructor(allTimezones: seq<string>)
      ensures this.allTimezones == allTimezones
      ensures favoriteTimezones == [] && selectedTimezone == None && timeFormat == "12"
    {
      this.allTimezones := allTimezones;
      favoriteTimezones := [];
      selectedTimezone := None;
      timeFormat := "12";
    }

    /** `loadSettings()`: `Storage.get(key, default)` yields the stored value
        when it is truthy (any array is) and the default otherwise. */
    method LoadSettings(storedFavorites: Option<seq<string>>, storedFormat: Option<string>)
      modifies this
      ensures favoriteTimezones == (if storedFavorites.Some? then storedFavorites.value else [])
      ensures timeFormat == (if Truthy(storedFormat) then storedFormat.value else "12")
      ensures selectedTimezone == old(selectedTimezone)
    {
      favoriteTimezones := if storedFavorites.Some? then storedFavorites.value else [];
      timeFormat := if Truthy(storedFormat) then storedFormat.value else "12";
    }

    /** `toggleFavorite(timezone)`: on a copy, `splice` the first occurrence
        or `push`, then store the sorted copy; `saved` is what is written to
        storage. */
    method ToggleFavorite(tz: string) returns (saved: seq<string>)
      modifies this
      ensures favoriteTimezones == ToggleSorted(old(favoriteTimezones), tz) && saved == favoriteTimezones
      ensures selectedTimezone == old(selectedTimezone) && timeFormat == old(timeFormat)
    {
      var favorites := favoriteTimezones;
      var index := IndexOf(favorites, tz);
      if index >= 0 {
        favorites := RemoveAt(favorites, index);
      } else {
        favorites := favorites + [tz];
      }
      favoriteTimezones := SortBy(favorites, CodeUnitOrder);
      saved := favoriteTimezones;
    }

    /** `setSelectedTimezone(tz)`: `None` stands for the `null` the pages
        pass when there is no tab or the override is switched off. */
    method SetSelectedTimezone(tz: Option<string>)
      modifies this
      ensures selectedTimezone == tz
      ensures favoriteTimezones == old(favoriteTimezones) && timeFormat == old(timeFormat)
    {
      selectedTimezone := tz;
    }
  }

  class TimezoneList {
    const state: TimezoneState
    var filter: string

    constructor(state: TimezoneState)
      ensures this.state == state && filter == ""
    {
      this.state := state;
      filter := "";
    }

    method SetFilter(filter: string)
      modifies this
      ensures this.filter == filter
    {
      this.filter := filter;
    }

    /** `getFilteredTimezones()`. */
    function FilteredTimezones(): (rows: seq<string>)
      reads this, state
      ensures forall x :: x in rows <==> x in state.allTimezones && Matches(x, filter, true)
    {
      FavoritesThenSorted(state.allTimezones, state.favoriteTimezones, filter)
    }
  }

  /** One key and value of the object `Storage.getAll()` yields. */
  datatype StorageEntry = StorageEntry(key: string, value: string)

  function Keys(entries: seq<StorageEntry>): (keys: seq<string>)
    ensures |keys| == |entries| && forall i :: 0 <= i < |entries| ==> keys[i] == entries[i].key
  {
    seq(|entries|, i requires 0 <= i < |entries| => entries[i].key)
  }

  /** The keys of all entries but the last, then the last key, which the
      others do not repeat when all keys are distinct. */
  lemma KeysLast(entries: seq<StorageEntry>)
    requires entries != []
    ensures var init := entries[..|entries| - 1];
      var key := entries[|entries| - 1].key;
      && Keys(entries) == Keys(init) + [key]
      && (NoDups(Keys(entries)) ==> NoDups(Keys(init)) && key !in Keys(init))
  {
    var init := entries[..|entries| - 1];
    assert Keys(entries) == Keys(init) + [entries[|entries| - 1].key];
    if NoDups(Keys(entries)) {
      assert forall i :: 0 <= i < |init| ==> Keys(init)[i] == Keys(entries)[i];
    }
  }

  /** The object `renderSites` builds: every entry whose key starts with
      `http`, later entries taking precedence. */
  function SitesOf(entries: seq<StorageEntry>): (sites: map<string, string>)
    ensures forall key :: key in sites <==> key in Keys(entries) && StartsWith(key, "http")
    ensures NoDups(Keys(entries)) ==>
      forall i :: 0 <= i < |entries| && StartsWith(entries[i].key, "http") ==> sites[entries[i].key] == entries[i].value
  {
    if entries == [] then map[]
    else
      var init := entries[..|entries| - 1];
      var e := entries[|entries| - 1];
      var m := SitesOf(init);
      KeysLast(entries);
      if StartsWith(e.key, "http") then m[e.key := e.value] else m
  }

  lemma {:induction false} HttpKeysSnoc(keys: seq<string>, key: string)
    ensures HttpKeys(keys + [key]) == HttpKeys(keys) + (if StartsWith(key, "http") then [key] else [])
  {
    if keys == [] {
      assert [key][1..] == [];
    } else {
      var t := keys + [key];
      var tail := if StartsWith(key, "http") then [key] else [];
      assert t[0] == keys[0] && t[1..] == keys[1..] + [key];
      HttpKeysSnoc(keys[1..], key);
      if StartsWith(keys[0], "http") {
        assert HttpKeys(t) == [keys[0]] + (HttpKeys(keys[1..]) + tail);
        assert HttpKeys(keys) == [keys[0]] + HttpKeys(keys[1..]);
        ConsAppend(keys[0], HttpKeys(keys[1..]), tail);
      } else {
        assert HttpKeys(t) == HttpKeys(keys[1..]) + tail;
        assert HttpKeys(keys) == HttpKeys(keys[1..]);
      }
    }
  }

  /** One round of the `forEach` in `renderSites`. */
  lemma {:induction false} RenderStep(entries: seq<StorageEntry>, i: int)
    requires 0 <= i < |entries|
    ensures var e := entries[i];
      && SitesOf(entries[..i + 1]) == (if StartsWith(e.key, "http") then SitesOf(entries[..i])[e.key := e.value] else SitesOf(entries[..i]))
      && HttpKeys(Keys(entries[..i + 1])) == HttpKeys(Keys(entries[..i])) + (if StartsWith(e.key, "http") then [e.key] else [])
  {
    var e := entries[i];
    assert entries[..i + 1][..i] == entries[..i];
    assert entries[..i + 1][i] == e;
    assert Keys(entries[..i + 1]) == Keys(entries[..i]) + [e.key];
    HttpKeysSnoc(Keys(entries[..i]), e.key);
  }

  class OptionsHandler {
    var sites: map<string, string>

    constructor()
      ensures sites == map[]
    {
      sites := map[];
    }

    /** `renderSites(filter)`, given the entries of the storage object, whose
        keys are distinct: fills `this.sites` with the `http` entries, then
        returns the rows it lists. */
    method RenderSites(entries: seq<StorageEntry>, filter: string) returns (siteKeys: seq<string>)
      requires NoDups(Keys(entries))
      modifies this
      ensures sites == SitesOf(entries)
      ensures siteKeys == SortedSiteKeys(Keys(entries), filter)
    {
      sites := map[];
      var order: seq<string> := [];
      var i := 0;
      while i < |entries|
        invariant 0 <= i <= |entries|
        invariant sites == SitesOf(entries[..i])
        invariant order == HttpKeys(Keys(entries[..i]))
      {
        var e := entries[i];
        RenderStep(entries, i);
        if StartsWith(e.key, "http") {
          sites := sites[e.key := e.value];
          order := order + [e.key];
        }
        i := i + 1;
      }
      assert entries[..i] == entries;
      siteKeys := SortBy(order, CodeUnitOrder);
      if filter != "" {
        siteKeys := KeysContaining(siteKeys, filter);
      }
    }
  }
}
