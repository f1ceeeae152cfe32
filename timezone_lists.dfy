/** What the timezone pickers and the site lists show: which timezones match a
    search, in which order favourites and the other timezones appear, which
    storage keys are listed as configured sites, how a `Region/City` name is
    split into a row's title and subtitle, and which default timezone the
    options page settles on. The list of supported timezones
    (`Intl.supportedValuesOf('timeZone')`) is a parameter. */
module TimezoneLists {
  import opened Sequences
  import opened Text
  import opened Segments

  /** The search rule: the normalised name contains the normalised filter.
      `slashToo` selects the newer rule that also maps `/` to a space. */
  predicate Matches(tz: string, filter: string, slashToo: bool) {
    Contains(Normalize(tz, slashToo), Normalize(filter, slashToo))
  }

  /** `allTimezones.filter(tz => ...includes(filter))`. */
  function MatchingTimezones(all: seq<string>, filter: string, slashToo: bool): (r: seq<string>)
    ensures forall x :: x in r <==> x in all && Matches(x, filter, slashToo)
    ensures forall x :: multiset(r)[x] == if Matches(x, filter, slashToo) then multiset(all)[x] else 0
    ensures SubsequenceOf(r, all)
  {
    if all == [] then []
    else
      var rest := MatchingTimezones(all[1..], filter, slashToo);
      assert all == [all[0]] + all[1..];
      if Matches(all[0], filter, slashToo) then [all[0]] + rest else rest
  }

  /** `s.filter(x => other.includes(x))`. */
  function Kept(s: seq<string>, other: seq<string>): (r: seq<string>)
    ensures forall x :: x in r <==> x in s && x in other
    ensures forall x :: multiset(r)[x] == if x in other then multiset(s)[x] else 0
    ensures SubsequenceOf(r, s)
  {
    if s == [] then []
    else
      var rest := Kept(s[1..], other);
      assert s == [s[0]] + s[1..];
      if s[0] in other then [s[0]] + rest else rest
  }

  /** `s.filter(x => !other.includes(x))`. */
  function Dropped(s: seq<string>, other: seq<string>): (r: seq<string>)
    ensures forall x :: x in r <==> x in s && x !in other
    ensures forall x :: multiset(r)[x] == if x !in other then multiset(s)[x] else 0
    ensures SubsequenceOf(r, s)
  {
    if s == [] then []
    else
      var rest := Dropped(s[1..], other);
      assert s == [s[0]] + s[1..];
      if s[0] !in other then [s[0]] + rest else rest
  }

  /** Splitting a list by membership in `other` loses and invents nothing. */
  lemma {:induction false} KeptDroppedPartition(s: seq<string>, other: seq<string>)
    ensures multiset(Kept(s, other)) + multiset(Dropped(s, other)) == multiset(s)
  {
    if s != [] {
      var k, d := Kept(s[1..], other), Dropped(s[1..], other);
      KeptDroppedPartition(s[1..], other);
      assert s == [s[0]] + s[1..];
      if s[0] in other {
        assert Kept(s, other) == [s[0]] + k && Dropped(s, other) == d;
      } else {
        assert Kept(s, other) == k && Dropped(s, other) == [s[0]] + d;
      }
    }
  }

  /** With an empty search every timezone is listed, in its original order. */
  lemma {:induction false} EmptyFilterMatchesAll(all: seq<string>, slashToo: bool)
    ensures MatchingTimezones(all, "", slashToo) == all
  {
    if all != [] {
      assert Normalize("", slashToo) == "";
      ContainsEmpty(Normalize(all[0], slashToo));
      EmptyFilterMatchesAll(all[1..], slashToo);
      assert all == [all[0]] + all[1..];
    }
  }

  // ---- Favourites first, the rest in source order (common.js, popup.js) ----

  /** The dropdown of common.js and popup.js: matching favourites in
      favourites order, then the other matches in the order of `all`. */
  function FavoritesFirst(all: seq<string>, favorites: seq<string>, filter: string): (r: seq<string>)
    ensures forall x :: x in r <==> x in all && Matches(x, filter, false)
  {
    var filtered := MatchingTimezones(all, filter, false);
    Kept(favorites, filtered) + Dropped(filtered, favorites)
  }

  /** The list is a favourites section, taken in favourites order, followed by
      a section without favourites, taken in the order of `all`. */
  lemma FavoritesFirstSections(all: seq<string>, favorites: seq<string>, filter: string)
    ensures var r := FavoritesFirst(all, favorites, filter);
      exists k :: 0 <= k <= |r|
        && (forall i :: 0 <= i < k ==> r[i] in favorites)
        && (forall i :: k <= i < |r| ==> r[i] !in favorites)
        && SubsequenceOf(r[..k], favorites)
        && SubsequenceOf(r[k..], all)
  {
    var filtered := MatchingTimezones(all, filter, false);
    var favs := Kept(favorites, filtered);
    var rest := Dropped(filtered, favorites);
    var r := favs + rest;
    assert r == FavoritesFirst(all, favorites, filter);
    assert forall x :: x in favs ==> x in favorites;
    assert forall x :: x in rest ==> x !in favorites;
    SplitSections(favs, rest, favorites);
    SubsequenceTransitive(rest, filtered, all);
    assert SubsequenceOf(r[..|favs|], favorites) && SubsequenceOf(r[|favs|..], all);
  }

  /** A favourites-only list followed by a favourite-free list splits at the
      join into its two sections. */
  lemma SplitSections(favs: seq<string>, rest: seq<string>, favorites: seq<string>)
    requires forall x :: x in favs ==> x in favorites
    requires forall x :: x in rest ==> x !in favorites
    ensures var r := favs + rest;
      && r[..|favs|] == favs && r[|favs|..] == rest
      && (forall i :: 0 <= i < |favs| ==> r[i] in favorites)
      && (forall i :: |favs| <= i < |r| ==> r[i] !in favorites)
  {
    var r := favs + rest;
    assert r[..|favs|] == favs && r[|favs|..] == rest;
    forall i | |favs| <= i < |r| ensures r[i] !in favorites {
      assert r[i] == rest[i - |favs|];
    }
  }

  /** With duplicate-free lists, every matching timezone is listed exactly once. */
  lemma FavoritesFirstPermutation(all: seq<string>, favorites: seq<string>, filter: string)
    requires NoDups(all) && NoDups(favorites)
    ensures multiset(FavoritesFirst(all, favorites, filter)) == multiset(MatchingTimezones(all, filter, false))
  {
    SectionsPermutation(MatchingTimezones(all, filter, false), all, favorites);
  }

  /** The shared step of the permutation lemmas: the favourites taken in
      favourites order are the same elements as those taken in list order. */
  lemma SectionsPermutation(filtered: seq<string>, all: seq<string>, favorites: seq<string>)
    requires SubsequenceOf(filtered, all) && NoDups(all) && NoDups(favorites)
    ensures multiset(Kept(favorites, filtered)) + multiset(Dropped(filtered, favorites)) == multiset(filtered)
  {
    SubsequenceNoDups(filtered, all);
    SubsequenceNoDups(Kept(favorites, filtered), favorites);
    SubsequenceNoDups(Kept(filtered, favorites), filtered);
    SameElementsPermutation(Kept(favorites, filtered), Kept(filtered, favorites));
    KeptDroppedPartition(filtered, favorites);
  }

  // ---- Favourites first, the rest sorted (js/common.js) ----

  /** The list of js/common.js: matching favourites in favourites order, then
      the other matches sorted. */
  function FavoritesThenSorted(all: seq<string>, favorites: seq<string>, filter: string): (r: seq<string>)
    ensures forall x :: x in r <==> x in all && Matches(x, filter, true)
  {
    var filtered := MatchingTimezones(all, filter, true);
    var rest := Dropped(filtered, favorites);
    var sorted := SortBy(rest, CodeUnitOrder);
    assert forall x :: x in sorted <==> x in multiset(rest);
    Kept(favorites, filtered) + sorted
  }

  lemma FavoritesThenSortedSections(all: seq<string>, favorites: seq<string>, filter: string)
    ensures var r := FavoritesThenSorted(all, favorites, filter);
      exists k :: 0 <= k <= |r|
        && (forall i :: 0 <= i < k ==> r[i] in favorites)
        && (forall i :: k <= i < |r| ==> r[i] !in favorites)
        && SubsequenceOf(r[..k], favorites)
        && SortedBy(r[k..], CodeUnitOrder)
  {
    var filtered := MatchingTimezones(all, filter, true);
    var favs := Kept(favorites, filtered);
    var rest := Dropped(filtered, favorites);
    var sorted := SortBy(rest, CodeUnitOrder);
    var r := favs + sorted;
    assert r == FavoritesThenSorted(all, favorites, filter);
    assert forall x :: x in favs ==> x in favorites;
    assert forall x :: x in rest ==> x !in favorites;
    SameMembers(rest, sorted);
    SplitSections(favs, sorted, favorites);
    CodeUnitOrderIsTotalPreorder();
    var k := |favs|;
    assert SubsequenceOf(r[..k], favorites) && SortedBy(r[k..], CodeUnitOrder);
  }

  /** Lists with the same multiset have the same members. */
  lemma SameMembers(a: seq<string>, b: seq<string>)
    requires multiset(a) == multiset(b)
    ensures forall x :: x in b <==> x in a
  {
    forall x ensures x in b <==> x in a {
      assert x in b <==> x in multiset(b);
      assert x in a <==> x in multiset(a);
    }
  }

  lemma FavoritesThenSortedPermutation(all: seq<string>, favorites: seq<string>, filter: string)
    requires NoDups(all) && NoDups(favorites)
    ensures multiset(FavoritesThenSorted(all, favorites, filter)) == multiset(MatchingTimezones(all, filter, true))
  {
    SectionsPermutation(MatchingTimezones(all, filter, true), all, favorites);
  }

  // ---- One sort with favourites ranked first (options.js) ----

  /** The comparator of options.js as "may come before": a favourite before a
      non-favourite, otherwise the collation order `collate`, which stands for
      `a.localeCompare(b) <= 0`. */
  predicate FavoriteRank(favorites: seq<string>, collate: (string, string) -> bool, a: string, b: string) {
    (a in favorites && b !in favorites) || ((a in favorites <==> b in favorites) && collate(a, b))
  }

  function FavoriteRankOrder(favorites: seq<string>, collate: (string, string) -> bool): (string, string) -> bool {
    (a, b) => FavoriteRank(favorites, collate, a, b)
  }

  lemma FavoriteRankIsTotalPreorder(favorites: seq<string>, collate: (string, string) -> bool)
    requires TotalPreorder(collate)
    ensures TotalPreorder(FavoriteRankOrder(favorites, collate))
  {
    var le := FavoriteRankOrder(favorites, collate);
    forall a, b ensures le(a, b) || le(b, a) {
      assert collate(a, b) || collate(b, a);
    }
    forall a, b, c | le(a, b) && le(b, c)
      ensures le(a, c)
    {
      if (a in favorites <==> b in favorites) && (b in favorites <==> c in favorites) {
        assert collate(a, b) && collate(b, c);
      }
    }
  }

  /** The favourites list of options.js: the matching timezones sorted with
      favourites first. */
  function RankedTimezones(all: seq<string>, favorites: seq<string>, filter: string,
                           collate: (string, string) -> bool): (r: seq<string>)
    ensures multiset(r) == multiset(MatchingTimezones(all, filter, false))
  {
    SortBy(MatchingTimezones(all, filter, false), FavoriteRankOrder(favorites, collate))
  }

  /** Every favourite precedes every non-favourite, and within each group the
      collation order holds. */
  lemma RankedTimezonesOrder(all: seq<string>, favorites: seq<string>, filter: string,
                             collate: (string, string) -> bool)
    requires TotalPreorder(collate)
    ensures var r := RankedTimezones(all, favorites, filter, collate);
      forall i, j :: 0 <= i < j < |r| ==>
        && (r[j] in favorites ==> r[i] in favorites)
        && ((r[i] in favorites <==> r[j] in favorites) ==> collate(r[i], r[j]))
  {
    FavoriteRankIsTotalPreorder(favorites, collate);
    var r := RankedTimezones(all, favorites, filter, collate);
    forall i, j | 0 <= i < j < |r|
      ensures FavoriteRank(favorites, collate, r[i], r[j])
    {
      assert FavoriteRankOrder(favorites, collate)(r[i], r[j]);
    }
  }

  // ---- Configured sites ----

  /** `keys.filter(k => k.startsWith('http'))`. */
  function HttpKeys(keys: seq<string>): (r: seq<string>)
    ensures forall x :: x in r <==> x in keys && StartsWith(x, "http")
    ensures forall x :: multiset(r)[x] == if StartsWith(x, "http") then multiset(keys)[x] else 0
    ensures SubsequenceOf(r, keys)
  {
    if keys == [] then []
    else
      var rest := HttpKeys(keys[1..]);
      assert keys == [keys[0]] + keys[1..];
      if StartsWith(keys[0], "http") then [keys[0]] + rest else rest
  }

  /** `keys.filter(site => site.toLowerCase().includes(filter.toLowerCase()))`. */
  function KeysContaining(keys: seq<string>, filter: string): (r: seq<string>)
    ensures forall x :: x in r <==> x in keys && Contains(Lower(x), Lower(filter))
    ensures forall x :: multiset(r)[x] == if Contains(Lower(x), Lower(filter)) then multiset(keys)[x] else 0
    ensures SubsequenceOf(r, keys)
  {
    if keys == [] then []
    else
      var rest := KeysContaining(keys[1..], filter);
      assert keys == [keys[0]] + keys[1..];
      if Contains(Lower(keys[0]), Lower(filter)) then [keys[0]] + rest else rest
  }

  /** The site rows of common.js and options.js, in storage key order: the
      keys that start with `http` and contain the filter, ignoring case. */
  function SiteKeys(keys: seq<string>, filter: string): (r: seq<string>)
    ensures forall x :: x in r <==> x in keys && StartsWith(x, "http") && Contains(Lower(x), Lower(filter))
    ensures SubsequenceOf(r, keys)
  {
    var http := HttpKeys(keys);
    assert Lower("") == "";
    assert filter == "" ==> forall x :: Contains(Lower(x), Lower(filter)) by {
      forall x ensures Contains(Lower(x), "") { ContainsEmpty(Lower(x)); }
    }
    if filter == "" then http
    else
      SubsequenceTransitive(KeysContaining(http, filter), http, keys);
      KeysContaining(http, filter)
  }

  /** The site rows of js/common.js: the same selection, sorted, and without
      repeats when the storage keys have none. */
  function SortedSiteKeys(keys: seq<string>, filter: string): (r: seq<string>)
    ensures forall x :: x in r <==> x in keys && StartsWith(x, "http") && Contains(Lower(x), Lower(filter))
    ensures SortedBy(r, CodeUnitOrder)
    ensures NoDups(keys) ==> NoDups(r)
  {
    var http := HttpKeys(keys);
    var sorted := SortBy(http, CodeUnitOrder);
    CodeUnitOrderIsTotalPreorder();
    assert forall x :: x in sorted <==> x in multiset(http);
    assert NoDups(keys) ==> NoDups(sorted) by {
      if NoDups(keys) {
        SubsequenceNoDups(http, keys);
        PermutationNoDups(http, sorted);
      }
    }
    assert Lower("") == "";
    assert filter == "" ==> forall x :: Contains(Lower(x), Lower(filter)) by {
      forall x ensures Contains(Lower(x), "") { ContainsEmpty(Lower(x)); }
    }
    if filter == "" then sorted
    else
      var r := KeysContaining(sorted, filter);
      SubsequenceSorted(r, sorted, CodeUnitOrder);
      assert NoDups(sorted) ==> NoDups(r) by {
        if NoDups(sorted) { SubsequenceNoDups(r, sorted); }
      }
      r
  }

  // ---- Row label ----

  datatype Label = Label(title: string, subtitle: string)

  /** Title and subtitle of a timezone row: everything after the first `/` and
      the region before it, or the whole name and an empty subtitle when there
      is no `/`; underscores are shown as spaces. */
  function RowLabel(tz: string): (row: Label)
    ensures var i := IndexOf(tz, '/');
      if i == -1 then row == Label(SpaceUnderscores(tz), "")
      else row == Label(SpaceUnderscores(tz[i + 1..]), SpaceUnderscores(tz[..i]))
  {
    var parts := Split(tz, '/');
    var mainPart := if |parts| > 1 then Join(parts[1..], '/') else parts[0];
    var regionPart := if |parts| > 1 then parts[0] else "";
    var i := IndexOf(tz, '/');
    assert i != -1 ==> mainPart == tz[i + 1..] && regionPart == tz[..i] by {
      if i != -1 {
        SplitAtFirst(tz, '/', i);
        assert parts[1..] == Split(tz[i + 1..], '/');
        JoinSplit(tz[i + 1..], '/');
      }
    }
    Label(SpaceUnderscores(mainPart), SpaceUnderscores(regionPart))
  }

  // ---- Default timezone ----

  /** The default of options.js: the first truthy of the stored default, the
      detected timezone and `'UTC'`, replaced by `'UTC'` when unsupported. */
  function DefaultTimezone(stored: Option<string>, detected: Option<string>, all: seq<string>): (r: string)
    ensures r == "UTC" || r in all
    ensures Truthy(stored) ==> r == (if stored.value in all then stored.value else "UTC")
    ensures !Truthy(stored) && Truthy(detected) ==> r == (if detected.value in all then detected.value else "UTC")
    ensures !Truthy(stored) && !Truthy(detected) ==> r == "UTC"
  {
    var chosen := if Truthy(stored) then stored.value else if Truthy(detected) then detected.value else "UTC";
    if chosen !in all then "UTC" else chosen
  }
}
