# Timetwister in Dafny

Timetwister is a browser extension that overrides the timezone a page sees,
one site at a time. Its background service worker attaches the browser's
debugger to a tab and sends `Emulation.setTimezoneOverride`. It keeps one
map, `attachedTabs`, of the tabs it is attached to. The popup and options
pages keep a favourites list and a per-origin preference in synchronised
storage. They also order and filter the timezone lists they show.

The source holds two generations of each script:
- js/background.js and js/common.js are the current copies.
- background.js and common.js are the older copies.
- popup.js and options.js are the standalone page scripts.

This project models:

- **The session registry** (`Sessions`, `Background`, `SessionProperties`).
  - `Sessions` gives each handler and callback body as a pure transition over
    `State(attachedTabs, pending, trace)`.
  - Every host call (`debugger.attach`, `sendCommand`, `debugger.detach`,
    and the storage lookup made on navigation) is split into a request and
    a completion. The request appends the call to `trace` and its callback
    to `pending`. The completion takes any pending callback, in any order,
    with the host's verdict.
  - The toolbar indicator call (`updateTabState`, or `updateBadge` in the
    older copy) is an `Indicator` entry in `trace`. Only the older copy's
    badge shows the flag (a `'•'` when active).
  - `Background.TabSessions` is the mutable object: one method per handler
    and per callback, each proved to perform the transition of the same
    name. Its `version` field selects the current or the older copy.
  - `SessionProperties` proves what whole exchanges do. That includes the
    interleavings the source leaves open: it has no in-flight guard and no
    per-tab ordering.
- **The list and string logic of the pages** (`Text`, `Segments`,
  `Sequences`, `TimezoneLists`, `Favorites`, `PageRules`). This covers:
  - the search match;
  - the three favourite-toggle rules;
  - the three list orders (favourites first, then source order or sorted
    order, or one sort with favourites ranked first);
  - the configured-site keys;
  - the `Region/City` row label;
  - the default-timezone fallback;
  - the popup's load and display rules.
- **The page state objects** (`CurrentUi`, `LegacyUi`, `PopupPage`,
  `OptionsPage`). These are the classes and page-level variables the
  scripts update in place, with the effects they ask of storage, the
  background worker and the browser.

Parameters stand in for the world:
- `Intl.supportedValuesOf('timeZone')`, stored values and the storage
  object's entries are inputs.
- A host verdict is a `bool` (`false` when `chrome.runtime.lastError` is
  set).
- A synchronous throw is an `Option` or `bool` parameter, used only where
  the source catches it.
- `new URL(url).origin` is a given `Option<string>`: `None` when parsing
  throws.
- `localeCompare` is an abstract comparator `collate`, required to be a
  total preorder.

## Model

| member | source | states |
|---|---|---|
| Sessions.Init | js/background.js:2 | The empty registry satisfies the registry invariant and no tab is attached |
| Sessions.Enable | js/background.js:110-148 | A falsy tab changes nothing. An unattached tab gets exactly one attach request and no override. An attached tab gets exactly one override request and no attach. The registry itself is unchanged until a callback runs, and the invariant is kept. For background.js:24-61: the older copy issues the same requests as the current one. |
| Sessions.Disable | js/background.js:151-165 | A falsy or unattached tab leaves the state unchanged with no host call. Otherwise exactly one detach request is made and the map is untouched until it completes |
| Sessions.AttachResult | js/background.js:117-136 | A failed attach only consumes the callback: no entry and no override. A successful one sets the tab's entry to true, then issues the override flagged as following an attach |
| Sessions.CommandResult | js/background.js:127-147 | A failed override leaves the map and the indicator alone. A successful one in the current copy records the indicator as active. For background.js:41-59: in the older copy a successful override sets the indicator only when it followed a fresh attach, never on the update path. |
| Sessions.DetachResult | js/background.js:155-164 | A failed detach keeps the entry. A successful one removes exactly that tab's entry and records the indicator as inactive. For js/background.js:219-223: the detach callback of a tab close removes the entry whatever the outcome, without touching the indicator. |
| Sessions.TabUpdated | js/background.js:190-213 | Only a `loading` event with a truthy `http` URL whose origin parses issues a storage lookup for that origin. Every other event changes nothing |
| Sessions.LookupResult | js/background.js:194-208 | A storage error changes nothing. A truthy stored timezone behaves as enable. No preference behaves as disable, and only for an attached tab |
| Sessions.TabRemoved | js/background.js:216-229 | An unattached tab changes nothing. An attached tab's entry goes at once when detach throws; otherwise a detach is requested whose callback removes it |
| Sessions.ForcedDetach | js/background.js:232-238 | A real, attached tab loses its entry and its indicator is set inactive. Any other tab changes nothing, and pending callbacks are untouched |
| Sessions.Route | js/background.js:168-187 | `applyTimezone` with a truthy timezone is enable and otherwise disable, answered with success. If a host call is made (`CallsHost`: the calls inside the `try` of js/background.js:170-180) and throws synchronously, the state is unchanged and the answer is `success: false` with the error. `themeDetected` gets a success answer in the current copy. Other messages get none. For background.js:81-96: the older router handles only `applyTimezone`, with the same answers. |
| SessionProperties.EnableFreshTabSucceeds | js/background.js:117-135 | Attach then override, both succeeding: the tab is registered and the trace is the attach, the override, then the active indicator, in that order |
| SessionProperties.EnableFreshTabAttachFails | js/background.js:117-122 | A failed attach leaves no entry and no override; all that remains is the attach request. The same holds for the older copy (background.js:31-36). |
| SessionProperties.EnableFreshTabOverrideFails | js/background.js:123-131 | A failed override after a successful attach leaves the tab attached, with no indicator |
| SessionProperties.UpdateAttachedTab | js/background.js:137-147 | For an attached tab: exactly one override and no attach. On success the current copy sets the active indicator. For background.js:51-60: on the older copy's update path the indicator is never touched. |
| SessionProperties.DisableCompletes | js/background.js:151-165 | A completed disable keeps the entry exactly when the detach failed, never touches other tabs, and records an inactive indicator only on success. The same holds for the older copy (background.js:64-78). |
| SessionProperties.EnableSucceeding | js/background.js:110-136 | A fully successful enable of an unattached tab adds exactly that tab to the map and leaves the pending callbacks as they were |
| SessionProperties.AttachSucceeding | js/background.js:114-126 | A fresh attach that succeeds registers exactly that tab, issues the attach and then the override, and leaves that override as the one callback still pending beyond those before |
| SessionProperties.DisableSucceeding | js/background.js:151-165 | A fully successful disable of an attached tab removes exactly that tab and leaves the pending callbacks as they were |
| SessionProperties.DisableUndoesEnable | js/background.js:110-165 | A successful enable followed by a successful disable restores the map and the pending callbacks |
| SessionProperties.DoubleEnableAttachesTwice | js/background.js:111-117 | With no in-flight guard, a second enable before the first attach completes issues a second attach |
| SessionProperties.OverrideAfterDetachLeavesStaleIndicator | js/background.js:137-164 | An override issued while a detach is pending can complete after it, when the host accepts it. The tab ends detached, and the last indicator call made for it says active. In the current copy that call does not change what the user sees |
| SessionProperties.StaleBadgeAfterFreshAttach | background.js:31-77 | A fresh attach succeeds and a disable then detaches the tab before the attach's override completes. When the override succeeds, the tab ends detached with the active indicator set last, for either copy. In the older copy that is a visible `'•'` badge on a tab with no override |
| SessionProperties.ClosedTabReattaches | js/background.js:216-217 | A tab closed while its attach is pending is not in the map, so the close does nothing; an attach that then succeeds registers the closed tab (js/background.js:123) |
| SessionProperties.NavigationWithPreference | js/background.js:190-201 | Navigation to an `http` page whose origin has a stored timezone ends exactly like a direct enable, after the lookup. The same holds for the older copy (background.js:99-110). |
| SessionProperties.NavigationWithoutPreference | js/background.js:194-207 | Without a preference, an attached tab is disabled and any other tab changes only by the lookup. A failed lookup changes nothing. The same holds for the older copy (background.js:103-116). |
| SessionProperties.CloseRemovesEntry | js/background.js:216-229 | Closing an attached tab removes its entry whether the detach succeeds, fails or throws, and leaves every other tab's entry as it was. The same holds for the older copy (background.js:125-138). |
| SessionProperties.RouterAlwaysAnswers | js/background.js:169-180 | `applyTimezone` is always answered, with `success: false` exactly when a host call was made and threw. The same holds for the older copy (background.js:82-93). |
| Background.TabSessions.constructor | js/background.js:2 | The worker starts with an empty map, nothing pending and the registry invariant |
| Background.TabSessions.EnableOrUpdateTimezone | js/background.js:110-148 | Performs `Sessions.Enable` on the object's state and keeps the invariant |
| Background.TabSessions.DisableTimezone | js/background.js:151-165 | Performs `Sessions.Disable` on the object's state and keeps the invariant |
| Background.TabSessions.OnAttachResult | js/background.js:117-136 | Performs `Sessions.AttachResult` and keeps the invariant |
| Background.TabSessions.OnCommandResult | js/background.js:127-147 | Performs `Sessions.CommandResult` for the object's version and keeps the invariant. For background.js:41-59: for the older version, only an override that followed an attach sets the indicator. |
| Background.TabSessions.OnDetachResult | js/background.js:155-164 | Performs `Sessions.DetachResult` and keeps the invariant |
| Background.TabSessions.OnUpdated | js/background.js:190-213 | Performs `Sessions.TabUpdated` and keeps the invariant |
| Background.TabSessions.OnStorageResult | js/background.js:194-208 | Performs `Sessions.LookupResult` and keeps the invariant |
| Background.TabSessions.OnRemoved | js/background.js:216-229 | Performs `Sessions.TabRemoved` and keeps the invariant |
| Background.TabSessions.OnDetach | js/background.js:232-238 | Performs `Sessions.ForcedDetach` and keeps the invariant |
| Background.TabSessions.OnMessage | js/background.js:168-187 | Its new state and its answer are those of `Sessions.Route`, and the invariant is kept |
| Text.CodeUnitOrderIsTotalPreorder | js/common.js:282 | The default `sort()` order is total and transitive, so the sorted lists are well defined |
| Segments.Split | js/common.js:188 | `split('/')` always yields at least one part |
| Segments.JoinSplit | js/common.js:188-189 | Joining the parts of a split with the same separator gives the string back |
| TimezoneLists.MatchingTimezones | js/common.js:276-279 | Keeps exactly the names that satisfy `Matches`: the lowercased form, with `/` and `_` as spaces, contains the filter normalised the same way. Each kept name appears as often as in the input, in the original order. For common.js:262-265: the older rule maps only `_` to a space. |
| TimezoneLists.EmptyFilterMatchesAll | js/common.js:276-279 | An empty search lists every timezone, in order |
| TimezoneLists.Kept | common.js:269 | `favoriteTimezones.filter(tz => filtered.includes(tz))`: exactly the favourites that match, each as often as in the favourites, in favourites order |
| TimezoneLists.Dropped | common.js:270 | `filtered.filter(tz => !favoriteTimezones.includes(tz))`: exactly the matches that are not favourites, each as often as in the matches, in their order |
| TimezoneLists.KeptDroppedPartition | common.js:267-271 | The favourite and non-favourite sections together are the filtered list, as a multiset |
| TimezoneLists.FavoritesFirst | common.js:261-272 | The list holds exactly the matching timezones |
| TimezoneLists.FavoritesFirstSections | common.js:267-271 | Matching favourites come first, in favourites order; the rest are non-favourites in the order of the timezone list. For popup.js:21-24: the dropdown has the same two sections. |
| TimezoneLists.FavoritesFirstPermutation | popup.js:19-24 | With duplicate-free lists, the dropdown is a permutation of the matching timezones |
| TimezoneLists.FavoritesThenSorted | js/common.js:275-285 | The list holds exactly the timezones that match under the newer rule |
| TimezoneLists.FavoritesThenSortedSections | js/common.js:281-284 | Matching favourites come first, in favourites order, then the non-favourites sorted |
| TimezoneLists.FavoritesThenSortedPermutation | js/common.js:276-284 | With duplicate-free lists, the result is a permutation of the matching timezones |
| TimezoneLists.FavoriteRankIsTotalPreorder | options.js:120-126 | `FavoriteRankOrder`, the comparator of options.js:120-126 read as "may come before", puts a favourite before a non-favourite and otherwise defers to `localeCompare`. It is a total preorder whenever `localeCompare` is one |
| TimezoneLists.RankedTimezones | options.js:118-126 | The sorted favourites list is a permutation of the timezones matching the underscore-only rule |
| TimezoneLists.RankedTimezonesOrder | options.js:120-125 | Every favourite precedes every non-favourite, and within each group `localeCompare` order holds |
| TimezoneLists.HttpKeys | common.js:484 | Exactly the keys that start with `http`, each as often as in the input, in storage order |
| TimezoneLists.KeysContaining | options.js:47-50 | Exactly the keys that contain the filter ignoring case, each as often as in the input, in order |
| TimezoneLists.SiteKeys | common.js:481-491 | Site rows are exactly the `http` keys that contain the filter ignoring case, in storage order. For options.js:44-50: the options script selects the same rows. |
| TimezoneLists.SortedSiteKeys | js/common.js:554-571 | Site rows are exactly the `http` keys containing the filter ignoring case, sorted, and without repeats when the keys have none |
| TimezoneLists.RowLabel | js/common.js:188-193 | For a row with `showOffset` off, the default (js/common.js:168, :259): with a `/`, the title is everything after the first `/` and the subtitle is the region before it. Without one, the title is the whole name and the subtitle is empty. Underscores are shown as spaces |
| TimezoneLists.DefaultTimezone | options.js:216-225 | The first truthy of stored default, detected zone and `'UTC'`, replaced by `'UTC'` when unsupported; always `'UTC'` or a supported zone |
| Favorites.ToggleFirst | common.js:105-115 | A non-favourite is appended. A favourite loses exactly one occurrence, so the multiset changes by exactly that one timezone |
| Favorites.ToggleFirstRemovesFirst | common.js:106-110 | The occurrence removed is the first one, and the rest keep their positions around it |
| Favorites.ToggleFirstKeepsOrder | common.js:105-115 | The other favourites keep their relative order |
| Favorites.ToggleFirstFlips | common.js:105-115 | On a list without repeats, the toggle flips membership of the timezone only and keeps the list free of repeats |
| Favorites.ToggleFirstTwice | common.js:105-115 | Toggling a non-favourite twice gives the list back |
| Favorites.ToggleSorted | js/common.js:116-126 | The saved list is sorted, and it is the old list plus or minus exactly one occurrence of the timezone, as a multiset |
| Favorites.ToggleSortedTwice | js/common.js:116-126 | On a sorted list, toggling a non-favourite twice gives the list back |
| Favorites.ToggleAll | options.js:155-160 | Membership of the timezone flips. Other counts are unchanged, removal keeps order, and adding appends exactly once. For popup.js:60-65: the popup toggles by the same rule. |
| Favorites.ToggleAllTwice | options.js:155-160 | Toggling a non-favourite twice gives the list back |
| Favorites.ToggleAllAgreesOnDistinct | popup.js:60-65 | On a list without repeats, removing every occurrence agrees with removing the first |
| PageRules.InitialChoice | popup.js:81-90 | A truthy stored value is selected, becomes the site timezone and turns the toggle on. Otherwise `'UTC'` is selected, there is no site timezone and the toggle is off. For common.js:377-384: the older popup handler uses the same selection rule. |
| PageRules.DisplayedTimezone | popup.js:130-138 | The site timezone is shown only when the toggle is on and a site timezone is set. Otherwise the stored default is shown, or `'UTC'` |
| PageRules.LoadThenDisplay | popup.js:78-92 | Right after loading, the display shows the stored site timezone if there is one, and the default otherwise |
| PopupPage.Popup.constructor | popup.js:11-15 | Selection `'UTC'`, no favourites, no site timezone, toggle off |
| PopupPage.Popup.Dropdown | popup.js:17-24 | The dropdown holds exactly the matching timezones, ordered as `FavoritesFirst` |
| PopupPage.Popup.Load | popup.js:78-90 | Favourites become the stored list or `[]`, and selection, site and toggle follow `InitialChoice` |
| PopupPage.Popup.SelectTimezone | popup.js:39-42 | A click on a row selects its timezone and changes nothing else |
| PopupPage.Popup.ToggleFavorite | popup.js:60-67 | The favourites become `ToggleAll` of the old list, and that list is what is saved |
| PopupPage.Popup.OnToggleChanged | popup.js:97-109 | Switching off removes the stored key, sends a disable, reloads the tab and clears the site timezone. Switching on asks for nothing |
| PopupPage.Popup.Save | popup.js:111-124 | With the toggle on: store the selection, send it (always truthy) to the worker, reload and close. With it off: only close |
| PopupPage.Popup.CurrentDisplay | popup.js:130-139 | The displayed timezone follows `DisplayedTimezone` for the popup's own toggle and site timezone |
| PopupPage.PopupMessagesRoute | popup.js:101-115 | The `applyTimezone` message the popup builds (popup.js:101) reaches the worker as enable of the selection from the save button, and as disable from the switch-off; both are answered with success |
| OptionsPage.Options.constructor | options.js:15-16 | No favourites and default `'UTC'` |
| OptionsPage.Options.LoadFavorites | options.js:228-229 | Favourites become the stored list or `[]` |
| OptionsPage.Options.InitializeDefaults | options.js:216-225 | The default becomes `DefaultTimezone` of stored and detected, so `'UTC'` or a supported zone |
| OptionsPage.Options.ChangeDefault | options.js:179-184 | The chosen value becomes the default and is written under `defaultTimezone` |
| OptionsPage.Options.ToggleFavorite | options.js:155-164 | The favourites become `ToggleAll` of the old list, and that list is what is saved |
| OptionsPage.Options.FavoriteRows | options.js:116-126 | The rows are a permutation of the matching timezones |
| OptionsPage.AddedFavoriteRanksFirst | options.js:155-162 | After a timezone is added to the favourites, every row before it is a favourite |
| CurrentUi.TimezoneState.constructor | js/common.js:87-93 | No favourites, no selection, 12-hour format |
| CurrentUi.TimezoneState.LoadSettings | js/common.js:104-108 | Favourites and format become the stored values, or `[]` and `'12'` when those are falsy |
| CurrentUi.TimezoneState.ToggleFavorite | js/common.js:116-129 | Splice-or-push, then sort, performs `ToggleSorted`, and that list is what is saved |
| CurrentUi.TimezoneState.SetSelectedTimezone | js/common.js:131-134 | Sets the selection only, to a timezone or to none: the `null` passed when there is no tab (js/common.js:390, :394) and on disable (js/common.js:453) |
| CurrentUi.TimezoneList.constructor | js/common.js:255-265 | The list starts with an empty filter over the given state |
| CurrentUi.TimezoneList.SetFilter | js/common.js:270-273 | Sets the filter |
| CurrentUi.TimezoneList.FilteredTimezones | js/common.js:275-285 | Exactly the timezones matching the newer rule, ordered as `FavoritesThenSorted` |
| CurrentUi.SitesOf | js/common.js:557-562 | The site map holds exactly the `http` keys, each with its own stored value when keys are distinct |
| CurrentUi.RenderStep | js/common.js:558-562 | One round of the `forEach` adds an `http` entry to the map and to the key order, and skips any other |
| CurrentUi.OptionsHandler.constructor | js/common.js:492-495 | No sites |
| CurrentUi.OptionsHandler.RenderSites | js/common.js:554-571 | The loop fills `sites` with `SitesOf` the storage entries and returns `SortedSiteKeys` of the keys |
| LegacyUi.TimezoneState.constructor | common.js:84-89 | No favourites and selection `'UTC'` |
| LegacyUi.TimezoneState.LoadFavorites | common.js:100-103 | Favourites become the stored list or `[]` |
| LegacyUi.TimezoneState.ToggleFavorite | common.js:105-118 | Splice-or-push without sorting performs `ToggleFirst`, and that list is what is saved |
| LegacyUi.TimezoneState.SetSelectedTimezone | common.js:120-123 | Sets the selection only |
| LegacyUi.TimezoneList.constructor | common.js:241-254 | The list starts with an empty filter over the given state |
| LegacyUi.TimezoneList.SetFilter | common.js:256-259 | Sets the filter |
| LegacyUi.TimezoneList.FilteredTimezones | common.js:261-272 | Exactly the timezones matching the underscore-only rule, ordered as `FavoritesFirst` |
| LegacyUi.PopupHandler.constructor | common.js:345-348 | A fresh state object with selection `'UTC'` and no favourites. `toggleChecked` stands for the HTML checkbox's default (off), which the constructor does not set; `siteTimezone` is not modelled because nothing in the core reads it |
| LegacyUi.PopupHandler.LoadInitialData | common.js:370-386 | Favourites are loaded, and the selection and toggle follow `InitialChoice` of the value stored under the tab's URL |

## Left out

- Icon and theme handling (`updateIconForCurrentTheme`, `setIconTheme`, script injection, the startup, install, activation and focus listeners) is cosmetic browser I/O. What the model keeps of `updateTabState` and `updateBadge` is the `Indicator` effect.
- Logging (`logError`, `logInfo`) has no effect on state.
- `getUtcOffsetString` depends on `Date`, `toLocaleString` and floating-point hour arithmetic.
- DOM construction, event wiring, `ComponentBuilder`, `TimezonePicker`, the `render` bodies and the clock are left out. The rows they show are modelled; the elements are not.
- The `Storage` and `TabUtils` wrappers and the `chrome.storage`, `chrome.tabs` and `chrome.runtime` calls of the pages are not modelled as calls. Their results are parameters, and what the pages ask of them is a list of `PageEffect`s.
- State listeners (`subscribe`, `notify`) and `setTimeFormat` only trigger re-rendering or store a display preference.
- `new URL(url).origin` parsing is a given `Option<string>`. Only its throw is modelled, as `None`. A synchronous throw from `chrome.storage.sync.get` inside the same `try` is not modelled.
- `Intl.supportedValuesOf` and `Intl.DateTimeFormat().resolvedOptions().timeZone` are inputs.
- tools/generate-icons.js (filesystem and image library) is not part of this model.
- `toLowerCase` is modelled on the ASCII letters A-Z only; other case mappings of Unicode are not.
- The default `sort()` compares UTF-16 code units. The model compares Dafny characters, which are Unicode scalar values, so names outside the Basic Multilingual Plane may sort differently.
- `localeCompare` is an abstract comparator `collate`. It is assumed to be a total preorder only where sortedness is proved.
- The pages' asynchronous callbacks are each modelled as one step, and their interleavings are not. For the background worker, the interleavings are modelled.
- Time-of-check effects in the worker are not modelled: a tab closing between `attach` and its callback, for instance, is just another completion order.
- The message router's `return true` (keeping the response channel open) has no counterpart.
- The `sender.tab` of `themeDetected` is not modelled, because only the icon code uses it.
- js/background.js's `updateTabState` ignores its `isActive` flag: its `updateBadge` always clears the badge text (js/background.js:14-17) and `updateIcon` only re-applies the theme icon (js/background.js:20-23). Under `Current`, an `Indicator` entry therefore records only that the call was made, and active and inactive look the same to the user. Only the older copy's `updateBadge` (background.js:14-21) shows the flag.
- The map value the source stores for an attached tab is `true`. The session records no timezone, and `Sessions.Inv` states that every value is `true`.
- The source has no per-tab serialisation and no guard against a stale attach, so neither is in the model. `DoubleEnableAttachesTwice`, `OverrideAfterDetachLeavesStaleIndicator`, `StaleBadgeAfterFreshAttach` and `ClosedTabReattaches` exhibit the consequences.
- CurrentUi.OptionsHandler.RenderSites: requires the storage keys to be distinct, as the keys of a JavaScript object always are; the entries are given as a sequence in `Object.keys` order.
- PopupPage.Popup.SelectTimezone: requires the clicked timezone to be a row of the dropdown, which lists only supported timezones.
