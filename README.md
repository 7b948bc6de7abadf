# Diablo III leaderboard dashboard — a Dafny model of its core

The system is a small Flask application (`app.py`) that proxies the Blizzard
Diablo III game-data API, together with a browser script
(`static/js/scripts.js`) that renders a season leaderboard. This project models
and proves the two parts of it that hold real logic.

**Backend (`app.py`).**
- The OAuth token state. Two process-wide globals, `access_token` and
  `token_expiry`, are reused or renewed by `get_oauth_token`. Module `Backend`
  holds them in class `TokenBroker`, whose methods are proved equal to the pure
  step functions `GetToken` and `Fetch`.
- `fetch_data`: it always yields a `(payload, status)` pair, or lets the token
  exception escape.
- The `/api/most_used_items` aggregation (module `MostUsedItems`). It takes the
  first 15 leaderboard rows, looks up each player, keeps the heroes of the
  leaderboard's class, fetches their items and counts every named item per
  slot. It then picks each slot's most used item.
  - The counting loops are imperative methods over a nested ordered dictionary.
    The dictionary is modelled as `map<string, seq<Entry>>`, so the insertion
    order is kept.
  - The methods are proved equal to a specification function.
  - Module `ItemTally` proves what that function means: each chosen entry's
    count is the number of times its name was seen in that slot, the first-seen
    item is kept, and ties go to the name seen first.

**Browser script (`static/js/scripts.js`).**
- The rank comparator and the in-place sort (module `RiftRank`, an insertion
  sort on an `array`).
- Pagination (module `Pagination`).
- The BattleTag search (module `PlayerSearch`).
- The page state `currentPage` / `totalPages` / `leaderboardData` /
  `filteredData`, modelled as class `LeaderboardView` (module
  `LeaderboardPage`).
- `msToTime` (module `TimeFormat`).
- The `#`↔`-` tag conversions (module `BattleTags`).
- The item-type dropdown's de-duplication loop (module `ItemTypes`).
- The five-then-rest recipe split (module `Recipes`).

**Parameters instead of I/O.**
- The upstream API is a parameter: one function per endpoint, from the request
  URL to what the GET produced (`Upstream.Wire`: an answer with status and
  payload, or a failure).
- The token endpoint's answer (`Backend.ExchangeReply`) is a parameter.
- The clock is an integer number of seconds.
- In the browser, the search box's text and the fetched rows are parameters.

**Behaviour of the code worth knowing.**
- **Token failure.** `fetch_data` (app.py:50-53) does not catch the exception
  that `get_oauth_token` raises when the exchange fails. The exception escapes
  (`Failure` in the model). The "No access token available." / 500 answer is
  produced only when the exchange succeeds with no token in its body.
- **Helper shadows the route.** `get_hero_items` is defined twice. The helper at
  app.py:439 rebinds the name of the route at app.py:157, so the aggregation's
  call at app.py:408 reaches the helper, which is what is modelled.
- **Empty `player`/`data` list.** A leaderboard row whose `player` or `data` list
  is present but empty makes the `[0]` lookups at app.py:393 raise `IndexError`.
  Flask then answers 500: `MostUsedItems.InternalError`.
- **Two clock readings.** `get_oauth_token` reads the clock for the reuse test
  (app.py:32) and again after the exchange answered (app.py:43); the new expiry
  is counted from the second reading, `receivedAt` in the model.

## Model

| member | source | states |
|---|---|---|
| Upstream.Normalize | app.py:57-69 | an answered GET passes its body and status through; any exception becomes an error envelope with status 500, and only then |
| Backend.ReusedWhileUnexpired | app.py:29-33 | a stored token that has not expired is returned again with no exchange and the globals unchanged |
| Backend.FirstCallExchanges | app.py:24-33 | with no token stored at start-up, the first call always sends the credential exchange |
| Backend.RenewalStoresToken | app.py:39-44 | a 200 exchange stores expiry `receivedAt + expires_in - 60`, counted from the clock reading taken after the answer (`expires_in` defaulting to 3600), and returns exactly the stored token |
| Backend.FailedRenewalKeepsState | app.py:39-46 | a non-200 or failed exchange raises and leaves `access_token` and `token_expiry` unchanged |
| Backend.RenewedAgainOnlyAfterLifetime | app.py:32-43 | after a renewal whose answer arrived at `r` with lifetime `e`, a later call exchanges again if and only if `now >= r + e - 60` |
| Backend.NoExchangeBeforeExpiry | app.py:32-33 | any sequence of calls before expiry performs no exchange and leaves the globals as they were |
| Backend.OneExchangePerLifetime | app.py:29-44 | a renewal followed by any number of calls before the new expiry exchanges exactly once |
| Backend.FetchShape | app.py:50-69 | `fetch_data` either lets the token exception escape without a GET, or answers 500 "No access token available." without a GET, or returns the normalised GET answer; a failed GET is an error envelope with 500 |
| Backend.TokenBroker.constructor | app.py:24-26 | the globals start with no token and expiry equal to the start time |
| Backend.TokenBroker.GetOAuthToken | app.py:29-46 | the new globals, the result and whether an exchange was sent are those of `GetToken` on the old globals |
| Backend.TokenBroker.FetchData | app.py:50-69 | the new globals, the `(payload, status)` pair or escaped exception and whether a GET was sent are those of `Fetch` on the old globals |
| MostUsedItems.FormatTagMeaning | app.py:442 | the formatted tag has the same length, no `#`, and every other character unchanged |
| MostUsedItems.UrlsHaveNoHash | app.py:439-457 | neither the profile URL nor the hero-items URL contains a `#` |
| MostUsedItems.HeroClassMeaning | app.py:403 | the class is the suffix of the slug after its last `-` (the whole slug when there is none) and contains no `-` |
| MostUsedItems.SampledRowsArePrefix | app.py:388 | at most 15 rows are visited, they are the leaderboard's first rows in order, exactly 15 when it has that many, and none when the answer has no `row` list |
| MostUsedItems.CharacterData | app.py:453-464 | a profile lookup that does not answer 200 yields `{}` (no `heroes`) |
| MostUsedItems.HeroItemsOf | app.py:439-450 | an items lookup that does not answer 200 yields `{}` |
| MostUsedItems.TagOfMeaning | app.py:393-395 | the tag lookup raises `IndexError` exactly when the player list or the first player's data list is present but empty; it yields a tag exactly when the first cell of the first player's data holds a non-empty string, and that string is the tag; otherwise no tag |
| MostUsedItems.IndexFailureIsFinal | app.py:392-393 | once a visited row makes the tag lookup raise, the whole route fails |
| MostUsedItems.AddOccurrence | app.py:416-425 | the dictionary after one named item is the tally extended by that sighting |
| MostUsedItems.ItemSightingsMeaning | app.py:414-416 | every sighting of one hero is one of its items with a non-empty name, under its own slot and name, and every such item is sighted |
| MostUsedItems.ItemSightingsCount | app.py:414-425 | in an items document with no repeated slot, `name` is counted in `slot` once when the document holds that item there and not at all otherwise |
| MostUsedItems.HeroesSightingsCount | app.py:401-425 | a player's count of `name` in `slot` is the number of their heroes of the leaderboard's class whose items document holds that item |
| MostUsedItems.CountHeroItems | app.py:414-425 | the loop over one hero's items leaves the tally of everything seen so far plus that hero's named items |
| MostUsedItems.CountHeroes | app.py:402-425 | the loop over one player's heroes adds exactly the named items of the heroes of the leaderboard's class |
| MostUsedItems.CountPlayer | app.py:396-399 | a player's profile is looked up; one without `heroes` adds nothing, otherwise its heroes are counted |
| MostUsedItems.CountRows | app.py:392-425 | the loop over the visited rows fails exactly when a row's tag lookup raises, and otherwise leaves the tally of every named item of every matching hero, row by row |
| MostUsedItems.GetMostUsedItems | app.py:372-436 | the route answers what `MostUsedItems` specifies: the leaderboard's failing status, the 500 of a failed row lookup, or the per-slot maxima of the tally of the visited rows |
| MostUsedItems.LeaderboardFailureIsReported | app.py:381-385 | a leaderboard lookup that does not answer 200 is reported with that same status, whatever the profile and item lookups would answer (no fan-out) |
| MostUsedItems.EmptyLeaderboardFindsNothing | app.py:388-433 | a leaderboard without rows yields `{}` |
| MostUsedItems.FailedProfileContributesNothing | app.py:458-462 | a player whose profile lookup fails contributes no item |
| MostUsedItems.OtherClassesContributeNothing | app.py:402-403 | heroes of other classes contribute no item |
| MostUsedItems.FoundIsFirstSeenMaximum | app.py:429-433 | a found result is, slot by slot, the first-seen maximum of the items counted from the visited rows |
| ItemTally.Tally | app.py:418-425 | every slot in the dictionary has at least one entry |
| ItemTally.RecordCountsOne | app.py:416-425 | counting one sighting adds one to the count of its name in its slot (from 0 when absent); every other count and slot is unchanged, and the slot's entries keep their names, items and insertion order |
| ItemTally.TallyAccounts | app.py:415-425 | every entry's count is the number of sightings of its name in its slot, its item is the first one seen, entries are in first-seen order, and every sighting has its entry |
| ItemTally.FirstMax | app.py:431 | `max` over the entries picks one whose count no entry exceeds and which every earlier entry falls short of |
| ItemTally.MostUsedIsFirstSeenMaximum | app.py:414-433 | a slot has a result if and only if a named item was seen in it; the result's count is the number of sightings of its name, its item is the first one seen, no name has more sightings, and a name with as many was first seen no earlier |
| RiftRank.FindCell | static/js/scripts.js:677 | `find` gives the first cell with the id, or none when no cell has it |
| RiftRank.RiftLevelAndTimeMeaning | static/js/scripts.js:676-683 | a non-zero rift level (time) is the number (timestamp) of the first `RiftLevel` (`RiftTime`) cell; a row without that cell gives 0 |
| RiftRank.FirstCellDecides | static/js/scripts.js:676-683 | for any cell that is the first `RiftLevel` (`RiftTime`) cell of the row, the rift level (time) is that cell's number (timestamp), or 0 when it has none |
| RiftRank.CompareMeaning | static/js/scripts.js:96-108 | the comparator puts higher rift level first, then shorter rift time, and is antisymmetric |
| RiftRank.RanksIsTotalPreorder | static/js/scripts.js:120-133 | "ranks before" is reflexive, total and transitive |
| RiftRank.SortRows | static/js/scripts.js:120-133 | after the in-place sort the array is in rank order, holds the same rows, and an already sorted array is unchanged |
| RiftRank.TagRows | static/js/scripts.js:86 | each row of a class's leaderboard is copied with that class's slug attached |
| RiftRank.MergedRowsAreTagged | static/js/scripts.js:78-90 | every row of the merged "all classes" list is a row of one class's leaderboard tagged with that class |
| RiftRank.MergeClassesLength | static/js/scripts.js:88-90 | the flattened list holds exactly as many rows as all the classes' leaderboards together |
| RiftRank.MergedRowAt | static/js/scripts.js:78-90 | row `r` of class `b`'s leaderboard, tagged with that class, is in the merged list, at position (rows of the classes before `b`) + `r` |
| Pagination.TotalPages | static/js/scripts.js:111 | the number of pages is the fewest pages of 50 that hold all rows |
| Pagination.Slice | static/js/scripts.js:175 | `slice` takes the rows between the bounds; an end past the list takes the rest of it from the start; an empty or out-of-range range gives nothing |
| Pagination.PageBounds | static/js/scripts.js:173-175 | a page holds at most 50 rows, those from `(page - 1) * 50` on, and is non-empty exactly up to the last page |
| Pagination.PagesCoverList | static/js/scripts.js:173-175 | pages 1 to `totalPages` one after another are exactly the list |
| Pagination.NextPageStaysInRange | static/js/scripts.js:218-224 | with at least one page, a ±1 move keeps the page within `1..totalPages`, and moves whenever the neighbouring page exists |
| Pagination.EmptyListHasNoPages | static/js/scripts.js:218-222 | an empty list has 0 pages, and "next" on page 1 then moves to page 2 |
| PlayerSearch.LowerString | static/js/scripts.js:227 | lower-casing keeps the length and maps every ASCII capital to its small letter |
| PlayerSearch.Includes | static/js/scripts.js:237 | `includes` holds if and only if the query occurs at some position |
| PlayerSearch.ProbeTag | static/js/scripts.js:236 | the probe finds nothing exactly when no cell is a BattleTag; otherwise, for the first BattleTag cell, it throws exactly when that cell has no string and else gives that string lower-cased |
| PlayerSearch.MatchingRowsFailsIffTypeError | static/js/scripts.js:235-238 | the filter throws if and only if some row's BattleTag cell has no string |
| PlayerSearch.MatchingRowsMembership | static/js/scripts.js:235-238 | a row is kept if and only if it is a leaderboard row whose lower-cased BattleTag is non-empty and contains the query |
| PlayerSearch.MatchingRowsKeepsOrder | static/js/scripts.js:235-238 | the kept rows keep the leaderboard's rank order |
| PlayerSearch.KeptFromMeaning | static/js/scripts.js:235-238 | for any filter predicate, the kept positions are increasing, within the list, and exactly those of the rows the predicate accepts |
| PlayerSearch.MatchingRowsIsSubsequence | static/js/scripts.js:235-238 | the search result is the subsequence of the leaderboard made of exactly the rows that pass the filter, in leaderboard order |
| LeaderboardPage.LeaderboardView.constructor | static/js/scripts.js:25-29 | page 1 of 1, both lists empty |
| LeaderboardPage.LeaderboardView.Load | static/js/scripts.js:96-112 | the fetched rows are sorted in place and become the leaderboard, unfiltered, at page 1 of `ceil(n / 50)` |
| LeaderboardPage.LeaderboardView.LoadAllClasses | static/js/scripts.js:78-112 | for "all classes", the leaderboard is the tagged rows of every class, sorted |
| LeaderboardPage.LeaderboardView.ChangePage | static/js/scripts.js:218-224 | the page becomes `NextPage` of the old one; nothing else changes and the page invariant is kept |
| LeaderboardPage.LeaderboardView.SearchPlayer | static/js/scripts.js:226-247 | an empty query restores all rows, otherwise the matching rows are kept; then page 1 of `ceil(n / 50)`; a throwing filter changes nothing |
| LeaderboardPage.LeaderboardView.DisplayLeaderboard | static/js/scripts.js:164-175 | an empty list shows "No data", otherwise the current page of the list, at most 50 rows; the extra sort leaves the list as it is |
| TimeFormat.MsToTime | static/js/scripts.js:717 | the input 'N/A' is returned unchanged |
| TimeFormat.ComponentsRecompose | static/js/scripts.js:720-722 | hours < 24, minutes < 60, seconds < 60, and together they are the whole seconds of the time of day |
| TimeFormat.BlankWhenNoWholeSecond | static/js/scripts.js:716-725 | the text is empty exactly when the time of day is under one second (so for any duration under a second) |
| TimeFormat.ReadTimeRoundTrip | static/js/scripts.js:716-725 | reading the rendered text back gives the hours, minutes and seconds of the time of day |
| TimeFormat.ShowsUnitIffNonZero | static/js/scripts.js:724 | the text holds `h` (`m`, `s`) exactly when the hours (minutes, seconds) are non-zero: a zero component is left out |
| BattleTags.AccountOfReplacesTheHash | static/js/scripts.js:686 | the account name is the tag with a `-` in place of its first `#`, and it still holds a `#` exactly when the tag has a second one |
| BattleTags.RoundTripWithoutDash | static/js/scripts.js:375 | replacing the first `-` back gives the original tag for every tag without a `-` |
| BattleTags.DashBreaksRoundTrip | static/js/scripts.js:375 | the tag `a-b#1` comes back as `a#b-1` |
| BattleTags.AgreesWithBackendForOneHash | static/js/scripts.js:686 | for a tag with at most one `#`, the browser's account name equals the backend's URL form |
| BattleTags.TwoHashesDifferFromBackend | static/js/scripts.js:686 | for `a#b#1` the browser's account name is `a-b#1` while the backend's URL form (app.py:442) is `a-b-1` |
| ItemTypes.UniqueItemTypes | static/js/scripts.js:512-523 | the loop emits `Unique` of the list, and the map holds each name with its first item type |
| ItemTypes.UniqueCoversNames | static/js/scripts.js:515-517 | a name has an option if and only if it occurs in the list |
| ItemTypes.UniqueNamesDistinct | static/js/scripts.js:516 | no two options share a name |
| ItemTypes.UniqueTakesFirst | static/js/scripts.js:516-517 | each option is the first item type with its name |
| ItemTypes.UniqueKeepsOrder | static/js/scripts.js:515-517 | options come in the order in which their names first occur |
| Recipes.ShownFirst | static/js/scripts.js:302 | at most five recipes, the first ones, and five when there are at least five |
| Recipes.ShownOnShowMore | static/js/scripts.js:314 | nothing more to show for five recipes or fewer |
| Recipes.PartsMakeWholeList | static/js/scripts.js:298-318 | the two parts one after the other are the whole list, and the button exists if and only if it has recipes to show |

## Left out

- The HTTP and OAuth calls are not modelled: the aiohttp sessions, the POST with Basic auth, JSON decoding, and the browser's `fetch` / `Promise.all`. Their results are parameters.
- A hero's items document is a JSON object, so a slot occurs in it at most once. `HeroItems` is a list of `(slot, item)` pairs that could repeat a slot; the per-hero counts (`ItemSightingsCount`, `HeroesSightingsCount`) assume no repeat, stated as `DistinctSlots`.
- Logging is not modelled: the `print` calls in app.py (lines 60-68, 377, 384, 394, 404, 411, 427, 435) and `console.log` / `console.error` in static/js/scripts.js (lines 113, 116, 165) have no effect in the model.
- The token answer's `expires_in` is an optional integer. app.py:41 stores `access_token` before app.py:43 computes the expiry, so an `expires_in` that is present but null or not a number raises `TypeError` after the new token is stored, keeping the old expiry; typed JSON rules that case out here.
- A leaderboard row's `data` list is always present in the model. A row without `data` makes the browser's `row.data.find` (static/js/scripts.js:236, :677) throw; that exception is not modelled.
- The `@cache.memoize(timeout=300)` cache on `fetch_data` (app.py:49) is not modelled. A cache hit returns the stored `(payload, status)` pair without calling `get_oauth_token`: no exchange is sent, no token exception can escape, and the globals stay as they are. `Backend.Fetch` and `Backend.TokenBroker.FetchData` model a miss, which always runs the token step.
- Concurrency is not modelled: the unlocked check-then-refresh race in `get_oauth_token`, and the missing `await` on the `fetch_data` calls at app.py:381, app.py:444 and app.py:458. The aggregation is modelled as the sequential code it means to be, receiving the `(payload, status)` pair.
- MostUsedItems.GetMostUsedItems: an exception raised by the token exchange inside `fetch_data` is not modelled. The three lookups are taken to have a token, so each answers a `(payload, status)` pair; in the running code such an exception gives a Flask 500.
- A hero's `id` is modelled as always present. `hero.get('id')` returning `None` would put the text "None" in the URL, which an upstream answer covers anyway.
- Timezones and `datetime` are replaced by integer seconds.
- The pass-through Flask routes, template pages, `app.run`, and the static table of `get_item_type` are not modelled.
- The browser's rendering is not modelled: DOM building, `innerHTML`, `setTimeout`, the loader, `toLocaleString`, `updatePaginationControls`, the `classImages` / `classNames` tables, and navigation to `/character/...`.
- RiftRank.SortRows: stability is not proved. The model proves sortedness, that the rows are a permutation, and that an already sorted array is left unchanged; the last is the only case in which the browser re-sorts a list.
- LeaderboardPage.LeaderboardView: the aliasing of `filteredData` and `leaderboardData` is not modelled; they are one array after a load or an empty search. Both lists are values here. This is sound because the only in-place change to that array is a sort of an already sorted list, which `SortRows` leaves unchanged.
- PlayerSearch.LowerString: only ASCII letters are lower-cased. JavaScript's full Unicode case mapping is not modelled.
- TimeFormat.MsToTime: only non-negative integer milliseconds are modelled. Floating-point inputs and the unused `milliseconds` component are not.
- The page number is the integer the buttons produce; `Math.ceil` and the page divisions are computed on natural numbers.
