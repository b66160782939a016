# World Cup 2026 squad selector, modelled in Dafny

The squad selector is a browser application. A user picks up to 26 players (at most
3 goalkeepers and 23 outfield players) for each of the 22 national teams. The picks
are kept in the browser's `localStorage`. A set of profiles lets the user keep
several independent "World Cups". An overview page can summarise every saved squad
and share them all in one URL. Three data sources feed the player catalogues:

- a Transfermarkt scraper in the browser, paged and cached for 24 hours;
- a SofaScore API adapter;
- a Python downloader that writes one JSON file per country.

This project models that core:

- **Profiles** (`profiles.js`). Every operation is a method on a `Storage.Store` class
  whose `items` map stands for `localStorage`. Key scans run over a snapshot of the key
  set, in any order.
- **Key scheme** (`Keys`). Squad keys are `wc2026_<profile>_<country>`. Lemmas state
  when two profile namespaces overlap and when they cannot.
- **Squad editor** (`app.js`). `Roster.Toggle` is the selection rule as a function.
  `App.App` is a class with the page's global state as fields.
- **Overview page** (`overview.js`): the summary, the statistics, the share string and
  its loading back from a URL.
- **Transfermarkt service** (`transfermarkt-service.js`). The loading-state table is a
  field of the `Transfermarkt.Service` class. The cache lives in the same store. The
  page sequence is given as a parameter.
- **SofaScore adapter** (`sofascore-service.js`): converting the API response and
  computing ages.
- **Downloader** (`download-data.py`): cutting the page text into rows and the
  page-by-page de-duplication loop.
- **Shared parts**:
  - `Catalog`: the stable sort by market value, renumbering, and the Spanish position
    tables that both scrapers use;
  - `CountryTable`: the country table of the overview page;
  - `Common` and `Text`: players, find and filter, split and join, decimal printing
    and `parseInt`.

Conventions:

- Timestamps, random draws, fetched pages and API responses are explicit parameters.
- Each operation sees one clock instant `now`.
- Stored values are a `Storage.Value`. `Raw(text)` is text that `JSON.parse` rejects.
  `Raw("")` is the only falsy value.

Behaviour of the code that the model keeps as written:

- A missing `"default"` entry is not repaired. `getCurrentProfileId` can then answer
  `"default"` although no such profile exists. `Profiles.CurrentIsAProfile` therefore
  assumes `DefaultKept`. Every operation of the model preserves `DefaultKept`.
- The "was it the current profile" test at the end of `deleteProfile` can never fire.
  The `getCurrentProfileId` call inside it has already moved the current-profile key back to
  `"default"`. `Profiles.DeleteProperties` states the resulting store.
- `loadInitialPages` has no `finally`. A page fetch that throws leaves `isLoading` set.
  Every later `loadNextPage` then returns `null` until `clearCache` or a complete
  `loadInitialPages` resets the state. `Transfermarkt.InitialLoadBlocks` states this for the
  `loadNextPage` right after the failed load.
- `app.js` and `overview.js` still read and write the legacy `wc2026_squad_<country>`
  keys. `initProfiles` migrates those keys away (`Profiles.MigrateOldData`).

## Model

| member | source | states |
|---|---|---|
| Profiles.LoadTable | profiles.js:20-41 | Without a parseable stored table, the table is the default one: only `"default"`, named "Mi Mundial". A stored table is used as is. Afterwards the table is stored, a second load gives the same table and changes nothing, and only the profiles key changes. |
| Profiles.GetProfiles | profiles.js:20-41 | Returns the loaded table and leaves the store with that table written. |
| Profiles.SaveProfiles | profiles.js:44-46 | Only the profiles key changes, and it now holds the given table. |
| Profiles.ResolveCurrent | profiles.js:49-57 | The current id is `"default"` or a profile of the table. The current-profile key now holds it. A non-default answer is the stored current-profile key. A stored current-profile key that names a profile is kept. The table and every other key are untouched. |
| Profiles.CurrentIsAProfile | profiles.js:49-57 | While `"default"` is in the table, the current id always names a profile. |
| Profiles.ResolveStable | profiles.js:49-57 | Resolving the current profile a second time gives the same id. |
| Profiles.GetCurrentProfileId | profiles.js:49-57 | Returns the resolved id and leaves the store exactly as the resolution leaves it. |
| Profiles.GetCurrentProfile | profiles.js:60-64 | Returns the current profile's metadata exactly when its id is in the table. The result is always present while `"default"` exists. |
| Profiles.ResolveAfterLoad | profiles.js:60-64 | Loading the table before resolving does not change which profile is current. |
| Profiles.SetCurrentProfile | profiles.js:67-74 | Succeeds iff the id names a profile. Only then is the current-profile key rewritten, and nothing else changes beyond loading the table. |
| Profiles.SwitchMakesCurrent | profiles.js:67-74 | After a successful switch, the next resolution answers the new id. Loading the table leaves the current-profile key alone. |
| Profiles.GenerateProfileId | profiles.js:10-17 | Six characters, each picked by its draw from the 36-character alphabet. The id never contains `_` and is never `default`, `squad` or `current`. |
| Profiles.CreateProfile | profiles.js:77-95 | Returns the drawn id and leaves the store as `Created` describes: new entry, table saved, optional switch. |
| Profiles.CreatedStores | profiles.js:77-95 | After creation the stored table is the old table plus the new entry. Only the table key, and the current-profile key when switching, change. When switching, the current-profile key holds the new id. |
| Profiles.CreateProperties | profiles.js:77-95 | The table gains exactly the new id: the given name or "Mundial n+1", stamped now. Other profiles are unchanged. A fresh id grows the table by one. When switching, the new profile becomes current. The default profile survives. |
| Profiles.RenameProfile | profiles.js:98-107 | Succeeds iff the profile exists. On success only the table key changes, to the renamed table. Otherwise the table is only loaded. |
| Profiles.RenameProperties | profiles.js:98-107 | The set of ids is unchanged. The renamed entry gets the new name and updatedAt = now, and keeps its id and createdAt. Every other entry is untouched. |
| Profiles.KeysWithPrefix | profiles.js:122-128 | Collects exactly the stored keys that start with the prefix. |
| Profiles.RemoveAll | profiles.js:129 | Removes exactly the collected keys. |
| Profiles.DeleteProfile | profiles.js:110-138 | `"default"` is refused and nothing changes. Otherwise the call succeeds iff the profile exists. A refusal only loads the table. A success leaves the `Deleted` store. |
| Profiles.DeleteProperties | profiles.js:110-138 | The table loses exactly that id. No key of its namespace remains. Only its namespace, the table and the current-profile key change. The current-profile key no longer names it, and `"default"` survives. |
| Profiles.CopyNamespace | profiles.js:153-161 | Every key of the source namespace has a copy with the same value under the target namespace. Only such copies are added, and every other key keeps its value. |
| Profiles.DuplicateProfile | profiles.js:144-163 | For an unknown source the result is `null` and the table is only loaded. Otherwise the result is a newly drawn six-character id. It is not checked against the table, so a repeated draw replaces that profile's entry and copies into its namespace. The profile is created without switching, named "<name> (copia)" unless a name is given, and its namespace is filled from the source's. |
| Profiles.DuplicateProperties | profiles.js:144-163 | Each squad of the source appears under the new profile with the same value. Keys outside the new namespace are unchanged, the source's squads included. No new key lies outside the new namespace. |
| Profiles.GetSquadKey | profiles.js:167-170 | The key is `wc2026_<current>_<country>`. The store changes only as the resolution changes it. |
| Profiles.GetSquad | profiles.js:173-184 | Returns the parsed value at the current profile's key. A missing, empty or unparseable value gives nothing. |
| Profiles.SaveSquad | profiles.js:187-198 | Stores the squad under the current profile's key and restamps the current profile. |
| Profiles.SaveThenGet | profiles.js:173-198 | After saving, the current profile is the same and reading the key back yields the saved squad. The profile's updatedAt is now, and `"default"` survives. |
| Profiles.SaveFrame | profiles.js:187-198 | A save changes no key other than the current profile's key for that country, the profile table and the current-profile key. |
| Profiles.SaveIsolation | profiles.js:187-198 | Saving in the current profile leaves what any other profile reads back, for any country, exactly as it was. |
| Profiles.CollectNamespace | profiles.js:205-214 | A country is in the result iff its key in the namespace parses. Its value is the stored value. |
| Profiles.GetAllSquads | profiles.js:201-217 | Collects exactly the parseable squads of the current profile, keyed by country. |
| Profiles.MigrationKeysApart | profiles.js:233-235 | The new key of a legacy key is in the default namespace and is not a legacy key. It maps back to the legacy key. |
| Profiles.MigrateOldData | profiles.js:221-248 | Every legacy key is removed. Each default-profile slot is filled from its legacy key only when the slot was empty and the legacy value truthy. Nothing else changes. |
| Profiles.MigrationProperties | profiles.js:221-248 | No legacy key remains. Existing default squads win. Legacy-only squads move to the default profile. Every key outside the two namespaces is unchanged. |
| Profiles.MigrationIdempotent | profiles.js:221-248 | Migrating a second time changes nothing. |
| Profiles.MigrationKeepsControlKeys | profiles.js:221-248 | The profiles table and the current-profile key survive migration unchanged. |
| Profiles.InitProfiles | profiles.js:251-260 | Loads the table, resolves the current profile, then migrates the result. |
| Profiles.InitProperties | profiles.js:251-260 | Afterwards the table is stored and the current-profile key is set. The current-profile key names a profile while `"default"` exists, and no legacy key remains. |
| Keys.SquadKeyInjective | profiles.js:167-170 | For ids without `_`, two squad keys are equal iff profile and country are. |
| Keys.ScanMatchesOwnKeysOnly | profiles.js:125 | The prefix scan of one profile matches another profile's squad key only when they are the same profile. |
| Keys.NamespacesDisjoint | profiles.js:125 | Namespaces of ids without `_` overlap only for the same id. |
| Keys.NamespaceId | profiles.js:125 | In a namespace key, the first `_` after `wc2026_` ends the id. |
| Keys.ProfilesKeyOutsideNamespaces | profiles.js:4 | The profiles table key is in no profile's namespace. |
| Keys.CurrentKeyNamespace | profiles.js:5 | The current-profile key lies in the namespace of a profile named `current`, and of no other. |
| Keys.LegacyIsSquadNamespace | profiles.js:225-235 | A legacy key is a squad key of a profile named `squad`. |
| Keys.LegacyOutsideDefault | profiles.js:226 | No key is both a legacy key and a default-profile key. |
| Keys.RetargetInjective | profiles.js:157-159 | Re-prefixing keys of one namespace never sends two keys to the same new key. |
| Storage.Parsed | profiles.js:175-183 | A value is read back iff the key holds a parseable document, and then it is that document. |
| Roster.Toggle | app.js:176-216 | A rejection leaves the selection intact. `Removed` happens iff there is a catalogue and the id is selected, and then the selection is the list with that id filtered out. `Added` happens iff the player is in the catalogue, not yet selected, under its position's limit and the squad has fewer than 26; it appends exactly that player. A squad of 26 or more never grows. `NoCatalog` happens iff there is no catalogue, `UnknownPlayer` iff the unselected id is not in it, and `SquadFull` iff the player passes its position's limit but the squad has 26 or more. |
| Roster.RejectionsChangeNothing | app.js:187-203 | The goalkeeper limit fires iff a goalkeeper is added to 3 goalkeepers. The outfield limit fires iff an outfield player is added to 23. Any rejection leaves the selection intact. |
| Roster.TotalCheckUnreachable | app.js:205-209 | Within the per-position limits, the 26-player check never fires (3 + 23 = 26). |
| Roster.TogglePreservesValid | app.js:176-216 | Toggling keeps both limits and distinct ids. The squad never exceeds 26. |
| Roster.ToggleTwice | app.js:176-216 | Toggling an added player again removes it and restores the previous selection. |
| Roster.RemoveProperties | app.js:185 | Removal drops exactly the players with that id and keeps the rest. |
| Roster.RemoveIdConcat | app.js:185 | Removal works piecewise over a concatenation, so the players that stay keep their order. |
| Roster.RemoveAtIndex | app.js:185 | In a selection with one entry per player, removing the id of the entry at index i yields the selection with exactly that entry cut out. |
| Roster.CountsSplit | app.js:188-189 | Goalkeeper and outfield counts add up to the squad size. |
| App.FilterByPosition | app.js:148-151 | "all" keeps the list. Any other filter keeps exactly the players of that position. |
| App.FilterByPositionOrder | app.js:149-151 | Filtering distributes over concatenation, so list order is kept. |
| App.SavedSelection | app.js:257-263 | No saved key leaves the selection. An unparseable value throws. A saved squad restores its players. |
| App.SaveThenLoad | app.js:240-263 | Loading right after saving restores the saved selection. |
| App.App.constructor | app.js:2-8 | The initial page state: country `spain`, empty selection, filter `all`, not loading. |
| App.App.AvailablePlayers | app.js:141-151 | No catalogue lists nothing. Otherwise the list is the catalogue under the current filter. |
| App.App.LoadCountryData | app.js:27-50 | A memoised catalogue is returned without fetching. Otherwise a successful fetch is remembered, and the loading flag is cleared either way. |
| App.App.TogglePlayer | app.js:176-216 | The outcome and new selection are those of `Roster.Toggle`. No other field changes. |
| App.App.SaveSquad | app.js:240-254 | An empty selection is refused and nothing is stored. Otherwise the squad is written under `wc2026_squad_<country>` and nothing else changes. |
| App.App.LoadSavedSquad | app.js:257-263 | The call throws iff the saved value is unparseable. A saved squad replaces the selection. Otherwise the selection stays. |
| App.App.ChangeCountry | app.js:118-126 | Switches the country, clears the selection, loads the catalogue and then the saved squad. The catalogue is memoised: an already loaded country keeps `playersData` and `isLoading` as they were, a new one is stored when fetched, and loading ends with `isLoading` false. The filter is unchanged. |
| App.App.ClearSquad | app.js:129-134 | Empties the selection and nothing else. |
| App.App.SetFilter | app.js:108-115 | Sets the filter and nothing else. |
| App.App.Init | app.js:94-103 | Keeps the current country, loads its catalogue with the same memo and `isLoading` rules as a country change, then restores its saved squad if there is one. The filter is unchanged. |
| CountryTable.CountriesDistinct | overview.js:13-36 | The 22 countries have distinct codes and distinct FIFA codes. |
| CountryTable.CountriesShape | overview.js:13-36 | Every code is non-empty and free of `_`. Every FIFA code has three characters and none of the share delimiters. |
| CountryTable.CountriesGood | overview.js:13-36 | The table is distinct and delimiter-free, as the share format needs. |
| Overview.GetSavedSquad | overview.js:54-64 | A squad is read iff the legacy key holds a parseable document. |
| Overview.EntriesProperties | overview.js:150-159 | The counted countries are those with a non-empty saved squad, each with its stored players. None is missed. |
| Overview.EntriesDistinct | overview.js:150-159 | With a distinct table, no country is counted twice. |
| Overview.CalculateStats | overview.js:67-80 | For no players the result is zeros. Otherwise it is the count, total value and age sum. |
| Overview.TotalValueBounds | overview.js:72 | With non-negative values, the total is non-negative and at least each player's value. |
| Overview.TotalsConcat | overview.js:72-73 | Value and age totals add over concatenation. |
| Overview.CountByPosition | overview.js:83-91 | Each count is exactly the number of players of that position. |
| Overview.PositionCountsBound | overview.js:83-91 | The counts sum to at most the list size, with equality iff every position is one of GK, DEF, MID, FWD. |
| Overview.RenderSummary | overview.js:144-160 | The totals are those of the counted countries. |
| Overview.SummaryOver | overview.js:150-159 | The loop over any country list computes the tally of its counted entries. |
| Overview.SummaryBounds | overview.js:144-160 | complete ≤ teams ≤ countries, teams ≤ players, and 26 × complete ≤ players. |
| Overview.IdsRoundTrip | overview.js:278 | Comma-joined ids, read back with `parseInt`, give the same ids. |
| Overview.SegmentRoundTrip | overview.js:272-278 | A `FIFA:ids` segment splits back into its FIFA code and ids. |
| Overview.ShareRoundTrip | overview.js:266 | The share string is empty iff there is nothing to share. Otherwise it splits on `\|` into one part per segment, each reading back to its segment. |
| Overview.GenerateShareData | overview.js:197-209 | Returns the `\|`-joined segments of the saved squads, in table order. |
| Overview.ShareDataOver | overview.js:200-208 | The loop over any country list builds the encoding of its entries. |
| Overview.GeneratedWellFormed | overview.js:197-209 | Every generated segment is well formed: a non-empty FIFA code without `:` or `\|`, and at least one id. |
| Overview.ShareAllSquads | overview.js:212-220 | Nothing is shared iff no squad is saved. Otherwise the token decodes to the share string. |
| Overview.FindCountryIn | overview.js:275 | Finds a table country with that FIFA code, or reports that none has it. |
| Overview.FindCountryUnique | overview.js:275 | In a distinct table, a country's FIFA code finds that country. |
| Overview.Resolve | overview.js:288-290 | Resolved players come from the catalogue, and each one's id was requested. |
| Overview.ResolveRestores | overview.js:288-290 | The ids of catalogue players resolve back to exactly those players, in order. |
| Overview.ResolveDropsUnknown | overview.js:288-290 | Ids that are unparseable or not in the catalogue resolve to nothing. |
| Overview.WritesProperties | overview.js:271-301 | Every write is for a known country that has a catalogue, holds a non-empty squad and uses only that catalogue's players. |
| Overview.ApplyWritesOutside | overview.js:299 | Keys no write targets are left as they were. |
| Overview.ApplyWritesLast | overview.js:299 | A country's key ends up holding its last write. |
| Overview.LoadFromURL | overview.js:258-319 | Without a data parameter, or when decoding fails, nothing is stored. Otherwise each usable part writes its squad, and the result is true iff one was loaded. |
| Overview.LoadParts | overview.js:268-305 | The part loop performs exactly the described writes and counts them. |
| Overview.ShareThenLoad | overview.js:197-305 | Catalogues can hold the shared players. Loading the shared string then writes exactly the shared squads, in order. |
| Overview.ShareThenLoadRestores | overview.js:197-305 | After loading a shared URL into any store, every shared country's key holds the shared players. |
| Overview.WritesRestore | overview.js:292-300 | Applying one write per distinct country restores each country's players. |
| Text.ParseDecimal | overview.js:278 | `parseInt` of a printed integer gives that integer back. |
| Text.SplitJoin | overview.js:266 | Splitting a join of delimiter-free parts gives the parts back. |
| Catalog.SortProperties | transfermarkt-service.js:309 | The sorted list is a permutation of the input, ordered by non-increasing market value. |
| Catalog.SortStable | transfermarkt-service.js:309 | Players of equal value keep their relative order, as the stable sort does. |
| Catalog.SortIdempotent | transfermarkt-service.js:309 | Sorting a sorted list changes nothing. |
| Catalog.SortKeepsOrdered | transfermarkt-service.js:309 | A list already ordered by value comes out of the sort unchanged. |
| Catalog.RenumberProperties | transfermarkt-service.js:310 | Ids become 1..n, distinct, and id k finds the k-th player. Ids outside 1..n find nothing. Order by value is kept, and renumbering twice changes nothing. |
| Catalog.SortAndNumber | transfermarkt-service.js:309-310 | The in-place sort and renumbering give the renumbered sorted list. |
| Catalog.SortAndNumberProperties | transfermarkt-service.js:309-310 | Up to ids it is the same multiset of players. It is ordered by value, and the i-th player has id i + 1. |
| Catalog.CoarsePosition | transfermarkt-service.js:25-42 | A Spanish position maps through the table, anything else to MID. The result is always one of the four positions. |
| Catalog.SpanishPositionsCoarse | transfermarkt-service.js:25-42 | Every entry of the Spanish table is one of GK, DEF, MID, FWD. |
| Catalog.DetailedPosition | download-data.py:68-85 | A Spanish position gets its English label. Anything else is kept as it is. |
| Catalog.TablesAgree | download-data.py:48-85 | The coarse and detailed tables have the same Spanish keys. |
| Transfermarkt.CountryCodesAreKeys | transfermarkt-service.js:11-22 | The list `clearCache` walks has exactly the keys of the country table, without repeats. |
| Transfermarkt.CacheKeyInjective | transfermarkt-service.js:5 | Different countries have different cache keys. |
| Transfermarkt.ParseRow | transfermarkt-service.js:95-160 | A row without a player link yields nothing. Otherwise it yields one player with the table's position (MID when not listed), the raw position text, and the id from the link or index + 1. |
| Transfermarkt.ParseRowsProperties | transfermarkt-service.js:86-163 | At most one player per row, and every position is coarse. An unlisted position gives MID. When every row has a link, every row yields a player. |
| Transfermarkt.MaxPageBounds | transfermarkt-service.js:168-186 | The total is at least 1, at least every matched page number, and either 1 or one of those numbers. |
| Transfermarkt.GetTotalPages | transfermarkt-service.js:168-186 | The loop over the links computes that total. |
| Transfermarkt.GateOf | transfermarkt-service.js:343-351 | A loading or complete state fetches nothing. A state past its total is exhausted. Otherwise the next page is current + 1, within the total. |
| Transfermarkt.HasMoreMeansFetch | transfermarkt-service.js:387-391 | Outside a load, `hasMorePages` is true iff `loadNextPage` would fetch. A country without state starts at page 1. |
| Transfermarkt.Service.HasMorePages | transfermarkt-service.js:387-391 | A country without state reports more pages. Outside a load the answer is true iff `loadNextPage` would fetch a page. |
| Transfermarkt.NextPageStep | transfermarkt-service.js:356-366 | A loaded next page advances the count by one and clears loading. The list is complete iff the total is reached. Up to ids, the players are the old ones plus the page's rows, ordered by value and numbered 1..n. |
| Transfermarkt.NextPageBounded | transfermarkt-service.js:336-382 | The page count stays within 0..total, and only an arriving page moves it. Players are returned iff a page was fetched. |
| Transfermarkt.AfterPagesShape | transfermarkt-service.js:295-314 | The page loop counts the pages loaded. The first page fixes a total in 1..20, and the flags are untouched. |
| Transfermarkt.AfterPagesPlayers | transfermarkt-service.js:295-314 | Up to ids, after the loop the players are exactly all pages' rows, ordered by value and numbered 1..n. |
| Transfermarkt.InitialLoadBlocks | transfermarkt-service.js:290-323 | A load that stops at a thrown page keeps `isLoading`. After it, `loadNextPage` fetches nothing and changes nothing. |
| Transfermarkt.InitialLoadPlayers | transfermarkt-service.js:290-323 | A full initial load holds the rows of its 20 pages, with the page count at 20. |
| Transfermarkt.MergePage | transfermarkt-service.js:307-310 | One loop iteration appends the page, re-sorts, renumbers and counts the page. |
| Transfermarkt.FetchInitialPages | transfermarkt-service.js:295-314 | The loop stops at the first page that fails to arrive, and otherwise loads 20 pages. |
| Transfermarkt.ReadCache | transfermarkt-service.js:191-212 | The entry is returned iff it is present, parseable and not more than 24 hours old. |
| Transfermarkt.CacheLifetime | transfermarkt-service.js:191-227 | A written cache reads back unchanged for 24 hours. After that it reads as nothing and is removed, and no other key is touched. |
| Transfermarkt.BuildCode | transfermarkt-service.js:417 | The code is the first three characters of the key, upper-cased. |
| Transfermarkt.BuildCodes | transfermarkt-service.js:417 | Every known country gets three capitals. For Spain the code is `SPA` and for the Netherlands `NET`. |
| Transfermarkt.Service.constructor | transfermarkt-service.js:245 | The loading-state table starts empty. |
| Transfermarkt.Service.GetLoadingState | transfermarkt-service.js:250-261 | Returns the stored state, or stores and returns a fresh one (page 0 of 20). |
| Transfermarkt.Service.GetCachedData | transfermarkt-service.js:191-212 | Returns the cache read and removes only an expired entry. |
| Transfermarkt.Service.SaveToCache | transfermarkt-service.js:404-408 | Writes the built result, with the loaded page count and time, under the country's cache key. |
| Transfermarkt.Service.ClearCache | transfermarkt-service.js:232-242 | One country loses its cache key and its state. Without a country, all ten countries do. Nothing else changes. |
| Transfermarkt.Service.LoadNextPage | transfermarkt-service.js:336-382 | An unknown country changes nothing. Otherwise the state and result follow the gate and the fetched page. The cache is rewritten only when players are returned. |
| Transfermarkt.Service.FetchNextPage | transfermarkt-service.js:353-381 | The fetch, merge, completion check and cache write of one page. The `finally` clears the loading flag. |
| Transfermarkt.Service.LoadAllPages | transfermarkt-service.js:289-330 | Runs the page loop. The result is cached only when all 20 pages arrived. |
| Transfermarkt.Service.LoadInitialPages | transfermarkt-service.js:266-331 | An unknown country throws. A usable cache restores the state from it. Otherwise the page loop runs from a fresh start. |
| SofaScore.ServicesAgree | sofascore-service.js:7-18 | The SofaScore team table covers exactly the Transfermarkt countries. |
| SofaScore.CoarseOf | sofascore-service.js:125 | G, D, M, F map to the four positions. Any other value passes through. |
| SofaScore.CoarseOfCoarse | sofascore-service.js:21-26 | The result is a coarse position iff the input was a letter code or already coarse. |
| SofaScore.DetailedOf | sofascore-service.js:68-74 | The first detailed code, translated when known. Without one, the coarse position. |
| SofaScore.AgeOn | sofascore-service.js:53-63 | The age is the number of whole years: that anniversary is reached, the next is not. Without a birth date there is no age. |
| SofaScore.CalculateAge | sofascore-service.js:53-63 | Year difference minus one before the birthday gives that age. |
| SofaScore.AgeUnique | sofascore-service.js:53-63 | Any number of years that meets the anniversary test is the computed age. |
| SofaScore.FindRanking | sofascore-service.js:113-118 | The ranking of the first player that has one, or none if no player has one. |
| SofaScore.TransformEntry | sofascore-service.js:120-137 | Id or index + 1, name, mapped positions and club ("Unknown" if missing). Age from the birth date, value or 0. |
| SofaScore.TransformAll | sofascore-service.js:120-137 | One converted entry per API player, at the same index. |
| SofaScore.TransformSofaScoreData | sofascore-service.js:97-157 | An unknown team throws. Otherwise the result is `BuiltFrom` the response: the sorted converted players, the upper-cased three-letter code, the team table's name, local name and id, the first truthy ranking (`N/A` iff there is none), coach "Unknown", confederation "UEFA" and source "SofaScore". |
| SofaScore.BuiltFromUnique | sofascore-service.js:97-157 | That description fixes the team completely: two teams built from the same response for the same country are equal. |
| SofaScore.TransformProperties | sofascore-service.js:140 | The players are a permutation of the converted ones, ordered by value and stable within equal values. Every club is non-empty. |
| SofaScore.LoadFromSofaScore | sofascore-service.js:162-165 | An unknown team and an API error are told apart. Otherwise the loaded team is `BuiltFrom` the response, with every field that `TransformSofaScoreData` states. |
| Download.PySlice | download-data.py:147 | Python slicing: clamped at the end, empty when the start passes the end or the text. |
| Download.SliceRows | download-data.py:141-147 | Row i runs from its start to the next start, or 2000 characters on for the last row. |
| Download.SlicesTile | download-data.py:141-147 | With increasing starts, the rows concatenate to the text from the first start to the end of the last row, without gap or overlap. |
| Download.PlayerOf | download-data.py:201-215 | Builds a player with the table position (MID when unknown), the English detailed label and club "Unknown" when missing. |
| Download.ParsePlayersProperties | download-data.py:136-220 | Every parsed player has one of the four positions. When every row has a name match, every row yields a player. |
| Download.MergePage | download-data.py:243-249 | The inner loop keeps first-seen ids, numbers them on, and counts the new ones. |
| Download.DownloadCountryData | download-data.py:223-276 | An unknown key throws. Otherwise the file holds the merged players of pages 1..20, the country's code, name, local name and confederation, and source Transfermarkt. |
| Download.DownloadProperties | download-data.py:231-276 | Up to ids, the players are the first occurrence of every id across the pages, in order. There are as many as distinct ids, numbered 1..n. |
| Download.FoldKept | download-data.py:243-249 | Up to ids, merging appends exactly the not-yet-seen players, in order. |
| Download.FoldNumbered | download-data.py:247 | Merging keeps the players numbered 1..n. |
| Download.KeptDistinct | download-data.py:245-246 | Kept players have distinct, previously unseen ids. |
| Download.KeptFirst | download-data.py:245-248 | The first occurrence of an unseen id is kept. |
| Download.KeptIds | download-data.py:245-246 | The kept ids are all ids not seen before. |
| Download.FailedPageSkipped | download-data.py:259-261 | A page whose fetch fails contributes nothing. |
| Download.Responses | download-data.py:234-240 | Pages 1..20 are requested in order. |

## Left out

- Rendering, the DOM, toasts, badges, the clipboard, timers and `async` scheduling are outside the model. Work that awaits is sequential, with its results given as parameters.
- HTML parsing is not modelled. `DOMParser` queries and Python regular expressions are replaced by already extracted rows (`Transfermarkt.Row`, `Download.DlRow`) and matched page numbers.
- `parseMarketValue` and `parse_market_value` are not modelled: they work on floating point and locale text. Market values are integers as given.
- Numbers are exact unbounded integers. In JavaScript every number is a double. Ids, market values, their sums (overview.js:72, 155) and the share round trip through `String` and `parseInt` (overview.js:203, 278) are therefore faithful only for magnitudes below 2^53. `Text.ParseDecimal` holds for every integer in the model, but `parseInt(String(n), 10)` gives n back only for safe integers.
- The average age with `toFixed(1)` is not modelled (floating point). `Overview.CalculateStats` returns the age sum instead.
- `btoa` and `atob` are an opaque bijection (`Overview.Token`). URL construction, the 2000-character warning and the URL lengths are not modelled.
- JSON serialisation is replaced by the `Storage.Value` documents. Quota errors from `setItem` are not modelled.
- Prototype-chain keys such as `profiles["__proto__"]` and non-ASCII upper-casing in `toUpperCase` are not modelled.
- The clock is one integer instant per operation. ISO strings and `lastUpdated` dates are not modelled. `calculateAge` takes a calendar date, because the conversion from a Unix timestamp is not modelled. So is `!birthTimestamp` for a timestamp of 0.
- The random number source is six draws in 0..35, given as a parameter.
- The network is given as page or response parameters: `fetchTransfermarktPage`, `fetchSofaScorePlayers`, `fetch_page` and its retries, and the `fetch` of catalogues in `loadFromURL`. Sleeps are not modelled.
- `Overview.LoadFromURL`: the source fetches a country's catalogue once per link part (overview.js:282). The model gives one fetch answer per country, so two parts that name the same country see the same catalogue.
- The following parts of download-data.py are not modelled: `KeyboardInterrupt`, writing the JSON file, printing, `show_help` and `main`.
- `clubs.js` and `find_uruguay.py` are not part of this model.
- `Transfermarkt.Service.LoadAllPages`: the shared loading state is written once, after the page loop. The source writes it during the loop, where callbacks could observe it. Those callbacks are not modelled.
- `Transfermarkt.Service.LoadInitialPages`: the `onProgress` and `onPlayersLoaded` callbacks are not modelled.
- `Transfermarkt.Restored`, `Transfermarkt.Service.LoadNextPage` and `Transfermarkt.Service.LoadInitialPages` return snapshots of the player list. The source returns the live array. On a cache hit the loading state takes over the cached array (transfermarkt-service.js:278, 285). The list at line 378 and `players: state.players` in `buildResult` (line 427) are live too. A later `loadNextPage` changes that array and its player objects in place with `push`, `sort` and the id renumbering (lines 359, 363-364). So in the source, a result a caller already holds changes afterwards. The model does not capture that aliasing.
- `isCurrentlyLoading` (transfermarkt-service.js:396-399) is a plain field read, given by `StateOf(...).isLoading`. `loadFromTransfermarkt` (transfermarkt-service.js:435-437) only forwards to `loadInitialPages`. Neither has a member of its own.
- Extra player fields are not modelled: photos, club logos, jersey numbers, height, foot and the SofaScore id. Nothing in the core reads them.
- `SofaScore.TransformEntry` requires a `player` object on every entry. An entry without one makes the source throw, and that case is not modelled.
- `SofaScore.TransformSofaScoreData`: the team's `flag` and the result's `lastUpdated` date are not modelled. The flag is a display string, and the date comes from the clock.
- `Roster.Toggle`: an id that is neither selected nor in the catalogue makes the source throw at `player.position`. The model reports this as the `UnknownPlayer` outcome and leaves the selection unchanged.
- `Profiles.SaveThenGet` assumes that the squad key is not the current-profile key. The two coincide only for a profile id `current` with country `profile`.
