/** The live Transfermarkt loader: a per-country page-loading state, the list it
    accumulates (re-sorted by market value and renumbered after every page), and a
    catalog cache in `localStorage` that expires after 24 hours. Fetching a page is an
    input: a page is the page numbers its pagination links carry and the player rows it
    lists; the clock is the `now` parameter, in milliseconds. */
module Transfermarkt {
  import opened Common
  import opened Text
  import opened Storage
  import opened Catalog

  const CachePrefix := "tm_players_"
  /** 24 hours, in milliseconds. */
  const CacheExpiryMs := 24 * 60 * 60 * 1000
  const InitialPages := 20
  const MaxTotalPages := 20

  datatype TmCountry = TmCountry(id: int, name: string)

  /** `COUNTRY_IDS`: the countries the service knows, keyed by country key. */
  const CountryIds: map<string, TmCountry> := map[
    "spain" := TmCountry(157, "Spain"),
    "france" := TmCountry(50, "France"),
    "germany" := TmCountry(40, "Germany"),
    "england" := TmCountry(189, "England"),
    "brazil" := TmCountry(26, "Brazil"),
    "argentina" := TmCountry(9, "Argentina"),
    "portugal" := TmCountry(136, "Portugal"),
    "italy" := TmCountry(75, "Italy"),
    "netherlands" := TmCountry(122, "Netherlands"),
    "belgium" := TmCountry(19, "Belgium")]

  /** `Object.keys(COUNTRY_IDS)`, in insertion order. */
  const CountryCodes: seq<string> :=
    ["spain", "france", "germany", "england", "brazil", "argentina", "portugal", "italy", "netherlands", "belgium"]

  lemma CountryCodesAreKeys()
    ensures forall c :: c in CountryCodes <==> c in CountryIds
    ensures forall i, j :: 0 <= i < j < |CountryCodes| ==> CountryCodes[i] != CountryCodes[j]
  {
  }

  function CacheKey(code: string): string {
    CachePrefix + code
  }

  lemma CacheKeyInjective(a: string, b: string)
    ensures CacheKey(a) == CacheKey(b) <==> a == b
  {
    if CacheKey(a) == CacheKey(b) {
      assert a == CacheKey(a)[|CachePrefix|..];
    }
  }

  // ---------------------------------------------------------------- parsing

  /** One `<tr>` of the players table, with its fields already extracted: `spielerId`
      is the number in the `/spieler/<n>` link, when there is one. */
  datatype Row =
    | NoNameLink
    | Row(spielerId: Option<int>, name: string, positionText: string, club: string,
          age: Option<int>, marketValue: int)

  /** The player a row at the given index yields: the id falls back to index + 1 and
      the position goes through the Spanish table. */
  function ParseRow(row: Row, index: nat): (r: seq<Player>)
    ensures row.NoNameLink? <==> r == []
    ensures row.Row? ==>
      |r| == 1 && r[0].position == CoarsePosition(row.positionText)
      && r[0].detailedPosition == row.positionText
      && r[0].id == (if row.spielerId.Some? then row.spielerId.value else index + 1)
  {
    match row
    case NoNameLink => []
    case Row(spielerId, name, positionText, club, age, marketValue) =>
      var id := if spielerId.Some? then spielerId.value else index + 1;
      [Player(id, name, CoarsePosition(positionText), positionText, club, age, Some(marketValue))]
  }

  /** `parsePlayersFromHTML` over the extracted rows. */
  function ParseRows(rows: seq<Row>): seq<Player>
    decreases |rows|
  {
    if rows == [] then [] else ParseRows(rows[..|rows| - 1]) + ParseRow(rows[|rows| - 1], |rows| - 1)
  }

  /** One player per row with a name link, each with a coarse position. */
  lemma {:induction false} ParseRowsProperties(rows: seq<Row>)
    ensures |ParseRows(rows)| <= |rows|
    ensures forall p :: p in ParseRows(rows) ==>
      IsCoarsePosition(p.position) && (p.detailedPosition !in SpanishPositions ==> p.position == MID)
    ensures (forall i :: 0 <= i < |rows| ==> rows[i].Row?) ==> |ParseRows(rows)| == |rows|
    decreases |rows|
  {
    if rows != [] {
      var init := rows[..|rows| - 1];
      ParseRowsProperties(init);
      assert forall i :: 0 <= i < |init| ==> init[i] == rows[i];
    }
  }

  /** A fetched page: the page number matched in each pagination link (None for a link
      without a number) and the player rows. */
  datatype Page = Page(pageNumbers: seq<Option<int>>, rows: seq<Row>)

  /** The largest page number among the links, and 1 when there is none above 1. */
  function MaxPage(links: seq<Option<int>>): int
    decreases |links|
  {
    if links == [] then 1
    else
      var m := MaxPage(links[..|links| - 1]);
      var last := links[|links| - 1];
      if last.Some? && last.value > m then last.value else m
  }

  lemma {:induction false} MaxPageBounds(links: seq<Option<int>>)
    ensures MaxPage(links) >= 1
    ensures forall i :: 0 <= i < |links| && links[i].Some? ==> links[i].value <= MaxPage(links)
    ensures MaxPage(links) == 1 || exists i :: 0 <= i < |links| && links[i] == Some(MaxPage(links))
    decreases |links|
  {
    if links != [] {
      var init := links[..|links| - 1];
      MaxPageBounds(init);
      assert forall i :: 0 <= i < |init| ==> init[i] == links[i];
    }
  }

  /** `getTotalPages`: the loop over the pagination links. */
  method GetTotalPages(links: seq<Option<int>>) returns (maxPage: int)
    ensures maxPage == MaxPage(links)
  {
    maxPage := 1;
    var i := 0;
    while i < |links|
      invariant 0 <= i <= |links|
      invariant maxPage == MaxPage(links[..i])
    {
      assert links[..i + 1][..i] == links[..i];
      if links[i].Some? {
        var pageNum := links[i].value;
        if pageNum > maxPage {
          maxPage := pageNum;
        }
      }
      i := i + 1;
    }
    assert links[..|links|] == links;
  }

  function Min(a: int, b: int): int {
    if a <= b then a else b
  }

  // ---------------------------------------------------------------- loading state

  datatype LoadState = LoadState(currentPage: int, totalPages: int, players: seq<Player>,
                                 isLoading: bool, isComplete: bool)

  const FreshState := LoadState(0, MaxTotalPages, [], false, false)

  /** The state `getLoadingState` returns: the stored one, or a fresh one. */
  function StateOf(states: map<string, LoadState>, code: string): LoadState {
    if code in states then states[code] else FreshState
  }

  /** `hasMorePages` */
  function HasMore(states: map<string, LoadState>, code: string): bool {
    code !in states || (!states[code].isComplete && states[code].currentPage < states[code].totalPages)
  }

  /** What `loadNextPage` does with a state before fetching. */
  datatype Gate = Busy | Exhausted | Fetch(nextPage: int)

  function GateOf(s: LoadState): (r: Gate)
    ensures r.Busy? <==> s.isLoading || s.isComplete
    ensures r.Exhausted? <==> !s.isLoading && !s.isComplete && s.currentPage + 1 > s.totalPages
    ensures r.Fetch? ==> r.nextPage == s.currentPage + 1 && r.nextPage <= s.totalPages
  {
    if s.isLoading || s.isComplete then Busy
    else if s.currentPage + 1 > s.totalPages then Exhausted
    else Fetch(s.currentPage + 1)
  }

  /** `hasMorePages` predicts `loadNextPage`: outside a load, a page is fetched exactly
      when more pages are reported, and a country without state gets its first page. */
  lemma HasMoreMeansFetch(states: map<string, LoadState>, code: string)
    requires !StateOf(states, code).isLoading
    ensures HasMore(states, code) <==> GateOf(StateOf(states, code)).Fetch?
    ensures code !in states ==> GateOf(StateOf(states, code)) == Fetch(1)
  {
  }

  /** The state after one loaded page: the rows appended, the whole list re-sorted and
      renumbered, the page counted. */
  function AfterPage(s: LoadState, page: Page, n: int): LoadState {
    s.(players := Renumber(SortByValue(s.players + ParseRows(page.rows))), currentPage := n)
  }

  /** The state after the first pages of `loadInitialPages`; the first page also
      fixes the page total, capped at 20. */
  function AfterPages(s: LoadState, pages: seq<Page>): LoadState
    decreases |pages|
  {
    if pages == [] then s
    else
      var prev := AfterPages(s, pages[..|pages| - 1]);
      var n := |pages|;
      var withTotal := if n == 1 then prev.(totalPages := Min(MaxPage(pages[0].pageNumbers), MaxTotalPages)) else prev;
      AfterPage(withTotal, pages[n - 1], n)
  }

  /** The players of every page, in page order. */
  function AllRows(pages: seq<Page>): seq<Player>
    decreases |pages|
  {
    if pages == [] then [] else AllRows(pages[..|pages| - 1]) + ParseRows(pages[|pages| - 1].rows)
  }

  /** One unfolding of `AfterPages`. */
  lemma AfterPagesStep(s: LoadState, pages: seq<Page>)
    requires |pages| >= 1
    ensures var prev := AfterPages(s, pages[..|pages| - 1]);
      var r := AfterPages(s, pages);
      && r.players == Renumber(SortByValue(prev.players + ParseRows(pages[|pages| - 1].rows)))
      && r.currentPage == |pages|
      && r.totalPages == (if |pages| == 1 then Min(MaxPage(pages[0].pageNumbers), MaxTotalPages) else prev.totalPages)
      && r.isLoading == prev.isLoading && r.isComplete == prev.isComplete
  {
  }

  /** Loading pages changes neither flag, and once a page is in, the total lies
      between 1 and 20. */
  lemma {:induction false} AfterPagesShape(s: LoadState, pages: seq<Page>)
    ensures var r := AfterPages(s, pages);
      && r.isLoading == s.isLoading && r.isComplete == s.isComplete
      && r.currentPage == (if pages == [] then s.currentPage else |pages|)
      && (pages != [] ==> 1 <= r.totalPages <= MaxTotalPages)
    decreases |pages|
  {
    if pages != [] {
      var init := pages[..|pages| - 1];
      AfterPagesShape(s, init);
      AfterPagesStep(s, pages);
      if |pages| == 1 {
        MaxPageBounds(pages[0].pageNumbers);
      }
    }
  }

  /** A player list as the service keeps it: the given rows up to ids, by
      non-increasing value, numbered 1..n. */
  predicate Merged(players: seq<Player>, rows: seq<Player>) {
    && multiset(Unnumber(players)) == multiset(Unnumber(rows))
    && ByValue(players)
    && (forall i :: 0 <= i < |players| ==> players[i].id == i + 1)
  }

  /** Merging rows into a list that holds `acc` gives a list that holds `acc` and
      the rows. */
  lemma MergeRows(prev: seq<Player>, rows: seq<Player>, acc: seq<Player>)
    requires multiset(Unnumber(prev)) == multiset(Unnumber(acc))
    ensures Merged(Renumber(SortByValue(prev + rows)), acc + rows)
  {
    SortAndNumberProperties(prev + rows);
    UnnumberConcat(prev, rows);
    UnnumberConcat(acc, rows);
  }

  lemma MergeKeeps(prev: seq<Player>, rows: seq<Player>, acc: seq<Player>)
    requires multiset(Unnumber(prev)) == multiset(Unnumber(acc))
    ensures multiset(Unnumber(Renumber(SortByValue(prev + rows)))) == multiset(Unnumber(acc + rows))
  {
    SortAndNumberKeeps(prev + rows);
    UnnumberConcat(prev, rows);
    UnnumberConcat(acc, rows);
  }

  /** The players after one more initial page. */
  lemma AfterPagesStepPlayers(s: LoadState, pages: seq<Page>)
    requires |pages| >= 1
    ensures AfterPages(s, pages).players
      == Renumber(SortByValue(AfterPages(s, pages[..|pages| - 1]).players + ParseRows(pages[|pages| - 1].rows)))
  {
  }

  /** The initial pages hold, up to ids, exactly the parsed players of those pages. */
  lemma {:induction false} AfterPagesHolds(s: LoadState, pages: seq<Page>)
    requires s.players == []
    ensures multiset(Unnumber(AfterPages(s, pages).players)) == multiset(Unnumber(AllRows(pages)))
    decreases |pages|
  {
    if pages != [] {
      var n := |pages|;
      var init := pages[..n - 1];
      AfterPagesHolds(s, init);
      AfterPagesStepPlayers(s, pages);
      assert AllRows(pages) == AllRows(init) + ParseRows(pages[n - 1].rows);
      MergeKeeps(AfterPages(s, init).players, ParseRows(pages[n - 1].rows), AllRows(init));
    }
  }

  /** After the initial pages the list holds every parsed player of those pages. */
  lemma AfterPagesPlayers(s: LoadState, pages: seq<Page>)
    requires s.players == []
    ensures Merged(AfterPages(s, pages).players, AllRows(pages))
  {
    AfterPagesHolds(s, pages);
    if pages != [] {
      var n := |pages|;
      AfterPagesStep(s, pages);
      MergeRows(AfterPages(s, pages[..n - 1]).players, ParseRows(pages[n - 1].rows), AllRows(pages[..n - 1]));
    }
  }

  // ---------------------------------------------------------------- cache

  /** A cache entry is expired when more than 24 hours passed since it was written. A
      stored document without `cachedAt` gives an invalid date, and the comparison
      with NaN is false: such a document never expires. */
  predicate Expired(v: Value, now: int) {
    v.CacheDoc? && now - v.cache.cachedAt > CacheExpiryMs
  }

  /** What `getCachedData` returns: nothing for a missing, empty, unparseable or
      expired entry, otherwise the stored document. */
  function ReadCache(items: map<string, Value>, code: string, now: int): (r: Option<Value>)
    ensures r.Some? ==> CacheKey(code) in items && r.value == items[CacheKey(code)] && !Expired(r.value, now)
    ensures r.None? <==> Parsed(items, CacheKey(code)).None? || Expired(items[CacheKey(code)], now)
  {
    var d := Parsed(items, CacheKey(code));
    if d.Some? && !Expired(d.value, now) then d else None
  }

  /** The store after `getCachedData`: only an expired entry is removed. */
  function AfterRead(items: map<string, Value>, code: string, now: int): map<string, Value> {
    var d := Parsed(items, CacheKey(code));
    if d.Some? && Expired(d.value, now) then items - {CacheKey(code)} else items
  }

  /** A cache written at time t reads back unchanged for 24 hours, and after that reads
      as nothing and is removed; no other key is touched. */
  lemma CacheLifetime(items: map<string, Value>, code: string, c: Cache, now: int)
    ensures var written := items[CacheKey(code) := CacheDoc(c)];
      && (now - c.cachedAt <= CacheExpiryMs ==>
            ReadCache(written, code, now) == Some(CacheDoc(c)) && AfterRead(written, code, now) == written)
      && (now - c.cachedAt > CacheExpiryMs ==>
            ReadCache(written, code, now).None? && AfterRead(written, code, now) == items - {CacheKey(code)})
  {
    var written := items[CacheKey(code) := CacheDoc(c)];
    assert written - {CacheKey(code)} == items - {CacheKey(code)};
  }

  /** `countryCode.toUpperCase().substring(0, 3)` (upper-casing of ASCII letters). */
  function BuildCode(code: string): (r: string)
    ensures |r| == Min(3, |code|)
    ensures forall i :: 0 <= i < |r| ==> r[i] == UpperChar(code[i])
  {
    ToUpper(code)[..Min(3, |code|)]
  }

  /** Every known country gets three capitals: the first three letters of its key,
      which is not always its FIFA code (`SPA` for Spain, `NET` for the Netherlands). */
  lemma BuildCodes()
    ensures forall c :: c in CountryIds ==> |BuildCode(c)| == 3 && forall i :: 0 <= i < 3 ==> 'A' <= BuildCode(c)[i] <= 'Z'
    ensures BuildCode("spain") == "SPA" && BuildCode("netherlands") == "NET"
  {
    assert BuildCode("spain") == "SPA";
    assert BuildCode("netherlands") == "NET";
  }

  /** The cache document `saveToCacheIncremental` writes: the built result with the
      loaded page count. */
  function CacheOf(code: string, s: LoadState, now: int): Cache {
    Cache(BuildCode(code), s.players, s.isComplete, s.currentPage, s.totalPages, s.currentPage, now)
  }

  /** The players of a cached document: `cached.players`, when it is a list. */
  function DocPlayers(v: Value): seq<Player> {
    match v
    case SquadDoc(sq) => sq.players
    case CacheDoc(c) => c.players
    case _ => []
  }

  /** The state restored from a cache hit: `cached.loadedPages || 20` and
      `cached.isComplete || false`. */
  function Restored(s: LoadState, v: Value): LoadState {
    var loaded := if v.CacheDoc? && v.cache.loadedPages != 0 then v.cache.loadedPages else InitialPages;
    s.(players := DocPlayers(v), currentPage := loaded, isComplete := v.CacheDoc? && v.cache.isComplete)
  }

  /** The start of a full load. */
  function Started(s: LoadState): LoadState {
    s.(isLoading := true, players := [], currentPage := 0)
  }

  datatype NextResult = NoPage | NextThrew | Players(players: seq<Player>)

  datatype InitResult =
    | UnknownCountry
    | FromCache(cached: Value)
    | InitThrew(page: int)
    | Loaded(code: string, name: string, players: seq<Player>, isComplete: bool, currentPage: int, totalPages: int)

  /** The state `loadNextPage` leaves behind, once `finally` has cleared the loading
      flag: a fetched page is merged in and the total reached marks the list complete;
      a throw leaves the state as it was. */
  function NextState(s: LoadState, fetched: Option<Page>): LoadState {
    match GateOf(s)
    case Busy => s
    case Exhausted => s.(isComplete := true)
    case Fetch(next) =>
      if fetched.None? then s
      else
        var a := AfterPage(s, fetched.value, next);
        a.(isComplete := next >= a.totalPages)
  }

  /** What `loadNextPage` returns. */
  function NextOutcome(s: LoadState, fetched: Option<Page>): NextResult {
    match GateOf(s)
    case Fetch(_) => if fetched.None? then NextThrew else Players(NextState(s, fetched).players)
    case _ => NoPage
  }

  /** A loaded next page: one page further, not loading, complete exactly when the
      total is reached, and the list is the old list plus the page's rows (up to ids),
      by non-increasing value, numbered 1..n. */
  lemma NextPageStep(s: LoadState, page: Page)
    requires GateOf(s).Fetch?
    ensures var r := NextState(s, Some(page));
      && r.currentPage == s.currentPage + 1 && r.totalPages == s.totalPages
      && !r.isLoading && (r.isComplete <==> r.currentPage >= r.totalPages)
      && Merged(r.players, s.players + ParseRows(page.rows))
      && NextOutcome(s, Some(page)) == Players(r.players)
  {
    MergeRows(s.players, ParseRows(page.rows), s.players);
  }

  /** `loadNextPage` never runs the page count past the total, and only a page that
      arrives moves the count. */
  lemma NextPageBounded(s: LoadState, fetched: Option<Page>)
    requires 0 <= s.currentPage <= s.totalPages
    ensures var r := NextState(s, fetched);
      && 0 <= r.currentPage <= r.totalPages && r.totalPages == s.totalPages
      && (r.currentPage != s.currentPage <==> GateOf(s).Fetch? && fetched.Some?)
      && (NextOutcome(s, fetched).Players? <==> GateOf(s).Fetch? && fetched.Some?)
  {
  }

  /** What the page loop of `loadInitialPages` leaves: with fewer than 20 pages the
      loop stops at the throw with the loading flag still set; with 20 it clears the
      flag and decides completeness. */
  function InitialLoad(s: LoadState, pages: seq<Page>): LoadState {
    if |pages| < InitialPages then AfterPages(Started(s), pages)
    else
      var d := AfterPages(Started(s), pages[..InitialPages]);
      d.(isLoading := false, isComplete := d.currentPage >= d.totalPages)
  }

  function InitialOutcome(code: string, name: string, s: LoadState, pages: seq<Page>): InitResult
  {
    if |pages| < InitialPages then InitThrew(|pages| + 1)
    else
      var f := InitialLoad(s, pages);
      Loaded(BuildCode(code), name, f.players, f.isComplete, f.currentPage, f.totalPages)
  }

  /** `loadInitialPages` answers from the cache when it may and the cached document
      has players. */
  predicate CacheHit(items: map<string, Value>, code: string, forceRefresh: bool, now: int) {
    !forceRefresh && ReadCache(items, code, now).Some? && |DocPlayers(ReadCache(items, code, now).value)| > 0
  }

  /** One unfolding of `AfterPages` on a prefix. */
  lemma AfterPagesSnoc(s: LoadState, pages: seq<Page>, k: int)
    requires 0 <= k < |pages|
    ensures AfterPages(s, pages[..k + 1]) ==
      var prev := AfterPages(s, pages[..k]);
      var withTotal := if k == 0 then prev.(totalPages := Min(MaxPage(pages[0].pageNumbers), MaxTotalPages)) else prev;
      AfterPage(withTotal, pages[k], k + 1)
  {
    assert pages[..k + 1][..k] == pages[..k];
  }

  /** A failed initial load blocks infinite scroll: without a `finally` the loading
      flag stays set, so `loadNextPage` refuses and changes nothing. A full load
      instead ends complete, and `loadNextPage` refuses for that reason. */
  lemma InitialLoadBlocks(s: LoadState, pages: seq<Page>, fetched: Option<Page>)
    ensures var r := InitialLoad(s, pages);
      && (|pages| < InitialPages ==> r.isLoading)
      && (|pages| >= InitialPages ==> !r.isLoading && r.isComplete)
      && GateOf(r) == Busy && NextState(r, fetched) == r && NextOutcome(r, fetched) == NoPage
  {
    if |pages| < InitialPages {
      AfterPagesShape(Started(s), pages);
    } else {
      AfterPagesShape(Started(s), pages[..InitialPages]);
    }
  }

  /** After a full initial load the list holds every row of the 20 pages (up to ids),
      by non-increasing value, numbered 1..n. */
  lemma InitialLoadPlayers(s: LoadState, pages: seq<Page>)
    requires |pages| >= InitialPages
    ensures var r := InitialLoad(s, pages);
      && Merged(r.players, AllRows(pages[..InitialPages]))
      && r.currentPage == InitialPages
  {
    AfterPagesPlayers(Started(s), pages[..InitialPages]);
    AfterPagesShape(Started(s), pages[..InitialPages]);
  }

  /** One fetched page merged into the state: its rows appended, the whole list sorted
      by value and renumbered, the page counted. */
  method MergePage(state: LoadState, html: Page, page: int) returns (next: LoadState)
    ensures next == AfterPage(state, html, page)
  {
    var players := ParseRows(html.rows);
    var sorted := SortAndNumber(state.players + players);
    next := state.(players := sorted, currentPage := page);
  }

  /** The page loop of `loadInitialPages`: pages 1 to 20 in turn, the first also
      fixing the total; it stops at the first page whose fetch throws. */
  method FetchInitialPages(start: LoadState, pages: seq<Page>) returns (state: LoadState, failedAt: Option<int>)
    ensures failedAt == (if |pages| < InitialPages then Some(|pages| + 1) else None)
    ensures state == AfterPages(start, pages[..Min(|pages|, InitialPages)])
  {
    state := start;
    var page := 1;
    while page <= InitialPages
      invariant 1 <= page <= InitialPages + 1
      invariant page - 1 <= |pages|
      invariant state == AfterPages(start, pages[..page - 1])
    {
      if page - 1 >= |pages| {
        return state, Some(page);
      }
      var html := pages[page - 1];
      AfterPagesSnoc(start, pages, page - 1);
      if page == 1 {
        var total := GetTotalPages(html.pageNumbers);
        state := state.(totalPages := Min(total, MaxTotalPages));
      }
      state := MergePage(state, html, page);
      page := page + 1;
    }
    failedAt := None;
  }

  /** The keys and codes the clear-all loop has handled after i rounds. */
  lemma ClearedStep(i: int)
    requires 0 <= i < |CountryCodes|
    ensures (set j | 0 <= j < i + 1 :: CacheKey(CountryCodes[j]))
      == (set j | 0 <= j < i :: CacheKey(CountryCodes[j])) + {CacheKey(CountryCodes[i])}
    ensures (set j | 0 <= j < i + 1 :: CountryCodes[j]) == (set j | 0 <= j < i :: CountryCodes[j]) + {CountryCodes[i]}
  {
  }

  lemma ClearedAll()
    ensures (set j | 0 <= j < |CountryCodes| :: CacheKey(CountryCodes[j])) == (set c | c in CountryCodes :: CacheKey(c))
    ensures (set j | 0 <= j < |CountryCodes| :: CountryCodes[j]) == (set c | c in CountryCodes)
  {
  }

  class Service {
    const store: Store
    var loadingState: map<string, LoadState>

    constructor(store: Store)
      ensures this.store == store && loadingState == map[]
    {
      this.store := store;
      loadingState := map[];
    }

    /** `getLoadingState`: a fresh state is created only for a country without one. */
    method GetLoadingState(code: string) returns (s: LoadState)
      modifies this
      ensures s == StateOf(old(loadingState), code)
      ensures loadingState == old(loadingState)[code := s]
      ensures code in old(loadingState) ==> loadingState == old(loadingState)
    {
      if code !in loadingState {
        loadingState := loadingState[code := FreshState];
      }
      s := loadingState[code];
    }

    /** `hasMorePages`: a country without state reports more pages, and outside a load
        the answer is whether `loadNextPage` would fetch. */
    function HasMorePages(code: string): (r: bool)
      reads this
      ensures code !in loadingState ==> r
      ensures !StateOf(loadingState, code).isLoading ==> (r <==> GateOf(StateOf(loadingState, code)).Fetch?)
    {
      HasMore(loadingState, code)
    }

    /** `getCachedData` */
    method GetCachedData(code: string, now: int) returns (r: Option<Value>)
      modifies store
      ensures r == ReadCache(old(store.items), code, now)
      ensures store.items == AfterRead(old(store.items), code, now)
    {
      var cached := store.GetItem(CacheKey(code));
      if cached.None? || !Truthy(cached.value) {
        return None;
      }
      if cached.value.Raw? {
        return None;
      }
      if Expired(cached.value, now) {
        store.RemoveItem(CacheKey(code));
        return None;
      }
      r := cached;
    }

    /** `saveToCacheIncremental` */
    method SaveToCache(code: string, s: LoadState, now: int)
      modifies store
      ensures store.items == old(store.items)[CacheKey(code) := CacheDoc(CacheOf(code, s, now))]
    {
      store.SetItem(CacheKey(code), CacheDoc(CacheOf(code, s, now)));
    }

    /** `clearCache(countryCode)`: one country when a key is given, otherwise every
      known country. */
    method ClearCache(code: Option<string>)
      modifies this, store
      ensures code.Some? && code.value != "" ==>
        store.items == old(store.items) - {CacheKey(code.value)} && loadingState == old(loadingState) - {code.value}
      ensures !(code.Some? && code.value != "") ==>
        store.items == old(store.items) - (set c | c in CountryCodes :: CacheKey(c))
        && loadingState == old(loadingState) - (set c | c in CountryCodes)
    {
      if code.Some? && code.value != "" {
        store.RemoveItem(CacheKey(code.value));
        loadingState := loadingState - {code.value};
        return;
      }
      var i := 0;
      while i < |CountryCodes|
        invariant 0 <= i <= |CountryCodes|
        invariant store.items == old(store.items) - (set j | 0 <= j < i :: CacheKey(CountryCodes[j]))
        invariant loadingState == old(loadingState) - (set j | 0 <= j < i :: CountryCodes[j])
      {
        var c := CountryCodes[i];
        store.RemoveItem(CacheKey(c));
        loadingState := loadingState - {c};
        ClearedStep(i);
        i := i + 1;
      }
      ClearedAll();
    }

    /** `loadNextPage`. `fetched` is the next page, None when its fetch throws; the
        `finally` clears the loading flag either way. An unknown country returns
        null before creating any state. */
    method LoadNextPage(code: string, fetched: Option<Page>, now: int) returns (r: NextResult)
      modifies this, store
      ensures code !in CountryIds ==>
        r == NoPage && loadingState == old(loadingState) && store.items == old(store.items)
      ensures code in CountryIds ==>
        && r == NextOutcome(StateOf(old(loadingState), code), fetched)
        && loadingState == old(loadingState)[code := NextState(StateOf(old(loadingState), code), fetched)]
      ensures code in CountryIds && r.Players? ==>
        store.items == old(store.items)[CacheKey(code) := CacheDoc(CacheOf(code, NextState(StateOf(old(loadingState), code), fetched), now))]
      ensures !(code in CountryIds && r.Players?) ==> store.items == old(store.items)
    {
      if code !in CountryIds {
        return NoPage;
      }
      var state := GetLoadingState(code);
      if state.isLoading || state.isComplete {
        return NoPage;
      }
      var nextPage := state.currentPage + 1;
      if nextPage > state.totalPages {
        loadingState := loadingState[code := state.(isComplete := true)];
        return NoPage;
      }
      r := FetchNextPage(code, state, fetched, now);
    }

    /** The `try`/`finally` part of `loadNextPage`, once the gate let the fetch through. */
    method FetchNextPage(code: string, state: LoadState, fetched: Option<Page>, now: int) returns (r: NextResult)
      requires GateOf(state).Fetch?
      modifies this, store
      ensures r == NextOutcome(state, fetched)
      ensures loadingState == old(loadingState)[code := NextState(state, fetched)]
      ensures r.Players? ==> store.items == old(store.items)[CacheKey(code) := CacheDoc(CacheOf(code, NextState(state, fetched), now))]
      ensures !r.Players? ==> store.items == old(store.items)
    {
      var nextPage := state.currentPage + 1;
      loadingState := loadingState[code := state.(isLoading := true)];
      if fetched.None? {
        UpdateTwice(old(loadingState), code, state.(isLoading := true), state);
        loadingState := loadingState[code := state];
        return NextThrew;
      }
      var loaded := MergePage(state.(isLoading := true), fetched.value, nextPage);
      loaded := loaded.(isComplete := loaded.currentPage >= loaded.totalPages);
      UpdateTwice(old(loadingState), code, state.(isLoading := true), loaded);
      loadingState := loadingState[code := loaded];
      SaveToCache(code, loaded, now);
      UpdateTwice(old(loadingState), code, loaded, loaded.(isLoading := false));
      loadingState := loadingState[code := loaded.(isLoading := false)];
      r := Players(loaded.players);
    }

    /** `loadInitialPages` from the point where the state is reset. */
    method LoadAllPages(code: string, name: string, pages: seq<Page>, now: int) returns (r: InitResult)
      modifies this, store
      ensures loadingState == old(loadingState)[code := InitialLoad(StateOf(old(loadingState), code), pages)]
      ensures r == InitialOutcome(code, name, StateOf(old(loadingState), code), pages)
      ensures |pages| >= InitialPages ==>
        store.items == old(store.items)[CacheKey(code) := CacheDoc(CacheOf(code, InitialLoad(StateOf(old(loadingState), code), pages), now))]
      ensures |pages| < InitialPages ==> store.items == old(store.items)
    {
      ghost var s := StateOf(old(loadingState), code);
      var state := GetLoadingState(code);
      var start := Started(state);
      var failedAt;
      state, failedAt := FetchInitialPages(start, pages);
      UpdateTwice(old(loadingState), code, s, state);
      loadingState := loadingState[code := state];
      if failedAt.Some? {
        assert pages[..Min(|pages|, InitialPages)] == pages;
        return InitThrew(failedAt.value);
      }
      ghost var loaded := state;
      state := state.(isLoading := false);
      state := state.(isComplete := state.currentPage >= state.totalPages);
      UpdateTwice(old(loadingState), code, loaded, state);
      loadingState := loadingState[code := state];
      SaveToCache(code, state, now);
      r := Loaded(BuildCode(code), name, state.players, state.isComplete, state.currentPage, state.totalPages);
    }

    /** `loadInitialPages`. Page k (1-based) is fetched successfully when k <= |pages|
        and throws otherwise. There is no `finally` here: a throw leaves the loading
        flag set. */
    method LoadInitialPages(code: string, forceRefresh: bool, pages: seq<Page>, now: int) returns (r: InitResult)
      modifies this, store
      ensures code !in CountryIds ==>
        r == UnknownCountry && loadingState == old(loadingState) && store.items == old(store.items)
      ensures code in CountryIds && CacheHit(old(store.items), code, forceRefresh, now) ==>
        var v := ReadCache(old(store.items), code, now).value;
        r == FromCache(v)
        && loadingState == old(loadingState)[code := Restored(StateOf(old(loadingState), code), v)]
        && store.items == AfterRead(old(store.items), code, now)
      ensures code in CountryIds && !CacheHit(old(store.items), code, forceRefresh, now) ==>
        var read := if forceRefresh then old(store.items) else AfterRead(old(store.items), code, now);
        var s := StateOf(old(loadingState), code);
        r == InitialOutcome(code, CountryIds[code].name, s, pages)
        && loadingState == old(loadingState)[code := InitialLoad(s, pages)]
        && store.items == (if |pages| >= InitialPages then read[CacheKey(code) := CacheDoc(CacheOf(code, InitialLoad(s, pages), now))] else read)
    {
      if code !in CountryIds {
        return UnknownCountry;
      }
      if !forceRefresh {
        var cached := GetCachedData(code, now);
        if cached.Some? && |DocPlayers(cached.value)| > 0 {
          var state := GetLoadingState(code);
          loadingState := loadingState[code := Restored(state, cached.value)];
          return FromCache(cached.value);
        }
      }
      r := LoadAllPages(code, CountryIds[code].name, pages, now);
    }
  }
}
