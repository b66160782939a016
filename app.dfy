/** The squad-builder page: its module-level state (loaded catalogs, current country,
    selection, position filter, loading flag) as the fields of one object, and the
    handlers that change them. Fetching a catalog is an input: `fetched` is what the
    request for the country's JSON file yields, None when it fails. */
module App {
  import opened Common
  import opened Storage
  import opened Keys
  import opened Roster

  /** A catalog file as it is kept in `playersData`; `players` may be missing. */
  datatype CountryData = CountryData(players: Option<seq<Player>>)

  /** The list `togglePlayer` works on, or None when the country has no player list. */
  function CatalogOf(data: map<string, CountryData>, country: string): Option<seq<Player>> {
    if country in data then data[country].players else None
  }

  /** The position filter of the available-players list. */
  function FilterByPosition(players: seq<Player>, filter: string): (r: seq<Player>)
    ensures filter == "all" ==> r == players
    ensures filter != "all" ==> forall p :: p in r <==> p in players && p.position == filter
    ensures |r| <= |players|
  {
    if filter == "all" then players else Filter(players, (p: Player) => p.position == filter)
  }

  /** The filter keeps the catalog's order: filtering a concatenation filters each
      part. */
  lemma FilterByPositionOrder(a: seq<Player>, b: seq<Player>, filter: string)
    ensures FilterByPosition(a + b, filter) == FilterByPosition(a, filter) + FilterByPosition(b, filter)
  {
    if filter != "all" {
      FilterConcat(a, b, (p: Player) => p.position == filter);
    }
  }

  /** What `loadSavedSquad` finds under the single-profile key of a country. */
  datatype Saved = NothingSaved | Restored(players: seq<Player>) | Unparseable

  /** `data.players || []` over the stored document. */
  function SavedSelection(items: map<string, Value>, country: string): (r: Saved)
    ensures r.NothingSaved? <==> !Present(items, LegacyKey(country))
    ensures r.Unparseable? <==> Present(items, LegacyKey(country)) && items[LegacyKey(country)].Raw?
    ensures Present(items, LegacyKey(country)) && items[LegacyKey(country)].SquadDoc? ==>
      r == Restored(items[LegacyKey(country)].squad.players)
  {
    var k := LegacyKey(country);
    if !Present(items, k) then NothingSaved
    else match items[k]
      case Raw(_) => Unparseable
      case SquadDoc(sq) => Restored(sq.players)
      case CacheDoc(c) => Restored(c.players)
      case ProfilesDoc(_) => Restored([])
  }

  /** A saved non-empty selection is restored exactly. */
  lemma SaveThenLoad(items: map<string, Value>, country: string, sel: seq<Player>, now: int)
    ensures SavedSelection(items[LegacyKey(country) := SquadDoc(Squad(country, sel, now))], country) == Restored(sel)
  {
  }

  class App {
    const store: Store
    var playersData: map<string, CountryData>
    var currentCountry: string
    var selectedPlayers: seq<Player>
    var currentFilter: string
    var isLoading: bool

    constructor(store: Store)
      ensures this.store == store
      ensures playersData == map[] && currentCountry == "spain" && selectedPlayers == []
      ensures currentFilter == "all" && !isLoading
    {
      this.store := store;
      playersData := map[];
      currentCountry := "spain";
      selectedPlayers := [];
      currentFilter := "all";
      isLoading := false;
    }

    /** The players the page lists under the current filter. */
    function AvailablePlayers(): (r: seq<Player>)
      reads this
      ensures CatalogOf(playersData, currentCountry).None? ==> r == []
      ensures CatalogOf(playersData, currentCountry).Some? ==>
        r == FilterByPosition(CatalogOf(playersData, currentCountry).value, currentFilter)
    {
      match CatalogOf(playersData, currentCountry)
      case None => []
      case Some(ps) => FilterByPosition(ps, currentFilter)
    }

    /** `loadCountryData`: a memoised catalog is returned without fetching; otherwise
        the fetched one is remembered when the fetch succeeds. */
    method LoadCountryData(code: string, fetched: Option<CountryData>) returns (r: Option<CountryData>)
      modifies this
      ensures code in old(playersData) ==>
        r == Some(old(playersData)[code]) && playersData == old(playersData) && isLoading == old(isLoading)
      ensures code !in old(playersData) ==> r == fetched && !isLoading
      ensures code !in old(playersData) && fetched.Some? ==> playersData == old(playersData)[code := fetched.value]
      ensures code !in old(playersData) && fetched.None? ==> playersData == old(playersData)
      ensures currentCountry == old(currentCountry) && selectedPlayers == old(selectedPlayers)
      ensures currentFilter == old(currentFilter)
    {
      if code in playersData {
        return Some(playersData[code]);
      }
      isLoading := true;
      if fetched.Some? {
        playersData := playersData[code := fetched.value];
      }
      r := fetched;
      isLoading := false;
    }

    method TogglePlayer(id: int) returns (outcome: Outcome)
      modifies this
      ensures var step := Toggle(CatalogOf(old(playersData), old(currentCountry)), old(selectedPlayers), id);
        outcome == step.outcome && selectedPlayers == step.selection
      ensures playersData == old(playersData) && currentCountry == old(currentCountry)
      ensures currentFilter == old(currentFilter) && isLoading == old(isLoading)
    {
      var step := Toggle(CatalogOf(playersData, currentCountry), selectedPlayers, id);
      var catalog := CatalogOf(playersData, currentCountry);
      if catalog.None? {
        return NoCatalog;
      }
      var player := Find(catalog.value, id);
      var isSelected := HasId(selectedPlayers, id);
      if isSelected {
        selectedPlayers := RemoveId(selectedPlayers, id);
        return Removed;
      }
      if player.None? {
        return UnknownPlayer;
      }
      var gkCount := GoalkeeperCount(selectedPlayers);
      var outfieldCount := OutfieldCount(selectedPlayers);
      if player.value.position == GK {
        if gkCount >= MaxGoalkeepers {
          return GoalkeeperLimit;
        }
      } else {
        if outfieldCount >= MaxOutfield {
          return OutfieldLimit;
        }
      }
      if |selectedPlayers| >= MaxSquadSize {
        return SquadFull;
      }
      selectedPlayers := selectedPlayers + [player.value];
      outcome := Added;
    }

    /** The save button: an empty selection writes nothing. */
    method SaveSquad(now: int) returns (saved: bool)
      modifies store
      ensures saved <==> old(selectedPlayers) != []
      ensures saved ==>
        store.items == old(store.items)[LegacyKey(currentCountry) := SquadDoc(Squad(currentCountry, selectedPlayers, now))]
      ensures !saved ==> store.items == old(store.items)
    {
      if |selectedPlayers| == 0 {
        return false;
      }
      var squadData := Squad(currentCountry, selectedPlayers, now);
      store.SetItem(LegacyKey(currentCountry), SquadDoc(squadData));
      saved := true;
    }

    /** `loadSavedSquad`; `thrown` is set when `JSON.parse` throws, which leaves the
        selection as it was. */
    method LoadSavedSquad() returns (thrown: bool)
      modifies this
      ensures var s := SavedSelection(store.items, currentCountry);
        && (thrown <==> s.Unparseable?)
        && (s.Restored? ==> selectedPlayers == s.players)
        && (!s.Restored? ==> selectedPlayers == old(selectedPlayers))
      ensures playersData == old(playersData) && currentCountry == old(currentCountry)
      ensures currentFilter == old(currentFilter) && isLoading == old(isLoading)
    {
      var saved := store.GetItem(LegacyKey(currentCountry));
      thrown := false;
      if saved.Some? && Truthy(saved.value) {
        match saved.value
        case Raw(_) =>
          thrown := true;
        case SquadDoc(sq) =>
          selectedPlayers := sq.players;
        case CacheDoc(c) =>
          selectedPlayers := c.players;
        case ProfilesDoc(_) =>
          selectedPlayers := [];
      }
    }

    /** The country selector: switch, empty the selection, load the catalog, then
        restore the saved squad if there is one. */
    method ChangeCountry(code: string, fetched: Option<CountryData>) returns (thrown: bool)
      modifies this
      ensures currentCountry == code
      ensures var s := SavedSelection(store.items, code);
        && (thrown <==> s.Unparseable?)
        && selectedPlayers == (if s.Restored? then s.players else [])
      ensures code in old(playersData) ==> playersData == old(playersData)
      ensures code !in old(playersData) && fetched.Some? ==> playersData == old(playersData)[code := fetched.value]
      ensures code !in old(playersData) && fetched.None? ==> playersData == old(playersData)
      ensures code in old(playersData) ==> isLoading == old(isLoading)
      ensures code !in old(playersData) ==> !isLoading
      ensures currentFilter == old(currentFilter)
    {
      currentCountry := code;
      selectedPlayers := [];
      var _ := LoadCountryData(currentCountry, fetched);
      thrown := LoadSavedSquad();
    }

    method ClearSquad()
      modifies this
      ensures selectedPlayers == []
      ensures playersData == old(playersData) && currentCountry == old(currentCountry)
      ensures currentFilter == old(currentFilter) && isLoading == old(isLoading)
    {
      selectedPlayers := [];
    }

    /** A filter button: only the filter changes, never the selection. */
    method SetFilter(position: string)
      modifies this
      ensures currentFilter == position
      ensures selectedPlayers == old(selectedPlayers) && playersData == old(playersData)
      ensures currentCountry == old(currentCountry) && isLoading == old(isLoading)
    {
      currentFilter := position;
    }

    /** Page start: load the current country's catalog and restore its saved squad. */
    method Init(fetched: Option<CountryData>) returns (thrown: bool)
      modifies this
      ensures currentCountry == old(currentCountry)
      ensures var s := SavedSelection(store.items, currentCountry);
        && (thrown <==> s.Unparseable?)
        && (s.Restored? ==> selectedPlayers == s.players)
        && (!s.Restored? ==> selectedPlayers == old(selectedPlayers))
      ensures currentCountry in old(playersData) ==> playersData == old(playersData)
      ensures currentCountry !in old(playersData) && fetched.Some? ==>
        playersData == old(playersData)[currentCountry := fetched.value]
      ensures currentCountry !in old(playersData) && fetched.None? ==> playersData == old(playersData)
      ensures currentCountry in old(playersData) ==> isLoading == old(isLoading)
      ensures currentCountry !in old(playersData) ==> !isLoading
      ensures currentFilter == old(currentFilter)
    {
      var _ := LoadCountryData(currentCountry, fetched);
      thrown := LoadSavedSquad();
    }
  }
}
