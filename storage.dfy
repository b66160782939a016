/** The browser's `localStorage`: one flat map from keys to stored text.
    The JSON documents the pages store are kept as structured values; text that is
    not a document the pages wrote is `Raw`, and reading it back with `JSON.parse`
    fails. */
module Storage {
  import opened Common

  /** One entry of the profile metadata table; the ISO timestamps are clock readings. */
  datatype ProfileMeta = ProfileMeta(id: string, name: string, createdAt: int, updatedAt: int)

  /** `{country, players, savedAt}` as the squad pages save it. */
  datatype Squad = Squad(country: string, players: seq<Player>, savedAt: int)

  /** The cached catalog the Transfermarkt service writes, with its page counters. */
  datatype Cache = Cache(
    code: string,
    players: seq<Player>,
    isComplete: bool,
    currentPage: int,
    totalPages: int,
    loadedPages: int,
    cachedAt: int)

  datatype Value =
    | Raw(text: string)
    | SquadDoc(squad: Squad)
    | ProfilesDoc(table: map<string, ProfileMeta>)
    | CacheDoc(cache: Cache)

  /** Only the empty string is a falsy stored value. */
  predicate Truthy(v: Value) {
    !(v.Raw? && v.text == "")
  }

  /** `localStorage.getItem(k)` is truthy. */
  predicate Present(items: map<string, Value>, k: string) {
    k in items && Truthy(items[k])
  }

  /** `JSON.parse(localStorage.getItem(k))` succeeds on a truthy value. */
  function Parsed(items: map<string, Value>, k: string): (r: Option<Value>)
    ensures r.Some? <==> k in items && !items[k].Raw?
    ensures r.Some? ==> Present(items, k) && r.value == items[k]
  {
    if k in items && !items[k].Raw? then Some(items[k]) else None
  }

  class Store {
    var items: map<string, Value>

    constructor()
      ensures items == map[]
    {
      items := map[];
    }

    method GetItem(k: string) returns (v: Option<Value>)
      ensures v.Some? <==> k in items
      ensures v.Some? ==> v.value == items[k]
    {
      if k in items {
        v := Some(items[k]);
      } else {
        v := None;
      }
    }

    method SetItem(k: string, v: Value)
      modifies this
      ensures items == old(items)[k := v]
    {
      items := items[k := v];
    }

    method RemoveItem(k: string)
      modifies this
      ensures items == old(items) - {k}
    {
      items := items - {k};
    }
  }
}
