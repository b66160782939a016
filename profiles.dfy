/** The profile manager: several named World Cup profiles multiplexed over the one
    browser store. Every operation reads and rewrites entries of a `Storage.Store`;
    `now` is the single clock reading an operation takes, and `draws` are the six
    random picks behind a new profile id. */
module Profiles {
  import opened Common
  import opened Text
  import opened Storage
  import opened Keys

  type Table = map<string, ProfileMeta>
  type Items = map<string, Value>

  const Alphabet := "abcdefghijklmnopqrstuvwxyz0123456789"

  /** Six picks from the 36-character alphabet, as `Math.random` can produce them. */
  predicate ValidDraws(draws: seq<nat>) {
    |draws| == 6 && forall i :: 0 <= i < 6 ==> draws[i] < 36
  }

  // ---------------------------------------------------------------------------
  // Metadata table (getProfiles / saveProfiles)

  /** The table stored under the metadata key, when it parses as one. */
  function StoredTable(items: Items): Option<Table> {
    if ProfilesKey in items && items[ProfilesKey].ProfilesDoc? then Some(items[ProfilesKey].table)
    else None
  }

  function DefaultTable(now: int): Table {
    map[DefaultId := ProfileMeta(DefaultId, DefaultName, now, now)]
  }

  /** What `getProfiles` returns. */
  function TableOf(items: Items, now: int): Table {
    if StoredTable(items).Some? then StoredTable(items).value else DefaultTable(now)
  }

  /** The store after `getProfiles`: a missing or unparseable table is replaced by the
      default one. */
  function WithTable(items: Items, now: int): Items {
    if StoredTable(items).Some? then items else items[ProfilesKey := ProfilesDoc(DefaultTable(now))]
  }

  /** The default profile is in the table, or the table is missing and will be
      created with it. Every operation of this module keeps this. */
  predicate DefaultKept(items: Items) {
    StoredTable(items).None? || DefaultId in StoredTable(items).value
  }

  /** Agreement of two stores on every key outside `except`. */
  ghost predicate SameOutside(a: Items, b: Items, except: set<string>) {
    forall k :: k !in except ==> (k in a <==> k in b) && (k in a ==> a[k] == b[k])
  }

  /** A missing or unparseable table becomes exactly the default profile, named
      "Mi Mundial", and is persisted; a stored table is returned as it is; nothing
      else in the store changes, and a second call reads back the same table. */
  lemma LoadTable(items: Items, now: int, later: int)
    ensures StoredTable(items).None? ==>
      TableOf(items, now).Keys == {DefaultId} && TableOf(items, now)[DefaultId].name == DefaultName
    ensures StoredTable(items).Some? ==> TableOf(items, now) == StoredTable(items).value
    ensures StoredTable(WithTable(items, now)) == Some(TableOf(items, now))
    ensures TableOf(WithTable(items, now), later) == TableOf(items, now)
    ensures WithTable(WithTable(items, now), later) == WithTable(items, now)
    ensures SameOutside(items, WithTable(items, now), {ProfilesKey})
    ensures DefaultKept(WithTable(items, now)) <==> DefaultKept(items)
  {
  }

  method GetProfiles(st: Store, now: int) returns (t: Table)
    modifies st
    ensures t == TableOf(old(st.items), now)
    ensures st.items == WithTable(old(st.items), now)
  {
    var stored := st.GetItem(ProfilesKey);
    if stored.Some? && Truthy(stored.value) && stored.value.ProfilesDoc? {
      return stored.value.table;
    }
    t := DefaultTable(now);
    st.SetItem(ProfilesKey, ProfilesDoc(t));
  }

  method SaveProfiles(st: Store, t: Table)
    modifies st
    ensures st.items == old(st.items)[ProfilesKey := ProfilesDoc(t)]
  {
    st.SetItem(ProfilesKey, ProfilesDoc(t));
  }

  // ---------------------------------------------------------------------------
  // Current profile

  datatype Resolved = Resolved(id: string, items: Items)

  /** `getCurrentProfileId`: a truthy current-profile key naming a profile of the table is kept;
      anything else is rewritten to `default`. The table is only loaded (and so only
      created) when the current-profile key is truthy. */
  function ResolveCurrent(items: Items, now: int): (r: Resolved)
    ensures r.id == DefaultId || r.id in TableOf(items, now)
    ensures CurrentKey in r.items && r.items[CurrentKey] == Raw(r.id)
    ensures r.id != DefaultId ==> CurrentKey in items && items[CurrentKey] == Raw(r.id)
    ensures Present(items, CurrentKey) && items[CurrentKey].Raw? && items[CurrentKey].text in TableOf(items, now)
      ==> r.id == items[CurrentKey].text
    ensures TableOf(r.items, now) == TableOf(items, now)
    ensures StoredTable(r.items).Some? ==> StoredTable(r.items) == Some(TableOf(items, now))
    ensures SameOutside(items, r.items, {ProfilesKey, CurrentKey})
    ensures DefaultKept(r.items) <==> DefaultKept(items)
  {
    if Present(items, CurrentKey) then
      var v := items[CurrentKey];
      if v.Raw? && v.text in TableOf(items, now) then Resolved(v.text, WithTable(items, now))
      else Resolved(DefaultId, WithTable(items, now)[CurrentKey := Raw(DefaultId)])
    else Resolved(DefaultId, items[CurrentKey := Raw(DefaultId)])
  }

  /** Under the default-kept invariant the current id is always a profile of the table. */
  lemma CurrentIsAProfile(items: Items, now: int)
    requires DefaultKept(items)
    ensures ResolveCurrent(items, now).id in TableOf(items, now)
  {
  }

  /** Resolving twice changes nothing more: the current-profile key now names the returned id. */
  lemma {:induction false} ResolveStable(items: Items, now: int, later: int)
    ensures ResolveCurrent(ResolveCurrent(items, now).items, later).id == ResolveCurrent(items, now).id
  {
    var r := ResolveCurrent(items, now);
    LoadTable(r.items, later, later);
    if r.id != DefaultId {
      assert StoredTable(r.items).Some?;
    }
  }

  method GetCurrentProfileId(st: Store, now: int) returns (id: string)
    modifies st
    ensures Resolved(id, st.items) == ResolveCurrent(old(st.items), now)
  {
    var stored := st.GetItem(CurrentKey);
    if stored.Some? && Truthy(stored.value) {
      var profiles := GetProfiles(st, now);
      if stored.value.Raw? && stored.value.text in profiles {
        return stored.value.text;
      }
    }
    st.SetItem(CurrentKey, Raw(DefaultId));
    id := DefaultId;
  }

  function Lookup(t: Table, id: string): Option<ProfileMeta> {
    if id in t then Some(t[id]) else None
  }

  /** `getCurrentProfile`: the current profile's entry, falling back to the default
      entry. The fallback never finds anything the first lookup missed: an id outside
      the table is only ever returned as `default` itself. */
  method GetCurrentProfile(st: Store, now: int) returns (m: Option<ProfileMeta>)
    modifies st
    ensures st.items == ResolveCurrent(WithTable(old(st.items), now), now).items
    ensures var t := TableOf(old(st.items), now);
      var cur := ResolveCurrent(old(st.items), now).id;
      (m.Some? <==> cur in t) && (m.Some? ==> m.value == t[cur])
    ensures DefaultKept(old(st.items)) ==> m.Some?
  {
    ghost var before := st.items;
    var profiles := GetProfiles(st, now);
    var currentId := GetCurrentProfileId(st, now);
    LoadTable(before, now, now);
    ResolveAfterLoad(before, now);
    if currentId in profiles {
      m := Some(profiles[currentId]);
    } else {
      m := Lookup(profiles, DefaultId);
    }
  }

  /** Loading the table first does not change which profile is current. */
  lemma ResolveAfterLoad(items: Items, now: int)
    ensures ResolveCurrent(WithTable(items, now), now).id == ResolveCurrent(items, now).id
  {
    LoadTable(items, now, now);
  }

  method SetCurrentProfile(st: Store, id: string, now: int) returns (ok: bool)
    modifies st
    ensures ok <==> id in TableOf(old(st.items), now)
    ensures ok ==> st.items == WithTable(old(st.items), now)[CurrentKey := Raw(id)]
    ensures !ok ==> st.items == WithTable(old(st.items), now)
  {
    var profiles := GetProfiles(st, now);
    if id in profiles {
      st.SetItem(CurrentKey, Raw(id));
      return true;
    }
    return false;
  }

  /** A successful switch makes the chosen profile the current one; a refused switch
      leaves the current-profile key as it was. */
  lemma SwitchMakesCurrent(items: Items, id: string, now: int)
    ensures id in TableOf(items, now) && id != "" ==>
      ResolveCurrent(WithTable(items, now)[CurrentKey := Raw(id)], now).id == id
    ensures (CurrentKey in WithTable(items, now) <==> CurrentKey in items)
      && (CurrentKey in items ==> WithTable(items, now)[CurrentKey] == items[CurrentKey])
  {
    LoadTable(items, now, now);
  }

  // ---------------------------------------------------------------------------
  // Creating, renaming, deleting

  /** `generateProfileId`: six characters drawn from lower-case letters and digits. */
  method GenerateProfileId(draws: seq<nat>) returns (id: string)
    requires ValidDraws(draws)
    ensures |id| == 6
    ensures forall i :: 0 <= i < 6 ==> id[i] == Alphabet[draws[i]]
    ensures NoUnderscore(id)
    ensures id != DefaultId && id != "squad" && id != "current"
  {
    id := "";
    var i := 0;
    while i < 6
      invariant 0 <= i <= 6
      invariant |id| == i
      invariant forall j :: 0 <= j < i ==> id[j] == Alphabet[draws[j]]
    {
      id := id + [Alphabet[draws[i]]];
      i := i + 1;
    }
    assert forall j :: 0 <= j < |Alphabet| ==> Alphabet[j] != '_';
  }

  /** The name given to a created profile: the one asked for, or `Mundial <N+1>` with
      N the number of profiles before the insertion. */
  function CreatedName(name: string, count: nat): string {
    if name != "" then name else "Mundial " + Decimal(count + 1)
  }

  /** The store after `createProfile(name, switchToIt)` has picked `id`. */
  function Created(items: Items, name: string, id: string, switchToIt: bool, now: int): Items {
    var t := TableOf(items, now);
    var saved := items[ProfilesKey := ProfilesDoc(t[id := ProfileMeta(id, CreatedName(name, |t|), now, now)])];
    if switchToIt then saved[CurrentKey := Raw(id)] else saved
  }

  method CreateProfile(st: Store, name: string, switchToIt: bool, draws: seq<nat>, now: int)
    returns (id: string)
    requires ValidDraws(draws)
    modifies st
    ensures |id| == 6 && NoUnderscore(id) && id != DefaultId
    ensures forall i :: 0 <= i < 6 ==> id[i] == Alphabet[draws[i]]
    ensures st.items == Created(old(st.items), name, id, switchToIt, now)
  {
    ghost var before := st.items;
    var profiles := GetProfiles(st, now);
    id := GenerateProfileId(draws);
    var chosen := if name != "" then name else "Mundial " + Decimal(|profiles| + 1);
    profiles := profiles[id := ProfileMeta(id, chosen, now, now)];
    SaveProfiles(st, profiles);
    assert st.items == before[ProfilesKey := ProfilesDoc(profiles)];
    if switchToIt {
      var _ := SetCurrentProfile(st, id, now);
    }
  }

  /** The table a created profile is written into. */
  function CreatedTable(items: Items, name: string, id: string, now: int): Table {
    var t := TableOf(items, now);
    t[id := ProfileMeta(id, CreatedName(name, |t|), now, now)]
  }

  lemma CreatedStores(items: Items, name: string, id: string, switchToIt: bool, now: int)
    ensures var after := Created(items, name, id, switchToIt, now);
      && StoredTable(after) == Some(CreatedTable(items, name, id, now))
      && TableOf(after, now) == CreatedTable(items, name, id, now)
      && SameOutside(items, after, if switchToIt then {ProfilesKey, CurrentKey} else {ProfilesKey})
      && (switchToIt ==> CurrentKey in after && after[CurrentKey] == Raw(id))
  {
  }

  lemma CreatedTableProperties(t: Table, id: string, m: ProfileMeta)
    ensures t[id := m].Keys == t.Keys + {id}
    ensures forall k :: k in t && k != id ==> t[id := m][k] == t[k]
    ensures id !in t ==> |t[id := m]| == |t| + 1
  {
    if id !in t {
      assert |t[id := m].Keys| == |t.Keys| + 1;
    }
  }

  /** The new entry sits under the id with the chosen name, older entries are kept,
      the current profile changes exactly when asked, and no other key moves. */
  lemma CreateProperties(items: Items, name: string, id: string, switchToIt: bool, now: int)
    requires id != ""
    ensures var t := TableOf(items, now);
      var after := Created(items, name, id, switchToIt, now);
      && StoredTable(after).Some?
      && TableOf(after, now).Keys == t.Keys + {id}
      && TableOf(after, now)[id] == ProfileMeta(id, CreatedName(name, |t|), now, now)
      && (forall k :: k in t && k != id ==> TableOf(after, now)[k] == t[k])
      && (id !in t ==> |TableOf(after, now)| == |t| + 1)
      && (switchToIt ==> ResolveCurrent(after, now).id == id)
      && SameOutside(items, after, if switchToIt then {ProfilesKey, CurrentKey} else {ProfilesKey})
      && (DefaultKept(items) ==> DefaultKept(after))
  {
    var t := TableOf(items, now);
    CreatedStores(items, name, id, switchToIt, now);
    CreatedTableProperties(t, id, ProfileMeta(id, CreatedName(name, |t|), now, now));
  }

  /** The metadata entry after `renameProfile`. */
  function Renamed(t: Table, id: string, newName: string, now: int): Table
    requires id in t
  {
    t[id := t[id].(name := newName, updatedAt := now)]
  }

  lemma RenameProperties(t: Table, id: string, newName: string, now: int)
    requires id in t
    ensures Renamed(t, id, newName, now).Keys == t.Keys
    ensures var m := Renamed(t, id, newName, now)[id];
      m.name == newName && m.updatedAt == now && m.id == t[id].id && m.createdAt == t[id].createdAt
    ensures forall k :: k in t && k != id ==> Renamed(t, id, newName, now)[k] == t[k]
  {
  }

  method RenameProfile(st: Store, id: string, newName: string, now: int) returns (ok: bool)
    modifies st
    ensures ok <==> id in TableOf(old(st.items), now)
    ensures ok ==> st.items == old(st.items)[ProfilesKey := ProfilesDoc(Renamed(TableOf(old(st.items), now), id, newName, now))]
    ensures !ok ==> st.items == WithTable(old(st.items), now)
  {
    var profiles := GetProfiles(st, now);
    if id in profiles {
      profiles := profiles[id := profiles[id].(name := newName, updatedAt := now)];
      SaveProfiles(st, profiles);
      return true;
    }
    return false;
  }

  /** The keys of the store that start with p. */
  function PrefixKeys(items: Items, p: string): set<string> {
    set k | k in items && HasPrefix(k, p)
  }

  /** Collect the keys starting with p, one by one over the key set. */
  method KeysWithPrefix(st: Store, p: string) returns (ks: set<string>)
    ensures ks == PrefixKeys(st.items, p)
  {
    var rest := st.items.Keys;
    ks := {};
    while rest != {}
      invariant rest <= st.items.Keys
      invariant ks == PrefixKeys(st.items, p) - rest
      decreases |rest|
    {
      var k :| k in rest;
      if HasPrefix(k, p) {
        ks := ks + {k};
      }
      rest := rest - {k};
    }
  }

  method RemoveAll(st: Store, ks: set<string>)
    modifies st
    ensures st.items == old(st.items) - ks
  {
    var rest := ks;
    while rest != {}
      invariant rest <= ks
      invariant st.items == old(st.items) - (ks - rest)
      decreases |rest|
    {
      var k :| k in rest;
      st.RemoveItem(k);
      rest := rest - {k};
    }
  }

  /** The store after `deleteProfile(id)` has passed both checks: the namespace is
      removed, the entry is dropped from the table, and the current id is resolved
      again. */
  function Deleted(items: Items, id: string, now: int): Items {
    var loaded := WithTable(items, now);
    var cleared := loaded - PrefixKeys(loaded, NamespacePrefix(id));
    ResolveCurrent(cleared[ProfilesKey := ProfilesDoc(TableOf(items, now) - {id})], now).items
  }

  method DeleteProfile(st: Store, id: string, now: int) returns (ok: bool)
    modifies st
    ensures id == DefaultId ==> !ok && st.items == old(st.items)
    ensures id != DefaultId ==> (ok <==> id in TableOf(old(st.items), now))
    ensures id != DefaultId && !ok ==> st.items == WithTable(old(st.items), now)
    ensures ok ==> st.items == Deleted(old(st.items), id, now)
  {
    if id == DefaultId {
      return false;
    }
    ghost var before := st.items;
    var profiles := GetProfiles(st, now);
    if id !in profiles {
      return false;
    }
    var doomed := KeysWithPrefix(st, NamespacePrefix(id));
    RemoveAll(st, doomed);
    profiles := profiles - {id};
    SaveProfiles(st, profiles);
    var cur := GetCurrentProfileId(st, now);
    if cur == id {
      // The source switches back to the default profile here. The branch is dead:
      // resolving the current-profile key has already moved it off the deleted id.
      assert false;
    }
    ok := true;
  }

  /** Cascade deletion: the deleted profile leaves the table, every key of its
      namespace is gone (the current-profile key aside, which a profile named `current`
      owns), every other key outside the metadata and the current-profile key is kept, and the
      current-profile key no longer names the deleted id. */
  lemma DeleteProperties(items: Items, id: string, now: int)
    requires id != DefaultId && id in TableOf(items, now)
    ensures var after := Deleted(items, id, now);
      && StoredTable(after) == Some(TableOf(items, now) - {id})
      && (forall k :: k in after && k != CurrentKey ==> !HasPrefix(k, NamespacePrefix(id)))
      && SameOutside(items, after, PrefixKeys(items, NamespacePrefix(id)) + {ProfilesKey, CurrentKey})
      && after[CurrentKey] != Raw(id)
      && ResolveCurrent(after, now).id != id
      && (DefaultKept(items) ==> DefaultKept(after))
  {
    var loaded := WithTable(items, now);
    var p := NamespacePrefix(id);
    ProfilesKeyOutsideNamespaces(id);
    var cleared := loaded - PrefixKeys(loaded, p);
    var saved := cleared[ProfilesKey := ProfilesDoc(TableOf(items, now) - {id})];
    var after := ResolveCurrent(saved, now).items;
    assert StoredTable(saved) == Some(TableOf(items, now) - {id});
    LoadTable(after, now, now);
    ResolveStable(saved, now, now);
  }

  // ---------------------------------------------------------------------------
  // Duplicating

  /** The name of a duplicate: the one asked for, or the source's name + " (copia)". */
  function CopyName(t: Table, src: string, newName: string): string
    requires src in t
  {
    if newName != "" then newName else t[src].name + " (copia)"
  }

  /** k is the copy, under prefix q, of a visited key of prefix p. */
  predicate IsCopyTarget(snap: Items, done: set<string>, p: string, q: string, k: string) {
    HasPrefix(k, q) && p + k[|q|..] in done && p + k[|q|..] in snap
  }

  /** Each visited key of prefix p has its copy under prefix q with the same value. */
  ghost predicate CopiesMade(snap: Items, done: set<string>, p: string, q: string, res: Items) {
    forall s :: s in done && s in snap && HasPrefix(s, p) ==>
      q + s[|p|..] in res && res[q + s[|p|..]] == snap[s]
  }

  /** Only copies are added. */
  ghost predicate OnlyCopiesAdded(snap: Items, done: set<string>, p: string, q: string, res: Items) {
    forall k :: k in res ==> k in snap || IsCopyTarget(snap, done, p, q, k)
  }

  /** Every key that is not a copy target is as it was. */
  ghost predicate OthersKept(snap: Items, done: set<string>, p: string, q: string, res: Items) {
    forall k :: k in snap && !IsCopyTarget(snap, done, p, q, k) ==> k in res && res[k] == snap[k]
  }

  /** `res` is `snap` once the copy loop has visited the keys in `done`: each visited
      key of prefix p has its copy under prefix q with the same value, and every
      other key is as it was. */
  ghost predicate CopiedOver(snap: Items, done: set<string>, p: string, q: string, res: Items) {
    && CopiesMade(snap, done, p, q, res)
    && OnlyCopiesAdded(snap, done, p, q, res)
    && OthersKept(snap, done, p, q, res)
  }

  /** A visited key without prefix p makes nothing new a copy target. */
  lemma TargetsUnchanged(snap: Items, done: set<string>, k: string, p: string, q: string)
    requires !HasPrefix(k, p)
    ensures forall x :: IsCopyTarget(snap, done + {k}, p, q, x) <==> IsCopyTarget(snap, done, p, q, x)
  {
    ConcatHasPrefix(p);
  }

  lemma CopyStepMade(snap: Items, done: set<string>, k: string, p: string, q: string, res: Items)
    requires CopiesMade(snap, done, p, q, res)
    requires k in snap && k !in done && HasPrefix(k, p)
    ensures CopiesMade(snap, done + {k}, p, q, res[q + k[|p|..] := snap[k]])
  {
    RetargetInjective(p, q);
  }

  lemma CopyStepAdded(snap: Items, done: set<string>, k: string, p: string, q: string, res: Items)
    requires OnlyCopiesAdded(snap, done, p, q, res)
    requires k in snap && HasPrefix(k, p)
    ensures OnlyCopiesAdded(snap, done + {k}, p, q, res[q + k[|p|..] := snap[k]])
  {
    var t := q + k[|p|..];
    ConcatHasPrefix(q);
    PrefixSplit(k, p);
    assert t[|q|..] == k[|p|..];
    assert IsCopyTarget(snap, done + {k}, p, q, t);
  }

  lemma CopyStepKept(snap: Items, done: set<string>, k: string, p: string, q: string, res: Items)
    requires OthersKept(snap, done, p, q, res)
    requires k in snap && HasPrefix(k, p)
    ensures OthersKept(snap, done + {k}, p, q, res[q + k[|p|..] := snap[k]])
  {
    var t := q + k[|p|..];
    ConcatHasPrefix(q);
    PrefixSplit(k, p);
    assert t[|q|..] == k[|p|..];
    assert IsCopyTarget(snap, done + {k}, p, q, t);
  }

  lemma CopyStep(snap: Items, done: set<string>, k: string, p: string, q: string, res: Items)
    requires CopiedOver(snap, done, p, q, res)
    requires k in snap && k !in done
    ensures HasPrefix(k, p) ==> CopiedOver(snap, done + {k}, p, q, res[q + k[|p|..] := snap[k]])
    ensures !HasPrefix(k, p) ==> CopiedOver(snap, done + {k}, p, q, res)
  {
    if HasPrefix(k, p) {
      CopyStepMade(snap, done, k, p, q, res);
      CopyStepAdded(snap, done, k, p, q, res);
      CopyStepKept(snap, done, k, p, q, res);
    } else {
      TargetsUnchanged(snap, done, k, p, q);
    }
  }

  /** Reading a not-yet-visited source key in the partly copied store gives its
      original value, as long as neither id has a `_` (a generated id never has). */
  lemma CopyReadsSnapshot(snap: Items, done: set<string>, k: string, src: string, dst: string, res: Items)
    requires NoUnderscore(src) && NoUnderscore(dst)
    requires CopiedOver(snap, done, NamespacePrefix(src), NamespacePrefix(dst), res)
    requires k in snap && k !in done && HasPrefix(k, NamespacePrefix(src))
    ensures k in res && res[k] == snap[k]
  {
    var p := NamespacePrefix(src);
    var q := NamespacePrefix(dst);
    NamespacesDisjoint(src, dst, k);
    PrefixSplit(k, p);
    assert HasPrefix(k, q) ==> p + k[|q|..] == k;
  }

  /** The copy loop of `duplicateProfile`, over the keys present when it starts. */
  method CopyNamespace(st: Store, src: string, dst: string)
    modifies st
    ensures NoUnderscore(src) && NoUnderscore(dst) ==>
      CopiedOver(old(st.items), old(st.items).Keys, NamespacePrefix(src), NamespacePrefix(dst), st.items)
  {
    var p := NamespacePrefix(src);
    var q := NamespacePrefix(dst);
    ghost var snap := st.items;
    ghost var valid := NoUnderscore(src) && NoUnderscore(dst);
    var rest := st.items.Keys;
    while rest != {}
      invariant rest <= snap.Keys
      invariant valid ==> CopiedOver(snap, snap.Keys - rest, p, q, st.items)
      decreases |rest|
    {
      var k :| k in rest;
      ghost var done := snap.Keys - rest;
      if valid {
        CopyStep(snap, done, k, p, q, st.items);
      }
      if HasPrefix(k, p) {
        if valid {
          CopyReadsSnapshot(snap, done, k, src, dst, st.items);
        }
        var data := st.GetItem(k);
        if data.Some? {
          st.SetItem(q + k[|p|..], data.value);
        }
      }
      VisitOne(snap.Keys, rest, k);
      rest := rest - {k};
    }
  }

  method DuplicateProfile(st: Store, src: string, newName: string, draws: seq<nat>, now: int)
    returns (r: Option<string>)
    requires ValidDraws(draws)
    modifies st
    ensures src !in TableOf(old(st.items), now) ==> r.None? && st.items == WithTable(old(st.items), now)
    ensures src in TableOf(old(st.items), now) ==>
      && r.Some? && |r.value| == 6 && NoUnderscore(r.value)
      && (forall i :: 0 <= i < 6 ==> r.value[i] == Alphabet[draws[i]])
      && (NoUnderscore(src) ==>
            var t := TableOf(old(st.items), now);
            var created := Created(WithTable(old(st.items), now), CopyName(t, src, newName), r.value, false, now);
            CopiedOver(created, created.Keys, NamespacePrefix(src), NamespacePrefix(r.value), st.items))
  {
    var profiles := GetProfiles(st, now);
    if src !in profiles {
      return None;
    }
    var chosen := if newName != "" then newName else profiles[src].name + " (copia)";
    var newId := CreateProfile(st, chosen, false, draws, now);
    CopyNamespace(st, src, newId);
    r := Some(newId);
  }

  /** Every squad of the source profile gains a copy under the new profile with the
      same value, every key outside the new namespace is untouched (the source's
      squads, the metadata and the current-profile key among them), and only keys of the new
      namespace appear. */
  lemma DuplicateProperties(snap: Items, src: string, dst: string, res: Items)
    requires NoUnderscore(src) && NoUnderscore(dst) && src != dst
    requires CopiedOver(snap, snap.Keys, NamespacePrefix(src), NamespacePrefix(dst), res)
    ensures forall c :: SquadKey(src, c) in snap ==>
      SquadKey(dst, c) in res && res[SquadKey(dst, c)] == snap[SquadKey(src, c)]
    ensures forall k :: k in snap && !HasPrefix(k, NamespacePrefix(dst)) ==> k in res && res[k] == snap[k]
    ensures forall c :: SquadKey(src, c) in snap ==>
      SquadKey(src, c) in res && res[SquadKey(src, c)] == snap[SquadKey(src, c)]
    ensures forall k :: k in res && k !in snap ==> HasPrefix(k, NamespacePrefix(dst))
  {
    var p := NamespacePrefix(src);
    var q := NamespacePrefix(dst);
    forall c | SquadKey(src, c) in snap
      ensures SquadKey(dst, c) in res && res[SquadKey(dst, c)] == snap[SquadKey(src, c)]
      ensures SquadKey(src, c) in res && res[SquadKey(src, c)] == snap[SquadKey(src, c)]
    {
      SquadKeyHasNamespace(src, c);
      ScanMatchesOwnKeysOnly(dst, src, c);
      assert q + SquadKey(src, c)[|p|..] == SquadKey(dst, c);
    }
  }

  // ---------------------------------------------------------------------------
  // Squads of the current profile

  method GetSquadKey(st: Store, country: string, now: int) returns (key: string)
    modifies st
    ensures key == SquadKey(ResolveCurrent(old(st.items), now).id, country)
    ensures st.items == ResolveCurrent(old(st.items), now).items
  {
    var id := GetCurrentProfileId(st, now);
    key := SquadKey(id, country);
  }

  /** `getSquad`: the parsed document under the current profile's key, or null. */
  method GetSquad(st: Store, country: string, now: int) returns (v: Option<Value>)
    modifies st
    ensures var r := ResolveCurrent(old(st.items), now);
      st.items == r.items && v == Parsed(r.items, SquadKey(r.id, country))
  {
    var key := GetSquadKey(st, country, now);
    var saved := st.GetItem(key);
    if saved.Some? && Truthy(saved.value) && !saved.value.Raw? {
      v := saved;
    } else {
      v := None;
    }
  }

  /** The store after `saveSquad(country, squad)`. */
  function SquadSaved(items: Items, country: string, squad: Squad, now: int): Items {
    var first := ResolveCurrent(items, now);
    var written := first.items[SquadKey(first.id, country) := SquadDoc(squad)];
    var t := TableOf(written, now);
    var second := ResolveCurrent(WithTable(written, now), now);
    if second.id in t then second.items[ProfilesKey := ProfilesDoc(t[second.id := t[second.id].(updatedAt := now)])]
    else second.items
  }

  method SaveSquad(st: Store, country: string, squad: Squad, now: int)
    modifies st
    ensures st.items == SquadSaved(old(st.items), country, squad, now)
  {
    var key := GetSquadKey(st, country, now);
    st.SetItem(key, SquadDoc(squad));
    var profiles := GetProfiles(st, now);
    var currentId := GetCurrentProfileId(st, now);
    if currentId in profiles {
      profiles := profiles[currentId := profiles[currentId].(updatedAt := now)];
      SaveProfiles(st, profiles);
    }
  }

  /** Save then load: reading the same country back in the same profile gives the
      saved squad, the profile stays current and its `updatedAt` is the save time.
      The one key that could clash, the current-profile key itself, is excluded. */
  lemma SaveThenGet(items: Items, country: string, squad: Squad, now: int, later: int)
    requires SquadKey(ResolveCurrent(items, now).id, country) != CurrentKey
    ensures var cur := ResolveCurrent(items, now).id;
      var after := SquadSaved(items, country, squad, now);
      && ResolveCurrent(after, later).id == cur
      && Parsed(ResolveCurrent(after, later).items, SquadKey(cur, country)) == Some(SquadDoc(squad))
      && (cur in TableOf(items, now) ==> TableOf(after, later)[cur].updatedAt == now)
      && (DefaultKept(items) ==> DefaultKept(after))
  {
    var first := ResolveCurrent(items, now);
    var key := SquadKey(first.id, country);
    ProfilesKeyOutsideNamespaces(first.id);
    SquadKeyHasNamespace(first.id, country);
    var written := first.items[key := SquadDoc(squad)];
    assert key != ProfilesKey;
    assert written[CurrentKey] == Raw(first.id);
    assert StoredTable(written) == StoredTable(first.items);
    LoadTable(written, now, now);
    var second := ResolveCurrent(WithTable(written, now), now);
    assert second.id == first.id;
    var after := SquadSaved(items, country, squad, now);
    LoadTable(after, later, later);
    assert after[CurrentKey] == Raw(first.id);
    assert key in after && after[key] == SquadDoc(squad);
  }

  /** `saveSquad` writes only the current profile's key for that country, the table
      and the current-profile key; every other key keeps its value. */
  lemma SaveFrame(items: Items, country: string, squad: Squad, now: int)
    ensures SameOutside(items, SquadSaved(items, country, squad, now),
                        {SquadKey(ResolveCurrent(items, now).id, country), ProfilesKey, CurrentKey})
  {
    var first := ResolveCurrent(items, now);
    var key := SquadKey(first.id, country);
    var written := first.items[key := SquadDoc(squad)];
    LoadTable(written, now, now);
    var second := ResolveCurrent(WithTable(written, now), now);
    var after := SquadSaved(items, country, squad, now);
    forall k | k !in {key, ProfilesKey, CurrentKey}
      ensures (k in items <==> k in after) && (k in items ==> items[k] == after[k])
    {
      assert (k in items <==> k in first.items) && (k in items ==> items[k] == first.items[k]);
      assert (k in written <==> k in WithTable(written, now))
        && (k in written ==> written[k] == WithTable(written, now)[k]);
      assert (k in WithTable(written, now) <==> k in second.items)
        && (k in second.items ==> WithTable(written, now)[k] == second.items[k]);
    }
  }

  /** Profile isolation: saving a squad in the current profile leaves what every other
      profile reads back, for every country, as it was. */
  lemma SaveIsolation(items: Items, country: string, squad: Squad, now: int, other: string, c: string)
    requires NoUnderscore(other) && NoUnderscore(ResolveCurrent(items, now).id)
    requires other != ResolveCurrent(items, now).id
    requires SquadKey(other, c) != CurrentKey
    ensures Parsed(SquadSaved(items, country, squad, now), SquadKey(other, c)) == Parsed(items, SquadKey(other, c))
  {
    var cur := ResolveCurrent(items, now).id;
    SquadKeyInjective(other, c, cur, country);
    ProfilesKeyOutsideNamespaces(other);
    SquadKeyHasNamespace(other, c);
    SaveFrame(items, country, squad, now);
    assert SquadKey(other, c) !in {SquadKey(cur, country), ProfilesKey, CurrentKey};
  }

  /** `squads` is what `getAllSquads` returns for profile `id`: one entry per country
      whose key in that profile holds a parseable document, carrying that document. */
  ghost predicate SquadsOf(items: Items, id: string, squads: map<string, Value>) {
    forall c ::
      && (c in squads <==> Parsed(items, SquadKey(id, c)).Some?)
      && (c in squads ==> squads[c] == items[SquadKey(id, c)])
  }

  /** The scan of `getAllSquads` over the keys of prefix p. */
  method CollectNamespace(st: Store, p: string) returns (squads: map<string, Value>)
    ensures forall c ::
      && (c in squads <==> Parsed(st.items, p + c).Some?)
      && (c in squads ==> squads[c] == st.items[p + c])
  {
    var rest := st.items.Keys;
    squads := map[];
    ConcatHasPrefix(p);
    while rest != {}
      invariant rest <= st.items.Keys
      invariant forall c ::
        && (c in squads <==> p + c in st.items && p + c !in rest && !st.items[p + c].Raw?)
        && (c in squads ==> squads[c] == st.items[p + c])
      decreases |rest|
    {
      var k :| k in rest;
      if HasPrefix(k, p) {
        var data := st.items[k];
        PrefixSplit(k, p);
        if !data.Raw? {
          squads := squads[k[|p|..] := data];
        }
      }
      rest := rest - {k};
    }
  }

  method GetAllSquads(st: Store, now: int) returns (squads: map<string, Value>)
    modifies st
    ensures var r := ResolveCurrent(old(st.items), now);
      st.items == r.items && SquadsOf(r.items, r.id, squads)
  {
    var id := GetCurrentProfileId(st, now);
    squads := CollectNamespace(st, NamespacePrefix(id));
  }

  // ---------------------------------------------------------------------------
  // Migration of the single-profile scheme

  /** Where a legacy key moves: the default profile's key for the same country. */
  function MigrationTarget(k: string): string
    requires |k| >= |LegacyPrefix|
  {
    NamespacePrefix(DefaultId) + k[|LegacyPrefix|..]
  }

  /** A legacy key is copied when it holds truthy data and its target nothing truthy. */
  predicate Fills(snap: Items, k: string)
    requires |k| >= |LegacyPrefix|
  {
    k in snap && Truthy(snap[k]) && !Present(snap, MigrationTarget(k))
  }

  /** k is the default-profile key a visited legacy key was copied to. */
  predicate IsFillTarget(snap: Items, done: set<string>, k: string) {
    HasPrefix(k, NamespacePrefix(DefaultId))
    && LegacyPrefix + k[|NamespacePrefix(DefaultId)|..] in done
    && Fills(snap, LegacyPrefix + k[|NamespacePrefix(DefaultId)|..])
  }

  /** The handled legacy keys are gone. */
  ghost predicate LegacyRemoved(done: set<string>, res: Items) {
    forall s :: s in done ==> s !in res
  }

  /** Each handled legacy key that fills has been copied to its target. */
  ghost predicate SlotsFilled(snap: Items, done: set<string>, res: Items) {
    forall s :: s in done && HasPrefix(s, LegacyPrefix) && Fills(snap, s) ==>
      MigrationTarget(s) in res && res[MigrationTarget(s)] == snap[s]
  }

  /** Only fill targets are added. */
  ghost predicate OnlyFillsAdded(snap: Items, done: set<string>, res: Items) {
    forall k :: k in res ==> (k in snap && k !in done) || IsFillTarget(snap, done, k)
  }

  /** Every key neither handled nor filled is as it was. */
  ghost predicate OthersUntouched(snap: Items, done: set<string>, res: Items) {
    forall k :: k in snap && k !in done && !IsFillTarget(snap, done, k) ==> k in res && res[k] == snap[k]
  }

  /** `res` is `snap` once the migration loop has handled the legacy keys in `done`:
      those keys are gone, each one that fills has been copied to its target, and
      every other key is as it was. */
  ghost predicate MigratedOver(snap: Items, done: set<string>, res: Items) {
    && LegacyRemoved(done, res)
    && SlotsFilled(snap, done, res)
    && OnlyFillsAdded(snap, done, res)
    && OthersUntouched(snap, done, res)
  }

  /** Keys of the two namespaces the migration moves between never coincide. */
  lemma MigrationKeysApart(done: set<string>, k: string)
    requires forall s :: s in done ==> HasPrefix(s, LegacyPrefix)
    requires HasPrefix(k, LegacyPrefix)
    ensures HasPrefix(MigrationTarget(k), NamespacePrefix(DefaultId))
    ensures MigrationTarget(k) !in done && MigrationTarget(k) != k
    ensures LegacyPrefix + MigrationTarget(k)[|NamespacePrefix(DefaultId)|..] == k
  {
    var q := NamespacePrefix(DefaultId);
    var t := MigrationTarget(k);
    ConcatHasPrefix(q);
    PrefixSplit(k, LegacyPrefix);
    assert t[|q|..] == k[|LegacyPrefix|..];
    LegacyOutsideDefault(t);
  }

  /** Reading a legacy key not yet handled, or its target, in the partly migrated
      store gives what the store held before the loop. */
  lemma MigrateReads(snap: Items, done: set<string>, k: string, res: Items)
    requires done <= PrefixKeys(snap, LegacyPrefix)
    requires k in PrefixKeys(snap, LegacyPrefix) && k !in done
    requires MigratedOver(snap, done, res)
    ensures k in res && res[k] == snap[k]
    ensures MigrationTarget(k) in res <==> MigrationTarget(k) in snap
    ensures MigrationTarget(k) in snap ==> res[MigrationTarget(k)] == snap[MigrationTarget(k)]
  {
    LegacyOutsideDefault(k);
    MigrationKeysApart(done, k);
    assert !IsFillTarget(snap, done, k);
    assert !IsFillTarget(snap, done, MigrationTarget(k));
  }

  /** The target of a new legacy key differs from every handled key and from every
      handled key's target. */
  lemma TargetsApart(done: set<string>, k: string)
    requires forall s :: s in done ==> HasPrefix(s, LegacyPrefix)
    requires HasPrefix(k, LegacyPrefix) && k !in done
    ensures forall s :: s in done && HasPrefix(s, LegacyPrefix) ==>
      MigrationTarget(s) != MigrationTarget(k) && MigrationTarget(s) != k && s != MigrationTarget(k)
  {
    MigrationKeysApart(done, k);
    forall s | s in done && HasPrefix(s, LegacyPrefix)
      ensures MigrationTarget(s) != MigrationTarget(k) && MigrationTarget(s) != k
    {
      MigrationKeysApart(done, s);
      MigrationKeysApart({k}, s);
    }
  }

  lemma FillRemoved(done: set<string>, k: string, v: Value, res: Items)
    requires LegacyRemoved(done, res)
    requires HasPrefix(k, LegacyPrefix) && MigrationTarget(k) !in done
    ensures LegacyRemoved(done + {k}, res[MigrationTarget(k) := v] - {k})
  {
  }

  lemma FillFilled(snap: Items, done: set<string>, k: string, res: Items)
    requires done <= PrefixKeys(snap, LegacyPrefix)
    requires k in PrefixKeys(snap, LegacyPrefix) && k !in done
    requires SlotsFilled(snap, done, res)
    ensures SlotsFilled(snap, done + {k}, res[MigrationTarget(k) := snap[k]] - {k})
  {
    TargetsApart(done, k);
    MigrationKeysApart(done, k);
  }

  lemma FillAdded(snap: Items, done: set<string>, k: string, res: Items)
    requires k in snap && HasPrefix(k, LegacyPrefix) && k in done && IsFillTarget(snap, done, MigrationTarget(k))
    requires OnlyFillsAdded(snap, done - {k}, res)
    ensures OnlyFillsAdded(snap, done, res[MigrationTarget(k) := snap[k]] - {k})
  {
  }

  lemma FillUntouched(snap: Items, done: set<string>, k: string, res: Items)
    requires k in snap && HasPrefix(k, LegacyPrefix) && k in done && IsFillTarget(snap, done, MigrationTarget(k))
    requires OthersUntouched(snap, done - {k}, res)
    ensures OthersUntouched(snap, done, res[MigrationTarget(k) := snap[k]] - {k})
  {
  }

  lemma MigrateStepFill(snap: Items, done: set<string>, k: string, res: Items)
    requires done <= PrefixKeys(snap, LegacyPrefix)
    requires k in PrefixKeys(snap, LegacyPrefix) && k !in done && Fills(snap, k)
    requires MigratedOver(snap, done, res)
    ensures MigratedOver(snap, done + {k}, res[MigrationTarget(k) := snap[k]] - {k})
  {
    var t := MigrationTarget(k);
    var done' := done + {k};
    MigrationKeysApart(done, k);
    assert IsFillTarget(snap, done', t);
    assert done' - {k} == done;
    FillRemoved(done, k, snap[k], res);
    FillFilled(snap, done, k, res);
    FillAdded(snap, done', k, res);
    FillUntouched(snap, done', k, res);
  }

  lemma MigrateStepSkip(snap: Items, done: set<string>, k: string, res: Items)
    requires done <= PrefixKeys(snap, LegacyPrefix)
    requires k in PrefixKeys(snap, LegacyPrefix) && k !in done && !Fills(snap, k)
    requires MigratedOver(snap, done, res)
    ensures MigratedOver(snap, done + {k}, res - {k})
  {
    var done' := done + {k};
    TargetsApart(done, k);
    assert LegacyRemoved(done', res - {k});
    assert SlotsFilled(snap, done', res - {k});
    assert OnlyFillsAdded(snap, done', res - {k});
    assert OthersUntouched(snap, done', res - {k});
  }

  lemma MigrateStep(snap: Items, done: set<string>, k: string, res: Items)
    requires done <= PrefixKeys(snap, LegacyPrefix)
    requires k in PrefixKeys(snap, LegacyPrefix) && k !in done
    requires MigratedOver(snap, done, res)
    ensures Fills(snap, k) ==> MigratedOver(snap, done + {k}, res[MigrationTarget(k) := snap[k]] - {k})
    ensures !Fills(snap, k) ==> MigratedOver(snap, done + {k}, res - {k})
  {
    if Fills(snap, k) {
      MigrateStepFill(snap, done, k, res);
    } else {
      MigrateStepSkip(snap, done, k, res);
    }
  }

  /** One pass of the migration loop body over legacy key k, as the store sees it. */
  function MigrateOne(res: Items, k: string): Items
    requires |k| >= |LegacyPrefix|
  {
    var target := MigrationTarget(k);
    if !Present(res, target) && Present(res, k) then res[target := res[k]] - {k} else res - {k}
  }

  lemma MigrateOneStep(snap: Items, done: set<string>, k: string, res: Items)
    requires done <= PrefixKeys(snap, LegacyPrefix)
    requires k in PrefixKeys(snap, LegacyPrefix) && k !in done
    requires MigratedOver(snap, done, res)
    ensures MigratedOver(snap, done + {k}, MigrateOne(res, k))
  {
    MigrateReads(snap, done, k, res);
    MigrateStep(snap, done, k, res);
  }

  method MigrateOldData(st: Store)
    modifies st
    ensures MigratedOver(old(st.items), PrefixKeys(old(st.items), LegacyPrefix), st.items)
  {
    var oldKeys := KeysWithPrefix(st, LegacyPrefix);
    ghost var snap := st.items;
    var rest := oldKeys;
    while rest != {}
      invariant rest <= oldKeys
      invariant MigratedOver(snap, oldKeys - rest, st.items)
      decreases |rest|
    {
      var oldKey :| oldKey in rest;
      ghost var done := oldKeys - rest;
      MigrateOneStep(snap, done, oldKey, st.items);
      ghost var expected := MigrateOne(st.items, oldKey);
      var newKey := NamespacePrefix(DefaultId) + oldKey[|LegacyPrefix|..];
      var existing := st.GetItem(newKey);
      var data := st.GetItem(oldKey);
      if !(existing.Some? && Truthy(existing.value)) && data.Some? && Truthy(data.value) {
        st.SetItem(newKey, data.value);
      }
      st.RemoveItem(oldKey);
      assert st.items == expected;
      VisitOne(oldKeys, rest, oldKey);
      rest := rest - {oldKey};
    }
  }

  /** After migration no legacy key is left, a truthy default-profile squad is never
      overwritten, a truthy legacy squad fills an empty default slot, and nothing
      outside the two namespaces changes. */
  lemma MigrationProperties(snap: Items, res: Items)
    requires MigratedOver(snap, PrefixKeys(snap, LegacyPrefix), res)
    ensures forall k :: k in res ==> !HasPrefix(k, LegacyPrefix)
    ensures forall c :: Present(snap, SquadKey(DefaultId, c)) ==>
      SquadKey(DefaultId, c) in res && res[SquadKey(DefaultId, c)] == snap[SquadKey(DefaultId, c)]
    ensures forall c :: Present(snap, LegacyKey(c)) && !Present(snap, SquadKey(DefaultId, c)) ==>
      SquadKey(DefaultId, c) in res && res[SquadKey(DefaultId, c)] == snap[LegacyKey(c)]
    ensures forall k :: !HasPrefix(k, LegacyPrefix) && !HasPrefix(k, NamespacePrefix(DefaultId)) ==>
      (k in res <==> k in snap) && (k in snap ==> res[k] == snap[k])
  {
    var q := NamespacePrefix(DefaultId);
    ConcatHasPrefix(q);
    ConcatHasPrefix(LegacyPrefix);
    forall k | k in res
      ensures !HasPrefix(k, LegacyPrefix)
    {
      LegacyOutsideDefault(k);
    }
    forall c | Present(snap, SquadKey(DefaultId, c))
      ensures SquadKey(DefaultId, c) in res && res[SquadKey(DefaultId, c)] == snap[SquadKey(DefaultId, c)]
    {
      var dk := SquadKey(DefaultId, c);
      LegacyOutsideDefault(dk);
      assert LegacyPrefix + dk[|q|..] == LegacyKey(c);
      assert MigrationTarget(LegacyKey(c)) == dk;
    }
    forall c | Present(snap, LegacyKey(c)) && !Present(snap, SquadKey(DefaultId, c))
      ensures SquadKey(DefaultId, c) in res && res[SquadKey(DefaultId, c)] == snap[LegacyKey(c)]
    {
      assert MigrationTarget(LegacyKey(c)) == SquadKey(DefaultId, c);
    }
  }

  /** A second migration is a no-op. */
  lemma MigrationIdempotent(snap: Items, once: Items, twice: Items)
    requires MigratedOver(snap, PrefixKeys(snap, LegacyPrefix), once)
    requires MigratedOver(once, PrefixKeys(once, LegacyPrefix), twice)
    ensures twice == once
  {
    MigrationProperties(snap, once);
    assert PrefixKeys(once, LegacyPrefix) == {};
    assert forall k :: !IsFillTarget(once, {}, k);
  }

  method InitProfiles(st: Store, now: int)
    modifies st
    ensures var loaded := ResolveCurrent(WithTable(old(st.items), now), now).items;
      MigratedOver(loaded, PrefixKeys(loaded, LegacyPrefix), st.items)
  {
    var _ := GetProfiles(st, now);
    var _ := GetCurrentProfileId(st, now);
    MigrateOldData(st);
  }

  /** The metadata and current-profile keys lie outside both namespaces, so the migration
      leaves them as they are. */
  lemma MigrationKeepsControlKeys(snap: Items, res: Items)
    requires MigratedOver(snap, PrefixKeys(snap, LegacyPrefix), res)
    ensures ProfilesKey in snap ==> ProfilesKey in res && res[ProfilesKey] == snap[ProfilesKey]
    ensures CurrentKey in snap ==> CurrentKey in res && res[CurrentKey] == snap[CurrentKey]
  {
    ProfilesKeyOutsideNamespaces("squad");
    ProfilesKeyOutsideNamespaces(DefaultId);
    CurrentKeyNamespace("squad");
    CurrentKeyNamespace(DefaultId);
    MigrationProperties(snap, res);
  }

  /** After initialisation a table is stored, the current-profile key is set (to a profile of the
      table under the default-kept invariant) and no legacy key is left. */
  lemma InitProperties(items: Items, now: int, res: Items)
    requires var loaded := ResolveCurrent(WithTable(items, now), now).items;
      MigratedOver(loaded, PrefixKeys(loaded, LegacyPrefix), res)
    ensures StoredTable(res) == Some(TableOf(items, now))
    ensures CurrentKey in res && res[CurrentKey].Raw?
    ensures DefaultKept(items) ==> res[CurrentKey].text in TableOf(items, now)
    ensures forall k :: k in res ==> !HasPrefix(k, LegacyPrefix)
  {
    var r := ResolveCurrent(WithTable(items, now), now);
    LoadTable(items, now, now);
    assert StoredTable(r.items) == Some(TableOf(items, now));
    MigrationKeepsControlKeys(r.items, res);
    MigrationProperties(r.items, res);
  }
}
