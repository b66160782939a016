/** The overview page: the saved squad of every country in the table, the position
    counts and statistics shown per team, the summary counters, and the share link that
    packs every saved squad into `FIFA:id,id|FIFA:id` and the loader that unpacks it.
    `btoa`/`atob` are an opaque pair: a token carries the text it encodes. */
module Overview {
  import opened Common
  import opened Text
  import opened Storage
  import opened Keys
  import opened CountryTable

  // ---------------------------------------------------------------- saved squads

  /** `getSavedSquad(code)`: the parsed document under the single-profile key, or None
      when the key is absent, empty or not a document. */
  function GetSavedSquad(items: map<string, Value>, code: string): (r: Option<Value>)
    ensures r.Some? <==> Present(items, LegacyKey(code)) && !items[LegacyKey(code)].Raw?
    ensures r.Some? ==> r.value == items[LegacyKey(code)]
  {
    Parsed(items, LegacyKey(code))
  }

  /** `squad && squad.players`: only documents with a player list have one. */
  function SquadPlayers(squad: Option<Value>): Option<seq<Player>> {
    match squad
    case Some(SquadDoc(sq)) => Some(sq.players)
    case Some(CacheDoc(c)) => Some(c.players)
    case _ => None
  }

  /** A country whose saved squad has at least one player, with that list. */
  datatype Entry = Entry(country: Country, players: seq<Player>)

  /** `squad && squad.players && squad.players.length > 0` for one country: its entry,
      or nothing. */
  function EntryOf(items: map<string, Value>, c: Country): seq<Entry> {
    match SquadPlayers(GetSavedSquad(items, c.code))
    case Some(ps) => if |ps| > 0 then [Entry(c, ps)] else []
    case None => []
  }

  /** The countries of `cs` with a non-empty saved squad, in table order: the
      countries the summary counts and the share link packs. */
  function Entries(items: map<string, Value>, cs: seq<Country>): seq<Entry>
    decreases |cs|
  {
    if cs == [] then [] else Entries(items, cs[..|cs| - 1]) + EntryOf(items, cs[|cs| - 1])
  }

  lemma EntriesSnoc(items: map<string, Value>, cs: seq<Country>, i: nat)
    requires i < |cs|
    ensures Entries(items, cs[..i + 1]) == Entries(items, cs[..i]) + EntryOf(items, cs[i])
  {
    assert cs[..i + 1][..i] == cs[..i];
  }

  /** An entry exactly for each table country with a non-empty saved squad. */
  lemma {:induction false} EntriesProperties(items: map<string, Value>, cs: seq<Country>)
    ensures |Entries(items, cs)| <= |cs|
    ensures forall e :: e in Entries(items, cs) ==>
      e.country in cs && |e.players| > 0 && SquadPlayers(GetSavedSquad(items, e.country.code)) == Some(e.players)
    ensures forall c :: c in cs && EntryOf(items, c) != [] ==> EntryOf(items, c)[0] in Entries(items, cs)
    decreases |cs|
  {
    if cs != [] {
      var init := cs[..|cs| - 1];
      EntriesProperties(items, init);
      assert cs == init + [cs[|cs| - 1]];
    }
  }

  /** Entries of a table without repeated keys carry pairwise distinct keys. */
  lemma {:induction false} EntriesDistinct(items: map<string, Value>, cs: seq<Country>)
    requires forall i, j :: 0 <= i < j < |cs| ==> cs[i].code != cs[j].code
    ensures var es := Entries(items, cs);
      forall j, k :: 0 <= j < k < |es| ==> es[j].country.code != es[k].country.code
    decreases |cs|
  {
    if cs != [] {
      var init := cs[..|cs| - 1];
      var last := cs[|cs| - 1];
      EntriesDistinct(items, init);
      EntriesProperties(items, init);
      var es0 := Entries(items, init);
      var es := Entries(items, cs);
      if EntryOf(items, last) != [] {
        forall j | 0 <= j < |es0|
          ensures es0[j].country.code != last.code
        {
          assert es0[j] in es0;
          assert es0[j].country in init;
        }
      }
    }
  }

  // ---------------------------------------------------------------- statistics

  /** `reduce((sum, p) => sum + (p.marketValue || 0), 0)` */
  function TotalValue(ps: seq<Player>): int {
    if ps == [] then 0 else ValueOf(ps[0]) + TotalValue(ps[1..])
  }

  /** `reduce((sum, p) => sum + (p.age || 0), 0)` */
  function TotalAge(ps: seq<Player>): int {
    if ps == [] then 0 else AgeOf(ps[0]) + TotalAge(ps[1..])
  }

  /** The sums are additive over concatenation, so the left-to-right fold and the
      sum of the parts agree. */
  lemma {:induction false} TotalsConcat(a: seq<Player>, b: seq<Player>)
    ensures TotalValue(a + b) == TotalValue(a) + TotalValue(b)
    ensures TotalAge(a + b) == TotalAge(a) + TotalAge(b)
  {
    if a == [] {
      assert a + b == b;
    } else {
      assert (a + b)[0] == a[0];
      assert (a + b)[1..] == a[1..] + b;
      TotalsConcat(a[1..], b);
    }
  }

  /** Market values that are never negative give a total at least each value. */
  lemma {:induction false} TotalValueBounds(ps: seq<Player>)
    requires forall i :: 0 <= i < |ps| ==> ValueOf(ps[i]) >= 0
    ensures TotalValue(ps) >= 0
    ensures forall i :: 0 <= i < |ps| ==> ValueOf(ps[i]) <= TotalValue(ps)
  {
    if ps != [] {
      TotalValueBounds(ps[1..]);
      assert forall i :: 1 <= i < |ps| ==> ps[i] == ps[1..][i - 1];
    }
  }

  /** The average age is kept as its sum and count. */
  datatype Stats = Stats(count: nat, value: int, ageSum: int)

  /** `calculateStats(players)`: zeros for an absent or empty list; otherwise the
      length, the value total and the age total, absent values counting 0. */
  function CalculateStats(players: Option<seq<Player>>): (r: Stats)
    ensures players.None? || players.value == [] ==> r == Stats(0, 0, 0)
    ensures players.Some? ==>
      r.count == |players.value| && r.value == TotalValue(players.value) && r.ageSum == TotalAge(players.value)
  {
    if players.None? || |players.value| == 0 then Stats(0, 0, 0)
    else Stats(|players.value|, TotalValue(players.value), TotalAge(players.value))
  }

  datatype PositionCounts = PositionCounts(gk: nat, def: nat, mid: nat, fwd: nat)

  function CountOf(ps: seq<Player>, pos: string): nat {
    |Filter(ps, (p: Player) => p.position == pos)|
  }

  lemma CountOfAppend(ps: seq<Player>, p: Player, pos: string)
    ensures CountOf(ps + [p], pos) == CountOf(ps, pos) + (if p.position == pos then 1 else 0)
  {
    FilterConcat(ps, [p], (q: Player) => q.position == pos);
  }

  /** `countByPosition(players)`: one counter per coarse position; a player with any
      other position is not counted. */
  method CountByPosition(players: seq<Player>) returns (counts: PositionCounts)
    ensures counts == PositionCounts(CountOf(players, GK), CountOf(players, DEF), CountOf(players, MID), CountOf(players, FWD))
  {
    counts := PositionCounts(0, 0, 0, 0);
    var i := 0;
    while i < |players|
      invariant 0 <= i <= |players|
      invariant counts == PositionCounts(CountOf(players[..i], GK), CountOf(players[..i], DEF), CountOf(players[..i], MID), CountOf(players[..i], FWD))
    {
      var p := players[i];
      assert players[..i + 1] == players[..i] + [p];
      CountOfAppend(players[..i], p, GK);
      CountOfAppend(players[..i], p, DEF);
      CountOfAppend(players[..i], p, MID);
      CountOfAppend(players[..i], p, FWD);
      if p.position == GK {
        counts := counts.(gk := counts.gk + 1);
      } else if p.position == DEF {
        counts := counts.(def := counts.def + 1);
      } else if p.position == MID {
        counts := counts.(mid := counts.mid + 1);
      } else if p.position == FWD {
        counts := counts.(fwd := counts.fwd + 1);
      }
      i := i + 1;
    }
    assert players[..|players|] == players;
  }

  /** The four counts never exceed the list length, and reach it exactly when every
      position is a coarse one. */
  lemma {:induction false} PositionCountsBound(ps: seq<Player>)
    ensures CountOf(ps, GK) + CountOf(ps, DEF) + CountOf(ps, MID) + CountOf(ps, FWD) <= |ps|
    ensures (forall i :: 0 <= i < |ps| ==> IsCoarsePosition(ps[i].position)) <==>
      CountOf(ps, GK) + CountOf(ps, DEF) + CountOf(ps, MID) + CountOf(ps, FWD) == |ps|
    decreases |ps|
  {
    if ps != [] {
      var init := ps[..|ps| - 1];
      var p := ps[|ps| - 1];
      assert ps == init + [p];
      PositionCountsBound(init);
      CountOfAppend(init, p, GK);
      CountOfAppend(init, p, DEF);
      CountOfAppend(init, p, MID);
      CountOfAppend(init, p, FWD);
      assert forall i :: 0 <= i < |init| ==> init[i] == ps[i];
    }
  }

  // ---------------------------------------------------------------- summary

  datatype Summary = Summary(totalTeams: nat, completeTeams: nat, totalPlayers: nat, totalValue: int)

  function Tally(es: seq<Entry>): Summary
    decreases |es|
  {
    if es == [] then Summary(0, 0, 0, 0)
    else
      var s := Tally(es[..|es| - 1]);
      var ps := es[|es| - 1].players;
      Summary(s.totalTeams + 1, s.completeTeams + (if |ps| == 26 then 1 else 0),
              s.totalPlayers + |ps|, s.totalValue + TotalValue(ps))
  }

  lemma TallySnoc(es: seq<Entry>, e: Entry)
    ensures var s := Tally(es);
      Tally(es + [e]) == Summary(s.totalTeams + 1, s.completeTeams + (if |e.players| == 26 then 1 else 0),
                                 s.totalPlayers + |e.players|, s.totalValue + TotalValue(e.players))
  {
    assert (es + [e])[..|es|] == es;
  }

  /** One step of the counting loop: the next table country adds its entry, if it has
      one, to the tally of the countries before it. */
  lemma SummaryStep(items: map<string, Value>, cs: seq<Country>, i: nat)
    requires i < |cs|
    ensures var s := Tally(Entries(items, cs[..i]));
      var squad := EntryOf(items, cs[i]);
      Tally(Entries(items, cs[..i + 1])) ==
        if squad == [] then s
        else Summary(s.totalTeams + 1, s.completeTeams + (if |squad[0].players| == 26 then 1 else 0),
                     s.totalPlayers + |squad[0].players|, s.totalValue + TotalValue(squad[0].players))
  {
    EntriesSnoc(items, cs, i);
    var es := Entries(items, cs[..i]);
    var squad := EntryOf(items, cs[i]);
    if squad == [] {
      assert es + squad == es;
    } else {
      assert squad == [squad[0]];
      TallySnoc(es, squad[0]);
    }
  }

  /** `renderSummary`'s four counters over the table. */
  method RenderSummary(store: Store) returns (s: Summary)
    ensures s == Tally(Entries(store.items, Countries))
  {
    s := SummaryOver(store, Countries);
  }

  /** The counting loop of `renderSummary` over a table. */
  method SummaryOver(store: Store, cs: seq<Country>) returns (s: Summary)
    ensures s == Tally(Entries(store.items, cs))
  {
    var items := store.items;
    var t := Summary(0, 0, 0, 0);
    var i := 0;
    while i < |cs|
      invariant 0 <= i <= |cs|
      invariant t == Tally(Entries(items, cs[..i]))
    {
      SummaryStep(items, cs, i);
      var squad := EntryOf(items, cs[i]);
      if squad != [] {
        var players := squad[0].players;
        t := Summary(t.totalTeams + 1, t.completeTeams + (if |players| == 26 then 1 else 0),
                     t.totalPlayers + |players|, t.totalValue + TotalValue(players));
      }
      i := i + 1;
    }
    assert cs[..|cs|] == cs;
    s := t;
  }

  /** Complete teams are among the teams, every team has a player, and a complete team
      has 26. */
  lemma {:induction false} TallyBounds(es: seq<Entry>)
    requires forall i :: 0 <= i < |es| ==> |es[i].players| > 0
    ensures var s := Tally(es);
      s.completeTeams <= s.totalTeams == |es| && s.totalTeams <= s.totalPlayers
      && 26 * s.completeTeams <= s.totalPlayers
    decreases |es|
  {
    if es != [] {
      TallyBounds(es[..|es| - 1]);
    }
  }

  /** The summary over a table: at most one team per country (22 for the overview's
      table), complete teams among them. */
  lemma SummaryBounds(items: map<string, Value>, cs: seq<Country>)
    ensures var s := Tally(Entries(items, cs));
      s.completeTeams <= s.totalTeams <= |cs| && s.totalTeams <= s.totalPlayers
      && 26 * s.completeTeams <= s.totalPlayers
  {
    var es := Entries(items, cs);
    EntriesProperties(items, cs);
    assert forall i :: 0 <= i < |es| ==> es[i] in es;
    TallyBounds(es);
  }

  // ---------------------------------------------------------------- share codec

  /** One `FIFA:id,id` element of the share string. */
  datatype Segment = Segment(fifa: string, ids: seq<int>)

  function PlayerIds(ps: seq<Player>): seq<int> {
    seq(|ps|, i requires 0 <= i < |ps| => ps[i].id)
  }

  function SegmentOf(e: Entry): Segment {
    Segment(e.country.fifa, PlayerIds(e.players))
  }

  function SegmentsOf(es: seq<Entry>): seq<Segment> {
    seq(|es|, i requires 0 <= i < |es| => SegmentOf(es[i]))
  }

  function EncodeIds(ids: seq<int>): string {
    Join(seq(|ids|, i requires 0 <= i < |ids| => Decimal(ids[i])), ',')
  }

  function EncodeSegment(s: Segment): string {
    s.fifa + ":" + EncodeIds(s.ids)
  }

  function EncodeSegments(segs: seq<Segment>): seq<string> {
    seq(|segs|, i requires 0 <= i < |segs| => EncodeSegment(segs[i]))
  }

  function EncodeShare(segs: seq<Segment>): string {
    Join(EncodeSegments(segs), '|')
  }

  /** A segment as `loadFromURL` reads it back: ids are `parseInt` results, None for
      NaN. */
  datatype Part = Part(fifa: string, ids: seq<Option<int>>)

  function ParseIds(s: string): seq<Option<int>> {
    var fields := Split(s, ',');
    seq(|fields|, i requires 0 <= i < |fields| => ParseInt(fields[i]))
  }

  /** `const [fifaCode, idsStr] = part.split(':')` and the skip of a segment missing
      either half. */
  function ReadPart(part: string): Option<Part> {
    var fields := Split(part, ':');
    var fifaCode := fields[0];
    var idsStr := if |fields| >= 2 then fields[1] else "";
    if fifaCode == "" || idsStr == "" then None else Some(Part(fifaCode, ParseIds(idsStr)))
  }

  /** The segments the generator emits: a FIFA code free of the delimiters, at least
      one id. */
  predicate WellFormed(s: Segment) {
    s.fifa != "" && ':' !in s.fifa && '|' !in s.fifa && |s.ids| >= 1
  }

  function SomeIds(ids: seq<int>): seq<Option<int>> {
    seq(|ids|, i requires 0 <= i < |ids| => Some(ids[i]))
  }

  lemma DecimalAvoids(n: int)
    ensures ',' !in Decimal(n) && ':' !in Decimal(n) && '|' !in Decimal(n)
  {
    var d := Decimal(n);
    assert forall i :: 0 <= i < |d| ==> d[i] != ',' && d[i] != ':' && d[i] != '|';
  }

  lemma EncodeIdsAvoids(ids: seq<int>)
    ensures ':' !in EncodeIds(ids) && '|' !in EncodeIds(ids)
  {
    var texts := seq(|ids|, i requires 0 <= i < |ids| => Decimal(ids[i]));
    forall i | 0 <= i < |texts|
      ensures ':' !in texts[i] && '|' !in texts[i]
    {
      DecimalAvoids(ids[i]);
    }
    JoinAvoids(texts, ',', ':');
    JoinAvoids(texts, ',', '|');
  }

  /** Joining the decimal ids with `,` and reading them back with `split(',')` and
      `parseInt` gives every id back, in order. */
  lemma IdsRoundTrip(ids: seq<int>)
    requires |ids| >= 1
    ensures ParseIds(EncodeIds(ids)) == SomeIds(ids)
  {
    var texts := seq(|ids|, i requires 0 <= i < |ids| => Decimal(ids[i]));
    forall i | 0 <= i < |texts|
      ensures ',' !in texts[i]
    {
      DecimalAvoids(ids[i]);
    }
    SplitJoin(texts, ',');
    forall i | 0 <= i < |ids|
      ensures ParseInt(texts[i]) == Some(ids[i])
    {
      ParseDecimal(ids[i]);
    }
  }

  lemma SegmentRoundTrip(s: Segment)
    requires WellFormed(s)
    ensures ReadPart(EncodeSegment(s)) == Some(Part(s.fifa, SomeIds(s.ids)))
  {
    var idsText := EncodeIds(s.ids);
    EncodeIdsAvoids(s.ids);
    assert Join([s.fifa, idsText], ':') == EncodeSegment(s);
    SplitJoin([s.fifa, idsText], ':');
    IdsRoundTrip(s.ids);
    assert idsText != "" by {
      assert Decimal(s.ids[0]) != "";
      JoinHead(seq(|s.ids|, i requires 0 <= i < |s.ids| => Decimal(s.ids[i])), ',');
    }
  }

  /** A join starts with its first part. */
  lemma JoinHead(parts: seq<string>, sep: char)
    requires |parts| >= 1
    ensures |Join(parts, sep)| >= |parts[0]|
  {
  }

  /** The share round trip: splitting the generated string on `|` gives one part per
      segment, and each reads back as the segment's FIFA code and ids; with no segment
      the string is empty and its only part is skipped. */
  lemma ShareRoundTrip(segs: seq<Segment>)
    requires forall i :: 0 <= i < |segs| ==> WellFormed(segs[i])
    ensures EncodeShare(segs) == "" <==> segs == []
    ensures segs == [] ==> Split(EncodeShare(segs), '|') == [""] && ReadPart("") == None
    ensures segs != [] ==> var parts := Split(EncodeShare(segs), '|');
      |parts| == |segs| && forall i :: 0 <= i < |segs| ==> ReadPart(parts[i]) == Some(Part(segs[i].fifa, SomeIds(segs[i].ids)))
  {
    var texts := EncodeSegments(segs);
    if segs == [] {
      assert Split("", ':') == [""];
    } else {
      forall i | 0 <= i < |texts|
        ensures '|' !in texts[i]
      {
        EncodeIdsAvoids(segs[i].ids);
        assert texts[i] == segs[i].fifa + ":" + EncodeIds(segs[i].ids);
      }
      SplitJoin(texts, '|');
      forall i | 0 <= i < |segs|
        ensures ReadPart(texts[i]) == Some(Part(segs[i].fifa, SomeIds(segs[i].ids)))
      {
        SegmentRoundTrip(segs[i]);
      }
      JoinHead(texts, '|');
      assert |texts[0]| >= 1;
    }
  }

  /** `btoa`'s result: `atob` gives back the text. */
  datatype Token = Encoded(payload: string)

  function Atob(t: Token): string {
    t.payload
  }

  /** `generateShareData()`: one segment per country with a saved non-empty squad, in
      table order, each the FIFA code and the player ids in squad order. */
  method GenerateShareData(store: Store) returns (r: string)
    ensures r == EncodeShare(SegmentsOf(Entries(store.items, Countries)))
  {
    r := ShareDataOver(store, Countries);
  }

  /** The loop of `generateShareData` over a table. */
  method ShareDataOver(store: Store, cs: seq<Country>) returns (r: string)
    ensures r == EncodeShare(SegmentsOf(Entries(store.items, cs)))
  {
    var parts: seq<string> := [];
    ghost var es: seq<Entry> := [];
    var i := 0;
    while i < |cs|
      invariant 0 <= i <= |cs|
      invariant es == Entries(store.items, cs[..i])
      invariant parts == EncodeSegments(SegmentsOf(es))
    {
      EntriesSnoc(store.items, cs, i);
      var squad := EntryOf(store.items, cs[i]);
      if squad != [] {
        var ids := EncodeIds(PlayerIds(squad[0].players));
        EncodeSnoc(es, squad[0]);
        parts := parts + [cs[i].fifa + ":" + ids];
        es := es + squad;
      } else {
        assert es + [] == es;
      }
      i := i + 1;
    }
    assert cs[..|cs|] == cs;
    r := Join(parts, '|');
  }

  lemma EncodeSnoc(es: seq<Entry>, e: Entry)
    ensures EncodeSegments(SegmentsOf(es + [e])) == EncodeSegments(SegmentsOf(es)) + [EncodeSegment(SegmentOf(e))]
  {
  }

  /** What the generator emits is well formed. */
  lemma GeneratedWellFormed(items: map<string, Value>, cs: seq<Country>)
    requires GoodTable(cs)
    ensures forall i :: 0 <= i < |Entries(items, cs)| ==> WellFormed(SegmentsOf(Entries(items, cs))[i])
  {
    var es := Entries(items, cs);
    EntriesProperties(items, cs);
    forall i | 0 <= i < |es|
      ensures WellFormed(SegmentOf(es[i]))
    {
      assert es[i] in es;
      var j :| 0 <= j < |cs| && cs[j] == es[i].country;
      assert DelimiterFree(cs[j]);
    }
  }

  /** `shareAllSquads`: nothing to share gives no token; otherwise the token of the
      share string. */
  method ShareAllSquads(store: Store) returns (token: Option<Token>)
    ensures token.None? <==> Entries(store.items, Countries) == []
    ensures token.Some? ==> Atob(token.value) == EncodeShare(SegmentsOf(Entries(store.items, Countries)))
  {
    var shareData := GenerateShareData(store);
    CountriesGood();
    GeneratedWellFormed(store.items, Countries);
    ShareRoundTrip(SegmentsOf(Entries(store.items, Countries)));
    if shareData == "" {
      return None;
    }
    token := Some(Encoded(shareData));
  }

  // ---------------------------------------------------------------- loading a link

  /** The `data` query parameter: absent or empty, not valid base64, or a token. */
  datatype DataParam = Absent | Undecodable | Given(token: Token)

  /** `COUNTRIES.find(c => c.fifa === fifa)` over a table. */
  function FindCountryIn(cs: seq<Country>, fifa: string): (r: Option<Country>)
    ensures r.None? <==> forall i :: 0 <= i < |cs| ==> cs[i].fifa != fifa
    ensures r.Some? ==> r.value in cs && r.value.fifa == fifa
  {
    if cs == [] then None
    else if cs[0].fifa == fifa then Some(cs[0])
    else FindCountryIn(cs[1..], fifa)
  }

  /** In a table with distinct FIFA codes each country is found by its own code. */
  lemma FindCountryUnique(cs: seq<Country>, c: Country)
    requires DistinctTable(cs) && c in cs
    ensures FindCountryIn(cs, c.fifa) == Some(c)
  {
    var r := FindCountryIn(cs, c.fifa);
    var i :| 0 <= i < |cs| && cs[i] == c;
    var j :| 0 <= j < |cs| && cs[j] == r.value;
    assert i == j;
  }

  /** `ids.map(id => players.find(p => p.id === id)).filter(p => p !== undefined)`. */
  function Resolve(ids: seq<Option<int>>, catalog: seq<Player>): (r: seq<Player>)
    ensures |r| <= |ids|
    ensures forall p :: p in r ==> p in catalog && Some(p.id) in ids
  {
    if ids == [] then []
    else
      var head := if ids[0].Some? && Find(catalog, ids[0].value).Some? then [Find(catalog, ids[0].value).value] else [];
      head + Resolve(ids[1..], catalog)
  }

  /** Resolution keeps the order of the id list: resolving a concatenation resolves
      each part. */
  lemma {:induction false} ResolveConcat(a: seq<Option<int>>, b: seq<Option<int>>, catalog: seq<Player>)
    ensures Resolve(a + b, catalog) == Resolve(a, catalog) + Resolve(b, catalog)
  {
    if a == [] {
      assert a + b == b;
    } else {
      assert (a + b)[0] == a[0];
      assert (a + b)[1..] == a[1..] + b;
      ResolveConcat(a[1..], b, catalog);
    }
  }

  /** An id that is NaN or matches no catalog player is dropped. */
  lemma ResolveDropsUnknown(ids: seq<Option<int>>, catalog: seq<Player>)
    requires forall i :: 0 <= i < |ids| ==> ids[i].None? || Find(catalog, ids[i].value).None?
    ensures Resolve(ids, catalog) == []
  {
  }

  /** Ids of players that the catalog finds as themselves resolve back to exactly
      those players. */
  lemma {:induction false} ResolveRestores(ps: seq<Player>, catalog: seq<Player>)
    requires forall p :: p in ps ==> Find(catalog, p.id) == Some(p)
    ensures Resolve(SomeIds(PlayerIds(ps)), catalog) == ps
  {
    if ps != [] {
      var ids := SomeIds(PlayerIds(ps));
      assert ids[1..] == SomeIds(PlayerIds(ps[1..]));
      assert ps[0] in ps;
      ResolveRestores(ps[1..], catalog);
      assert [ps[0]] + ps[1..] == ps;
    }
  }

  /** A store write the loader performs: the resolved players of one country. */
  datatype Write = Write(code: string, players: seq<Player>)

  /** The write one part of the link causes against a country table; the fetched
      catalogs are keyed by country key, a missing entry standing for a failed fetch or
      a file without players. */
  function WriteOf(part: string, cs: seq<Country>, fetched: map<string, seq<Player>>): seq<Write> {
    match ReadPart(part)
    case None => []
    case Some(pt) =>
      match FindCountryIn(cs, pt.fifa)
      case None => []
      case Some(c) =>
        if c.code !in fetched then []
        else
          var players := Resolve(pt.ids, fetched[c.code]);
          if |players| > 0 then [Write(c.code, players)] else []
  }

  function Writes(parts: seq<string>, cs: seq<Country>, fetched: map<string, seq<Player>>): seq<Write> {
    FlatMap(parts, (part: string) => WriteOf(part, cs, fetched))
  }

  function ApplyWrites(items: map<string, Value>, ws: seq<Write>, now: int): map<string, Value>
    decreases |ws|
  {
    if ws == [] then items
    else
      var w := ws[|ws| - 1];
      ApplyWrites(items, ws[..|ws| - 1], now)[LegacyKey(w.code) := SquadDoc(Squad(w.code, w.players, now))]
  }

  /** Parts are independent: the writes of a concatenation are the writes of each
      part, so a skipped part affects no other. */
  lemma WritesConcat(a: seq<string>, b: seq<string>, cs: seq<Country>, fetched: map<string, seq<Player>>)
    ensures Writes(a + b, cs, fetched) == Writes(a, cs, fetched) + Writes(b, cs, fetched)
  {
    FlatMapConcat(a, b, (part: string) => WriteOf(part, cs, fetched));
  }

  /** A write the loader may perform: for a table country with a catalog, with at
      least one player and only players of that catalog. */
  ghost predicate WriteAllowed(w: Write, cs: seq<Country>, fetched: map<string, seq<Player>>) {
    (exists c :: c in cs && c.code == w.code) && w.code in fetched && |w.players| > 0
    && forall p :: p in w.players ==> p in fetched[w.code]
  }

  lemma WriteOfAllowed(part: string, cs: seq<Country>, fetched: map<string, seq<Player>>)
    ensures forall w :: w in WriteOf(part, cs, fetched) ==> WriteAllowed(w, cs, fetched)
  {
    match ReadPart(part)
    case None =>
    case Some(pt) =>
      match FindCountryIn(cs, pt.fifa)
      case None =>
      case Some(c) =>
        if c.code in fetched {
          var players := Resolve(pt.ids, fetched[c.code]);
          if |players| > 0 {
            assert WriteAllowed(Write(c.code, players), cs, fetched);
          }
        }
  }

  /** Every write is for a table country, holds at least one player, and only players
      of that country's catalog. */
  lemma {:induction false} WritesProperties(parts: seq<string>, cs: seq<Country>, fetched: map<string, seq<Player>>)
    ensures forall w :: w in Writes(parts, cs, fetched) ==>
      (exists c :: c in cs && c.code == w.code) && w.code in fetched && |w.players| > 0
      && forall p :: p in w.players ==> p in fetched[w.code]
    decreases |parts|
  {
    WritesAllowed(parts, cs, fetched);
    forall w | w in Writes(parts, cs, fetched)
      ensures (exists c :: c in cs && c.code == w.code) && w.code in fetched && |w.players| > 0
        && forall p :: p in w.players ==> p in fetched[w.code]
    {
      assert WriteAllowed(w, cs, fetched);
    }
  }

  lemma {:induction false} WritesAllowed(parts: seq<string>, cs: seq<Country>, fetched: map<string, seq<Player>>)
    ensures forall w :: w in Writes(parts, cs, fetched) ==> WriteAllowed(w, cs, fetched)
    decreases |parts|
  {
    if parts != [] {
      var n := |parts| - 1;
      var init, last := Writes(parts[..n], cs, fetched), WriteOf(parts[n], cs, fetched);
      assert Writes(parts, cs, fetched) == init + last;
      WritesAllowed(parts[..n], cs, fetched);
      WriteOfAllowed(parts[n], cs, fetched);
      forall w | w in init + last
        ensures WriteAllowed(w, cs, fetched)
      {
        if w !in init {
          assert w in last;
        }
      }
    }
  }

  /** Keys that no write targets keep their value. */
  lemma {:induction false} ApplyWritesOutside(items: map<string, Value>, ws: seq<Write>, now: int, k: string)
    requires forall i :: 0 <= i < |ws| ==> LegacyKey(ws[i].code) != k
    ensures k in ApplyWrites(items, ws, now) <==> k in items
    ensures k in items ==> ApplyWrites(items, ws, now)[k] == items[k]
    decreases |ws|
  {
    if ws != [] {
      ApplyWritesOutside(items, ws[..|ws| - 1], now, k);
    }
  }

  /** A write that no later write overrides is what the store holds at the end. */
  lemma {:induction false} ApplyWritesLast(items: map<string, Value>, ws: seq<Write>, now: int, i: nat)
    requires i < |ws|
    requires forall j :: i < j < |ws| ==> ws[j].code != ws[i].code
    ensures var r := ApplyWrites(items, ws, now);
      LegacyKey(ws[i].code) in r && r[LegacyKey(ws[i].code)] == SquadDoc(Squad(ws[i].code, ws[i].players, now))
    decreases |ws|
  {
    var last := ws[|ws| - 1];
    if i < |ws| - 1 {
      ApplyWritesLast(items, ws[..|ws| - 1], now, i);
      assert last.code != ws[i].code;
      LegacyKeyInjective(last.code, ws[i].code);
    }
  }

  lemma LegacyKeyInjective(a: string, b: string)
    ensures LegacyKey(a) == LegacyKey(b) <==> a == b
  {
    if LegacyKey(a) == LegacyKey(b) {
      assert a == LegacyKey(a)[|LegacyPrefix|..];
    }
  }

  /** `loadFromURL()`: decode the parameter, and for each part write the resolved
      players of its country under the single-profile key, counting the writes. An
      absent or undecodable parameter changes nothing and reports false. */
  method LoadFromURL(store: Store, param: DataParam, fetched: map<string, seq<Player>>, now: int)
    returns (loaded: bool, loadedCount: nat)
    modifies store
    ensures !param.Given? ==> store.items == old(store.items) && loadedCount == 0
    ensures param.Given? ==> var ws := Writes(Split(Atob(param.token), '|'), Countries, fetched);
      store.items == ApplyWrites(old(store.items), ws, now) && loadedCount == |ws|
    ensures loaded <==> loadedCount > 0
  {
    if !param.Given? {
      return false, 0;
    }
    var decoded := Atob(param.token);
    var parts := Split(decoded, '|');
    loadedCount := LoadParts(store, parts, Countries, fetched, now);
    loaded := loadedCount > 0;
  }

  /** The loop of `loadFromURL` over the parts of a decoded link. */
  method LoadParts(store: Store, parts: seq<string>, cs: seq<Country>, fetched: map<string, seq<Player>>, now: int)
    returns (loadedCount: nat)
    modifies store
    ensures var ws := Writes(parts, cs, fetched);
      store.items == ApplyWrites(old(store.items), ws, now) && loadedCount == |ws|
  {
    loadedCount := 0;
    var i := 0;
    while i < |parts|
      invariant 0 <= i <= |parts|
      invariant store.items == ApplyWrites(old(store.items), Writes(parts[..i], cs, fetched), now)
      invariant loadedCount == |Writes(parts[..i], cs, fetched)|
    {
      var part := parts[i];
      var ws := Writes(parts[..i], cs, fetched);
      assert parts[..i + 1][..i] == parts[..i];
      assert Writes(parts[..i + 1], cs, fetched) == ws + WriteOf(part, cs, fetched);
      var fields := Split(part, ':');
      var fifaCode := fields[0];
      var idsStr := if |fields| >= 2 then fields[1] else "";
      var written := false;
      if fifaCode != "" && idsStr != "" {
        var country := FindCountryIn(cs, fifaCode);
        if country.Some? {
          var ids := ParseIds(idsStr);
          assert ReadPart(part) == Some(Part(fifaCode, ids));
          if country.value.code in fetched {
            var players := Resolve(ids, fetched[country.value.code]);
            if |players| > 0 {
              var w := Write(country.value.code, players);
              assert WriteOf(part, cs, fetched) == [w];
              assert (ws + [w])[..|ws|] == ws && (ws + [w])[|ws|] == w;
              store.SetItem(LegacyKey(country.value.code), SquadDoc(Squad(country.value.code, players, now)));
              loadedCount := loadedCount + 1;
              written := true;
            }
          }
        }
      }
      if !written {
        assert WriteOf(part, cs, fetched) == [];
        assert ws + [] == ws;
      }
      i := i + 1;
    }
    assert parts[..|parts|] == parts;
  }

  // ---------------------------------------------------------------- share then load

  function WritesOf(es: seq<Entry>): seq<Write> {
    seq(|es|, i requires 0 <= i < |es| => Write(es[i].country.code, es[i].players))
  }

  /** The fetched catalog of every shared country finds each shared player as
      itself. */
  predicate CatalogsHold(es: seq<Entry>, fetched: map<string, seq<Player>>) {
    forall i :: 0 <= i < |es| ==>
      es[i].country.code in fetched && forall p :: p in es[i].players ==> Find(fetched[es[i].country.code], p.id) == Some(p)
  }

  /** The part a shared entry is written as brings that entry's players back. */
  lemma EntryWrite(e: Entry, part: string, cs: seq<Country>, fetched: map<string, seq<Player>>)
    requires DistinctTable(cs) && e.country in cs && |e.players| > 0
    requires e.country.code in fetched
    requires forall p :: p in e.players ==> Find(fetched[e.country.code], p.id) == Some(p)
    requires ReadPart(part) == Some(Part(e.country.fifa, SomeIds(PlayerIds(e.players))))
    ensures WriteOf(part, cs, fetched) == [Write(e.country.code, e.players)]
  {
    FindCountryUnique(cs, e.country);
    ResolveRestores(e.players, fetched[e.country.code]);
  }

  /** The parts of a generated link: one per shared entry, each reading back as the
      entry's FIFA code and player ids; with nothing shared, one empty part that is
      skipped. */
  lemma SharedParts(items: map<string, Value>, cs: seq<Country>)
    requires GoodTable(cs)
    ensures var es := Entries(items, cs);
      var parts := Split(EncodeShare(SegmentsOf(es)), '|');
      && (es == [] ==> parts == [""] && ReadPart("") == None)
      && (es != [] ==> |parts| == |es| && forall i :: 0 <= i < |es| ==>
            ReadPart(parts[i]) == Some(Part(es[i].country.fifa, SomeIds(PlayerIds(es[i].players)))))
  {
    var es := Entries(items, cs);
    var segs := SegmentsOf(es);
    GeneratedWellFormed(items, cs);
    assert forall i :: 0 <= i < |segs| ==> WellFormed(segs[i]);
    ShareRoundTrip(segs);
    assert forall i :: 0 <= i < |es| ==> segs[i] == SegmentOf(es[i]);
  }

  /** Loading a generated link against catalogs holding the shared players performs
      exactly one write per shared country, in table order, with that country's saved
      players. It holds for every table with distinct, delimiter-free entries, which
      the overview's table is (`CountriesGood`). */
  lemma ShareThenLoad(items: map<string, Value>, cs: seq<Country>, fetched: map<string, seq<Player>>)
    requires GoodTable(cs)
    requires CatalogsHold(Entries(items, cs), fetched)
    ensures var es := Entries(items, cs);
      Writes(Split(EncodeShare(SegmentsOf(es)), '|'), cs, fetched) == WritesOf(es)
  {
    var es := Entries(items, cs);
    var parts := Split(EncodeShare(SegmentsOf(es)), '|');
    SharedParts(items, cs);
    if es == [] {
      assert parts[..0] == [];
    } else {
      EntriesIndexed(items, cs);
      PartsWrite(parts, es, cs, fetched);
    }
  }

  /** `EntriesProperties` by index: each entry is a table country with players. */
  lemma EntriesIndexed(items: map<string, Value>, cs: seq<Country>)
    ensures var es := Entries(items, cs);
      forall i :: 0 <= i < |es| ==> es[i].country in cs && |es[i].players| > 0
  {
    var es := Entries(items, cs);
    EntriesProperties(items, cs);
    forall i | 0 <= i < |es|
      ensures es[i].country in cs && |es[i].players| > 0
    {
      assert es[i] in es;
    }
  }

  /** Parts that read back as the entries, against catalogs holding the entries'
      players, write exactly the entries. */
  lemma PartsWrite(parts: seq<string>, es: seq<Entry>, cs: seq<Country>, fetched: map<string, seq<Player>>)
    requires DistinctTable(cs) && CatalogsHold(es, fetched)
    requires |parts| == |es|
    requires forall i :: 0 <= i < |es| ==> es[i].country in cs && |es[i].players| > 0
    requires forall i :: 0 <= i < |es| ==>
      ReadPart(parts[i]) == Some(Part(es[i].country.fifa, SomeIds(PlayerIds(es[i].players))))
    ensures Writes(parts, cs, fetched) == WritesOf(es)
  {
    var f := (part: string) => WriteOf(part, cs, fetched);
    forall i | 0 <= i < |parts|
      ensures f(parts[i]) == [WritesOf(es)[i]]
    {
      EntryWrite(es[i], parts[i], cs, fetched);
    }
    FlatMapSingletons(parts, f, WritesOf(es));
  }

  /** Writing the entries of distinct countries leaves each country's key holding its
      entry's players. */
  lemma WritesRestore(target: map<string, Value>, es: seq<Entry>, now: int)
    requires forall j, k :: 0 <= j < k < |es| ==> es[j].country.code != es[k].country.code
    ensures forall i :: 0 <= i < |es| ==>
      SquadPlayers(GetSavedSquad(ApplyWrites(target, WritesOf(es), now), es[i].country.code)) == Some(es[i].players)
  {
    var ws := WritesOf(es);
    forall i | 0 <= i < |es|
      ensures SquadPlayers(GetSavedSquad(ApplyWrites(target, ws, now), es[i].country.code)) == Some(es[i].players)
    {
      ApplyWritesLast(target, ws, now, i);
    }
  }

  /** After loading a generated link into any store, every shared country's key holds
      its saved players again, and the overview reads them back. */
  lemma ShareThenLoadRestores(items: map<string, Value>, target: map<string, Value>, cs: seq<Country>,
                              fetched: map<string, seq<Player>>, now: int)
    requires GoodTable(cs)
    requires CatalogsHold(Entries(items, cs), fetched)
    ensures var es := Entries(items, cs);
      var r := ApplyWrites(target, Writes(Split(EncodeShare(SegmentsOf(es)), '|'), cs, fetched), now);
      forall i :: 0 <= i < |es| ==>
        SquadPlayers(GetSavedSquad(r, es[i].country.code)) == Some(es[i].players)
  {
    ShareThenLoad(items, cs, fetched);
    EntriesDistinct(items, cs);
    WritesRestore(target, Entries(items, cs), now);
  }
}
