/** The offline downloader: for one country it requests up to twenty Transfermarkt
    pages, cuts each page into player rows, and merges the players of all pages into
    one list, keeping the first player seen for each Transfermarkt id and numbering
    the kept players 1..n in the order they were kept. A page request is an input:
    `pages[k]` is what page k + 1 yields (its rows, already matched by the row
    patterns), None when fetching it raised; pages beyond the list raise. */
module Download {
  import opened Common
  import opened Catalog

  const MaxPages := 20

  /** The width of the last row's slice: "enough for one row". */
  const LastRowWidth := 2000

  datatype DlCountry = DlCountry(id: int, name: string, nameLocal: string, code: string, confederation: string)

  /** `COUNTRIES`: the countries the downloader knows, keyed by country key. */
  const DlCountries: map<string, DlCountry> := map[
    "spain" := DlCountry(157, "Spain", "España", "ESP", "UEFA"),
    "france" := DlCountry(50, "France", "France", "FRA", "UEFA"),
    "germany" := DlCountry(40, "Germany", "Deutschland", "GER", "UEFA"),
    "england" := DlCountry(189, "England", "England", "ENG", "UEFA"),
    "brazil" := DlCountry(26, "Brazil", "Brasil", "BRA", "CONMEBOL"),
    "argentina" := DlCountry(9, "Argentina", "Argentina", "ARG", "CONMEBOL"),
    "portugal" := DlCountry(136, "Portugal", "Portugal", "POR", "UEFA"),
    "italy" := DlCountry(75, "Italy", "Italia", "ITA", "UEFA"),
    "netherlands" := DlCountry(122, "Netherlands", "Nederland", "NED", "UEFA"),
    "belgium" := DlCountry(19, "Belgium", "Belgie", "BEL", "UEFA"),
    "croatia" := DlCountry(56, "Croatia", "Hrvatska", "CRO", "UEFA"),
    "uruguay" := DlCountry(179, "Uruguay", "Uruguay", "URU", "CONMEBOL"),
    "colombia" := DlCountry(83, "Colombia", "Colombia", "COL", "CONMEBOL"),
    "denmark" := DlCountry(39, "Denmark", "Danmark", "DEN", "UEFA"),
    "usa" := DlCountry(184, "USA", "United States", "USA", "CONCACAF"),
    "morocco" := DlCountry(107, "Morocco", "المغرب", "MAR", "CAF"),
    "egypt" := DlCountry(2, "Egypt", "مصر", "EGY", "CAF"),
    "senegal" := DlCountry(149, "Senegal", "Sénégal", "SEN", "CAF"),
    "japan" := DlCountry(77, "Japan", "日本", "JPN", "AFC"),
    "qatar" := DlCountry(137, "Qatar", "قطر", "QAT", "AFC"),
    "mexico" := DlCountry(110, "Mexico", "México", "MEX", "CONCACAF"),
    "switzerland" := DlCountry(148, "Switzerland", "Schweiz", "SUI", "UEFA")]

  // ---------------------------------------------------------------- row slicing

  /** Python's `text[start:end]` for non-negative bounds: both are clamped to the
      text, and a reversed range is empty. */
  function PySlice(text: string, start: nat, end: nat): (r: string)
    ensures start < |text| && start <= end ==> r == text[start..if end <= |text| then end else |text|]
    ensures start >= |text| || end <= start ==> r == []
  {
    if start >= |text| || end <= start then []
    else text[start..if end <= |text| then end else |text|]
  }

  /** Where the i-th row ends: at the next row's start, or 2000 characters on. */
  function RowEnd(starts: seq<nat>, i: nat): nat
    requires i < |starts|
  {
    if i + 1 < |starts| then starts[i + 1] else starts[i] + LastRowWidth
  }

  /** The row slicing of `parse_players_from_html`; `starts` are the positions of the
      `<tr class="odd">` and `<tr class="even">` tags. */
  method SliceRows(text: string, starts: seq<nat>) returns (rows: seq<string>)
    ensures |rows| == |starts|
    ensures forall i :: 0 <= i < |starts| ==> rows[i] == PySlice(text, starts[i], RowEnd(starts, i))
  {
    rows := [];
    var i := 0;
    while i < |starts|
      invariant 0 <= i <= |starts| && |rows| == i
      invariant forall k :: 0 <= k < i ==> rows[k] == PySlice(text, starts[k], RowEnd(starts, k))
    {
      var start := starts[i];
      var end := if i + 1 < |starts| then starts[i + 1] else start + LastRowWidth;
      rows := rows + [PySlice(text, start, end)];
      i := i + 1;
    }
  }

  /** The texts one after the other. */
  function Concat(ss: seq<string>): string
    decreases |ss|
  {
    if ss == [] then [] else Concat(ss[..|ss| - 1]) + ss[|ss| - 1]
  }

  /** Tag positions as the pattern search yields them: increasing, inside the text. */
  predicate Ascending(text: string, starts: seq<nat>) {
    (forall i :: 0 <= i < |starts| ==> starts[i] < |text|)
    && (forall i :: 0 <= i < |starts| - 1 ==> starts[i] < starts[i + 1])
  }

  /** Pieces cut between consecutive cut points, laid end to end, give the text
      from the first cut to the last. */
  lemma {:induction false} Tile(text: string, cuts: seq<int>, pieces: seq<string>)
    requires |cuts| == |pieces| + 1
    requires forall i :: 0 <= i < |cuts| ==> 0 <= cuts[i] <= |text|
    requires forall i :: 0 <= i < |pieces| ==> cuts[i] <= cuts[i + 1] && pieces[i] == text[cuts[i]..cuts[i + 1]]
    ensures cuts[0] <= cuts[|pieces|] && Concat(pieces) == text[cuts[0]..cuts[|pieces|]]
    decreases |pieces|
  {
    var n := |pieces|;
    if n > 0 {
      Tile(text, cuts[..n], pieces[..n - 1]);
      assert text[cuts[0]..cuts[n - 1]] + text[cuts[n - 1]..cuts[n]] == text[cuts[0]..cuts[n]];
    }
  }

  /** Where the slice of row i stops: its end, clamped to the text. */
  function RowStop(text: string, starts: seq<nat>, i: nat): nat
    requires i < |starts|
  {
    if RowEnd(starts, i) <= |text| then RowEnd(starts, i) else |text|
  }

  /** Each row is the text between its start and its stop. */
  lemma RowIsPiece(text: string, starts: seq<nat>, i: nat, row: string)
    requires Ascending(text, starts) && i < |starts|
    requires row == PySlice(text, starts[i], RowEnd(starts, i))
    ensures starts[i] <= RowStop(text, starts, i) && row == text[starts[i]..RowStop(text, starts, i)]
    ensures i + 1 < |starts| ==> RowStop(text, starts, i) == starts[i + 1]
  {
    assert starts[i] < |text|;
    if i + 1 < |starts| {
      assert starts[i] < starts[i + 1] < |text|;
    }
  }

  /** The rows neither overlap nor leave gaps: laid end to end they are the text from
      the first row's start to the end of the last row's slice. */
  lemma SlicesTile(text: string, starts: seq<nat>, rows: seq<string>)
    requires Ascending(text, starts) && |starts| > 0
    requires |rows| == |starts|
    requires forall i :: 0 <= i < |starts| ==> rows[i] == PySlice(text, starts[i], RowEnd(starts, i))
    ensures starts[0] <= RowStop(text, starts, |starts| - 1)
      && Concat(rows) == text[starts[0]..RowStop(text, starts, |starts| - 1)]
  {
    var n := |starts|;
    var cuts: seq<int> := starts + [RowStop(text, starts, n - 1)];
    forall i | 0 <= i < |cuts|
      ensures 0 <= cuts[i] <= |text|
    {
      if i < n {
        assert cuts[i] == starts[i] < |text|;
      }
    }
    forall i | 0 <= i < n
      ensures cuts[i] <= cuts[i + 1] && rows[i] == text[cuts[i]..cuts[i + 1]]
    {
      RowIsPiece(text, starts, i, rows[i]);
      assert cuts[i] == starts[i];
      assert cuts[i + 1] == RowStop(text, starts, i);
    }
    Tile(text, cuts, rows);
  }

  // ---------------------------------------------------------------- parsing

  /** One row slice as the row patterns read it: `NoNameLink` when the name pattern
      does not match (the row is skipped). A field whose pattern does not match is
      None; the market value is already parsed. */
  datatype DlRow =
    | NoNameLink
    | Row(playerId: int, name: string, positionText: Option<string>, club: Option<string>,
          age: Option<int>, marketValue: int)

  /** The player dictionary a matched row yields. */
  function PlayerOf(id: int, name: string, positionText: Option<string>, club: Option<string>,
                    age: Option<int>, marketValue: int): (r: Player)
    ensures r.id == id && r.name == name && r.age == age && r.marketValue == Some(marketValue)
    ensures IsCoarsePosition(r.position)
    ensures r.position == CoarsePosition(positionText.GetOr(""))
    ensures r.detailedPosition == DetailedPosition(positionText.GetOr(""))
    ensures r.club == club.GetOr("Unknown")
  {
    var text := positionText.GetOr("");
    Player(id, name, CoarsePosition(text), DetailedPosition(text), club.GetOr("Unknown"), age, Some(marketValue))
  }

  /** `parse_players_from_html` after the row patterns: the rows with a name link, in
      page order. */
  function ParsePlayers(rows: seq<DlRow>): (r: seq<Player>)
    ensures |r| <= |rows|
    decreases |rows|
  {
    if rows == [] then []
    else
      var init := ParsePlayers(rows[..|rows| - 1]);
      match rows[|rows| - 1]
      case NoNameLink => init
      case Row(id, name, pos, club, age, mv) => init + [PlayerOf(id, name, pos, club, age, mv)]
  }

  /** Every parsed player has one of the four positions, and as many players come out
      as rows have a name link. */
  lemma {:induction false} ParsePlayersProperties(rows: seq<DlRow>)
    ensures forall p :: p in ParsePlayers(rows) ==> IsCoarsePosition(p.position)
    ensures (forall i :: 0 <= i < |rows| ==> rows[i].Row?) ==> |ParsePlayers(rows)| == |rows|
    decreases |rows|
  {
    if rows != [] {
      var init := rows[..|rows| - 1];
      ParsePlayersProperties(init);
      assert forall i :: 0 <= i < |init| ==> init[i] == rows[i];
    }
  }

  // ---------------------------------------------------------------- merge

  /** The merge state: the kept players and the Transfermarkt ids seen. */
  datatype Merge = Merge(all: seq<Player>, seen: set<int>)

  /** One player of a page: a new id is remembered, the player renumbered to the next
      place and appended; a seen id is dropped. */
  function Step(m: Merge, p: Player): Merge {
    if p.id in m.seen then m
    else Merge(m.all + [p.(id := |m.all| + 1)], m.seen + {p.id})
  }

  function Fold(m: Merge, ps: seq<Player>): Merge
    decreases |ps|
  {
    if ps == [] then m else Step(Fold(m, ps[..|ps| - 1]), ps[|ps| - 1])
  }

  lemma {:induction false} FoldConcat(m: Merge, a: seq<Player>, b: seq<Player>)
    ensures Fold(m, a + b) == Fold(Fold(m, a), b)
    decreases |b|
  {
    if b == [] {
      assert a + b == a;
    } else {
      var b0 := b[..|b| - 1];
      assert (a + b)[..|a + b| - 1] == a + b0;
      FoldConcat(m, a, b0);
    }
  }

  /** The reference definition of what survives deduplication: a player is kept when
      its id was not seen before and does not occur earlier in the list. */
  function Kept(ps: seq<Player>, seen: set<int>): seq<Player>
    decreases |ps|
  {
    if ps == [] then []
    else
      var init := ps[..|ps| - 1];
      var p := ps[|ps| - 1];
      if p.id in seen || p.id in IdsOf(init) then Kept(init, seen) else Kept(init, seen) + [p]
  }

  /** A sound merge state: one seen id per kept player, the kept players numbered
      1..n. */
  predicate Numbered(m: Merge) {
    |m.all| == |m.seen| && forall k :: 0 <= k < |m.all| ==> m.all[k].id == k + 1
  }

  lemma IdsOfSnoc(s: seq<Player>, p: Player)
    ensures IdsOf(s + [p]) == IdsOf(s) + {p.id}
  {
    assert forall q :: q in s + [p] <==> q in s || q == p;
  }

  /** Folding a list adds its ids to the seen ones. */
  lemma {:induction false} FoldSeen(m: Merge, ps: seq<Player>)
    ensures Fold(m, ps).seen == m.seen + IdsOf(ps)
    decreases |ps|
  {
    if ps != [] {
      var n := |ps|;
      FoldSeen(m, ps[..n - 1]);
      assert ps[..n - 1] + [ps[n - 1]] == ps;
      IdsOfSnoc(ps[..n - 1], ps[n - 1]);
    }
  }

  /** One unfolding of `Kept`. */
  lemma KeptSnoc(ps: seq<Player>, seen: set<int>)
    requires ps != []
    ensures var init := ps[..|ps| - 1];
      var p := ps[|ps| - 1];
      Kept(ps, seen) == if p.id in seen || p.id in IdsOf(init) then Kept(init, seen) else Kept(init, seen) + [p]
  {
  }

  /** Folding a list appends exactly the reference survivors, up to numbering. */
  lemma {:induction false} FoldKept(m: Merge, ps: seq<Player>)
    ensures Unnumber(Fold(m, ps).all) == Unnumber(m.all) + Unnumber(Kept(ps, m.seen))
    decreases |ps|
  {
    if ps != [] {
      var n := |ps|;
      var init := ps[..n - 1];
      var p := ps[n - 1];
      FoldKept(m, init);
      FoldSeen(m, init);
      KeptSnoc(ps, m.seen);
      var prev := Fold(m, init);
      assert Fold(m, ps) == Step(prev, p);
      if p.id !in prev.seen {
        var q := p.(id := |prev.all| + 1);
        assert Kept(ps, m.seen) == Kept(init, m.seen) + [p];
        UnnumberConcat(prev.all, [q]);
        UnnumberConcat(Kept(init, m.seen), [p]);
        assert Unnumber([q]) == Unnumber([p]);
        assert Unnumber(Fold(m, ps).all) == Unnumber(prev.all) + Unnumber([p]);
        assert Unnumber(prev.all) == Unnumber(m.all) + Unnumber(Kept(init, m.seen));
      }
    }
  }

  /** A sound state stays sound. */
  lemma {:induction false} FoldNumbered(m: Merge, ps: seq<Player>)
    requires Numbered(m)
    ensures Numbered(Fold(m, ps))
    decreases |ps|
  {
    if ps != [] {
      var n := |ps|;
      FoldNumbered(m, ps[..n - 1]);
      var prev := Fold(m, ps[..n - 1]);
      if ps[n - 1].id !in prev.seen {
        assert |prev.seen + {ps[n - 1].id}| == |prev.seen| + 1;
      }
    }
  }

  /** The survivors come from the list, carry ids not seen before, and no two carry
      the same id. */
  lemma {:induction false} KeptDistinct(ps: seq<Player>, seen: set<int>)
    ensures DistinctIds(Kept(ps, seen))
    ensures forall p :: p in Kept(ps, seen) ==> p in ps && p.id !in seen
    decreases |ps|
  {
    if ps != [] {
      var n := |ps|;
      var init := ps[..n - 1];
      var p := ps[n - 1];
      KeptDistinct(init, seen);
      var k := Kept(init, seen);
      assert forall q :: q in init ==> q in ps;
      if !(p.id in seen || p.id in IdsOf(init)) {
        forall q | q in k
          ensures q.id != p.id
        {
          assert q in init;
        }
      }
    }
  }

  /** Every id of the list that was not seen before survives, through the first
      player carrying it. */
  lemma {:induction false} KeptFirst(ps: seq<Player>, seen: set<int>, i: int)
    requires 0 <= i < |ps| && ps[i].id !in seen
    requires forall j :: 0 <= j < i ==> ps[j].id != ps[i].id
    ensures ps[i] in Kept(ps, seen)
    decreases |ps|
  {
    var n := |ps|;
    var init := ps[..n - 1];
    if i < n - 1 {
      assert ps[i] == init[i];
      KeptFirst(init, seen, i);
    }
  }

  /** The survivors' ids are the list's ids less the seen ones. */
  lemma {:induction false} KeptIds(ps: seq<Player>, seen: set<int>)
    ensures IdsOf(Kept(ps, seen)) == IdsOf(ps) - seen
    decreases |ps|
  {
    if ps != [] {
      var n := |ps|;
      var init := ps[..n - 1];
      var p := ps[n - 1];
      KeptIds(init, seen);
      assert init + [p] == ps;
      IdsOfSnoc(init, p);
      if !(p.id in seen || p.id in IdsOf(init)) {
        IdsOfSnoc(Kept(init, seen), p);
      }
    }
  }

  /** The players of the pages whose fetch succeeded, in page order. */
  function Fetched(pages: seq<Option<seq<DlRow>>>): seq<Player>
    decreases |pages|
  {
    if pages == [] then []
    else
      var init := Fetched(pages[..|pages| - 1]);
      match pages[|pages| - 1]
      case None => init
      case Some(rows) => init + ParsePlayers(rows)
  }

  /** What `pages` says page `page` (1-based) yields. */
  function PageAt(pages: seq<Option<seq<DlRow>>>, page: int): Option<seq<DlRow>> {
    if 1 <= page <= |pages| then pages[page - 1] else None
  }

  /** The first k page answers, padded with failures beyond the list. */
  function Responses(pages: seq<Option<seq<DlRow>>>, k: nat): (r: seq<Option<seq<DlRow>>>)
    ensures |r| == k
    ensures forall i :: 0 <= i < k ==> r[i] == PageAt(pages, i + 1)
  {
    seq(k, i requires 0 <= i < k => PageAt(pages, i + 1))
  }

  datatype CountryFile = CountryFile(
    code: string,
    name: string,
    nameLocal: string,
    confederation: string,
    source: string,
    players: seq<Player>)

  datatype Downloaded = UnknownCountry | Saved(data: CountryFile)

  /** The merge of one page into the state; `newCount` is the number of players the
      page added. */
  method MergePage(all: seq<Player>, seen: set<int>, players: seq<Player>)
    returns (all': seq<Player>, seen': set<int>, newCount: nat)
    ensures Merge(all', seen') == Fold(Merge(all, seen), players)
    ensures |all'| == |all| + newCount
  {
    all', seen', newCount := all, seen, 0;
    var i := 0;
    while i < |players|
      invariant 0 <= i <= |players|
      invariant Merge(all', seen') == Fold(Merge(all, seen), players[..i])
      invariant |all'| == |all| + newCount
    {
      var player := players[i];
      assert players[..i + 1] == players[..i] + [player];
      if player.id !in seen' {
        seen' := seen' + {player.id};
        player := player.(id := |all'| + 1);
        all' := all' + [player];
        newCount := newCount + 1;
      }
      i := i + 1;
    }
    assert players[..|players|] == players;
  }

  /** `download_country_data`, up to writing the file. */
  method DownloadCountryData(key: string, pages: seq<Option<seq<DlRow>>>) returns (r: Downloaded)
    ensures key !in DlCountries <==> r.UnknownCountry?
    ensures r.Saved? ==>
      && r.data.players == Fold(Merge([], {}), Fetched(Responses(pages, MaxPages))).all
      && r.data.code == DlCountries[key].code && r.data.name == DlCountries[key].name
      && r.data.nameLocal == DlCountries[key].nameLocal
      && r.data.confederation == DlCountries[key].confederation
      && r.data.source == "Transfermarkt"
  {
    if key !in DlCountries {
      return UnknownCountry;
    }
    var info := DlCountries[key];
    var all: seq<Player> := [];
    var seen: set<int> := {};
    var page := 1;
    while page <= MaxPages
      invariant 1 <= page <= MaxPages + 1
      invariant Merge(all, seen) == Fold(Merge([], {}), Fetched(Responses(pages, page - 1)))
    {
      var response := PageAt(pages, page);
      assert Responses(pages, page)[..page - 1] == Responses(pages, page - 1);
      if response.Some? {
        var players := ParsePlayers(response.value);
        FoldConcat(Merge([], {}), Fetched(Responses(pages, page - 1)), players);
        var newCount;
        all, seen, newCount := MergePage(all, seen, players);
      }
      page := page + 1;
    }
    r := Saved(CountryFile(info.code, info.name, info.nameLocal, info.confederation, "Transfermarkt", all));
  }

  /** The downloaded list keeps exactly the first player of each Transfermarkt id
      across the fetched pages, in the order they were met, numbered 1..n; a page
      whose fetch raised adds nothing. */
  lemma DownloadProperties(pages: seq<Option<seq<DlRow>>>)
    ensures var ps := Fetched(Responses(pages, MaxPages));
      var all := Fold(Merge([], {}), ps).all;
      && Unnumber(all) == Unnumber(Kept(ps, {}))
      && |all| == |IdsOf(ps)|
      && (forall k :: 0 <= k < |all| ==> all[k].id == k + 1)
  {
    var ps := Fetched(Responses(pages, MaxPages));
    FoldKept(Merge([], {}), ps);
    FoldSeen(Merge([], {}), ps);
    FoldNumbered(Merge([], {}), ps);
  }

  /** A failed page changes nothing: the pages before and after it merge as if it
      had not been requested. */
  lemma FailedPageSkipped(before: seq<Option<seq<DlRow>>>, after: seq<Option<seq<DlRow>>>)
    ensures Fetched(before + [None] + after) == Fetched(before + after)
  {
    FetchedConcat(before + [None], after);
    FetchedConcat(before, after);
    FetchedConcat(before, [None]);
  }

  lemma {:induction false} FetchedConcat(a: seq<Option<seq<DlRow>>>, b: seq<Option<seq<DlRow>>>)
    ensures Fetched(a + b) == Fetched(a) + Fetched(b)
    decreases |b|
  {
    if b == [] {
      assert a + b == a;
    } else {
      var b0 := b[..|b| - 1];
      assert (a + b)[..|a + b| - 1] == a + b0;
      FetchedConcat(a, b0);
    }
  }
}
