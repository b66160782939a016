/** The SofaScore loader: a national team's player list as the API returns it,
    turned into the catalog format the pages read. The request itself is an input
    (`response` is the decoded body, None when the request fails or is not ok), and so
    is the clock: `today` is the calendar date the age is computed against, and each
    birth time stamp arrives already read as a calendar date. */
module SofaScore {
  import opened Common
  import opened Catalog
  import Transfermarkt

  datatype TeamInfo = TeamInfo(id: int, name: string, nameLocal: string)

  /** `TEAM_IDS`: the national teams the service knows, keyed by country key. */
  const TeamIds: map<string, TeamInfo> := map[
    "spain" := TeamInfo(4698, "Spain", "España"),
    "france" := TeamInfo(4481, "France", "France"),
    "germany" := TeamInfo(4711, "Germany", "Deutschland"),
    "england" := TeamInfo(4713, "England", "England"),
    "brazil" := TeamInfo(4675, "Brazil", "Brasil"),
    "argentina" := TeamInfo(4819, "Argentina", "Argentina"),
    "portugal" := TeamInfo(4704, "Portugal", "Portugal"),
    "italy" := TeamInfo(4707, "Italy", "Italia"),
    "netherlands" := TeamInfo(4708, "Netherlands", "Nederland"),
    "belgium" := TeamInfo(4717, "Belgium", "België")]

  /** Both live services know the same ten countries. */
  lemma ServicesAgree()
    ensures TeamIds.Keys == Transfermarkt.CountryIds.Keys
  {
  }

  // ---------------------------------------------------------------- positions

  /** `POSITION_MAP`: SofaScore's one-letter positions. */
  const PositionCodes: map<string, string> := map["G" := GK, "D" := DEF, "M" := MID, "F" := FWD]

  /** `DETAILED_POSITION_MAP`: SofaScore's detailed position codes. */
  const DetailedLabels: map<string, string> := map[
    "GK" := "Goalkeeper",
    "CB" := "Centre-Back",
    "LB" := "Left-Back",
    "RB" := "Right-Back",
    "LWB" := "Left Wing-Back",
    "RWB" := "Right Wing-Back",
    "DM" := "Defensive Midfield",
    "CDM" := "Defensive Midfield",
    "CM" := "Central Midfield",
    "CAM" := "Attacking Midfield",
    "AM" := "Attacking Midfield",
    "LM" := "Left Midfield",
    "RM" := "Right Midfield",
    "LW" := "Left Winger",
    "RW" := "Right Winger",
    "CF" := "Centre-Forward",
    "ST" := "Centre-Forward",
    "SS" := "Second Striker"]

  /** `POSITION_MAP[position] || position`: a one-letter code becomes its coarse
      position, anything else passes through unchanged. */
  function CoarseOf(position: string): (r: string)
    ensures position in PositionCodes ==> r == PositionCodes[position] && IsCoarsePosition(r)
    ensures position !in PositionCodes ==> r == position
  {
    if position in PositionCodes then PositionCodes[position] else position
  }

  /** The coarse position is one of the four exactly when the code is one of the four
      letters, or already one of the four positions. */
  lemma CoarseOfCoarse(position: string)
    ensures IsCoarsePosition(CoarseOf(position)) <==>
      position in {"G", "D", "M", "F"} || IsCoarsePosition(position)
  {
  }

  /** A SofaScore player as the transform reads it. An id of 0 stands for a missing
      one (`player.id` falsy); `team` is the team's name, when there is a team. */
  datatype ApiPlayer = ApiPlayer(
    id: int,
    name: string,
    position: string,
    positionsDetailed: seq<string>,
    team: Option<string>,
    birth: Option<Date>,
    proposedMarketValue: Option<int>,
    ranking: Option<int>)

  /** `getDetailedPosition`: the first detailed code, spelled out when it is known;
      without detailed codes, the coarse position. */
  function DetailedOf(p: ApiPlayer): (r: string)
    ensures |p.positionsDetailed| > 0 && p.positionsDetailed[0] in DetailedLabels ==>
      r == DetailedLabels[p.positionsDetailed[0]]
    ensures |p.positionsDetailed| > 0 && p.positionsDetailed[0] !in DetailedLabels ==>
      r == p.positionsDetailed[0]
    ensures |p.positionsDetailed| == 0 ==> r == CoarseOf(p.position)
  {
    if |p.positionsDetailed| > 0 then
      var pos := p.positionsDetailed[0];
      if pos in DetailedLabels then DetailedLabels[pos] else pos
    else CoarseOf(p.position)
  }

  // ---------------------------------------------------------------- age

  datatype Date = Date(year: int, month: int, day: int)

  /** Calendar order on dates. */
  predicate NotAfter(a: Date, b: Date) {
    a.year < b.year || (a.year == b.year && (a.month < b.month || (a.month == b.month && a.day <= b.day)))
  }

  /** The date n years after d, on the same month and day. */
  function YearsLater(d: Date, n: int): Date {
    d.(year := d.year + n)
  }

  /** `calculateAge`: no age without a birth date; otherwise the difference of the
      years, one less while this year's birthday is still to come. */
  method CalculateAge(birth: Option<Date>, today: Date) returns (r: Option<int>)
    ensures r == AgeOn(birth, today)
  {
    if birth.None? {
      return None;
    }
    var birthDate := birth.value;
    var age := today.year - birthDate.year;
    var monthDiff := today.month - birthDate.month;
    if monthDiff < 0 || (monthDiff == 0 && today.day < birthDate.day) {
      age := age - 1;
    }
    r := Some(age);
  }

  /** The age in completed years: the anniversary of the birth date n years on has
      been reached, the one n + 1 years on has not. */
  function AgeOn(birth: Option<Date>, today: Date): (r: Option<int>)
    ensures birth.None? <==> r.None?
    ensures birth.Some? ==>
      NotAfter(YearsLater(birth.value, r.value), today) && !NotAfter(YearsLater(birth.value, r.value + 1), today)
  {
    match birth
    case None => None
    case Some(b) =>
      var age := today.year - b.year;
      Some(if today.month < b.month || (today.month == b.month && today.day < b.day) then age - 1 else age)
  }

  /** The completed years are unique: any count of years that fits before today and
      whose next anniversary does not is the age. */
  lemma AgeUnique(b: Date, today: Date, n: int)
    requires NotAfter(YearsLater(b, n), today) && !NotAfter(YearsLater(b, n + 1), today)
    ensures AgeOn(Some(b), today) == Some(n)
  {
  }

  // ---------------------------------------------------------------- ranking

  /** `p.player?.nationalTeam?.ranking` is truthy. */
  predicate HasRanking(p: ApiPlayer) {
    p.ranking.Some? && p.ranking.value != 0
  }

  /** `fifaRanking || 'N/A'` */
  datatype Ranking = Rank(value: int) | NotAvailable

  /** The ranking search: the first entry that carries a ranking gives it. */
  method FindRanking(players: seq<ApiPlayer>) returns (r: Ranking)
    ensures r.NotAvailable? <==> forall i :: 0 <= i < |players| ==> !HasRanking(players[i])
    ensures r.Rank? ==>
      exists i :: (0 <= i < |players| && HasRanking(players[i]) && players[i].ranking.value == r.value
                   && forall j :: 0 <= j < i ==> !HasRanking(players[j]))
  {
    var i := 0;
    while i < |players|
      invariant 0 <= i <= |players|
      invariant forall j :: 0 <= j < i ==> !HasRanking(players[j])
    {
      if HasRanking(players[i]) {
        return Rank(players[i].ranking.value);
      }
      i := i + 1;
    }
    r := NotAvailable;
  }

  // ---------------------------------------------------------------- transform

  /** The catalog player one entry becomes; `index` is its place in the list. */
  function TransformEntry(p: ApiPlayer, index: int, today: Date): (r: Player)
    ensures r.id == (if p.id != 0 then p.id else index + 1)
    ensures r.name == p.name && r.position == CoarseOf(p.position) && r.detailedPosition == DetailedOf(p)
    ensures r.club == (if p.team.Some? && p.team.value != "" then p.team.value else "Unknown")
    ensures r.club != ""
    ensures r.age == AgeOn(p.birth, today)
    ensures r.marketValue.Some? && ValueOf(r) == p.proposedMarketValue.GetOr(0)
  {
    Player(
      if p.id != 0 then p.id else index + 1,
      p.name,
      CoarseOf(p.position),
      DetailedOf(p),
      if p.team.Some? && p.team.value != "" then p.team.value else "Unknown",
      AgeOn(p.birth, today),
      Some(p.proposedMarketValue.GetOr(0)))
  }

  /** `players.map(...)`: the entries transformed in place order. */
  function TransformAll(players: seq<ApiPlayer>, today: Date): (r: seq<Player>)
    ensures |r| == |players|
    ensures forall i :: 0 <= i < |players| ==> r[i] == TransformEntry(players[i], i, today)
  {
    seq(|players|, i requires 0 <= i < |players| => TransformEntry(players[i], i, today))
  }

  /** What the SofaScore API answers for a team: `players` may be missing. */
  datatype ApiData = ApiData(players: Option<seq<ApiPlayer>>)

  datatype TeamData = TeamData(
    code: string,
    name: string,
    nameLocal: string,
    confederation: string,
    fifaRanking: Ranking,
    coachName: string,
    sofascoreTeamId: int,
    source: string,
    players: seq<Player>)

  /** Building the result dereferences the team entry, which throws for an unknown
      country key. */
  datatype Transformed = UnknownTeam | Team(data: TeamData)

  /** `d` is the team that `transformSofaScoreData` builds from `data` for the team
      at `code`: the mapped players sorted by value, the team table's code, names and
      id, the first truthy ranking, and the constant fields. */
  ghost predicate BuiltFrom(d: TeamData, data: ApiData, code: string, today: Date)
    requires code in TeamIds
  {
    var players := data.players.GetOr([]);
    && d.players == SortByValue(TransformAll(players, today))
    && d.code == Transfermarkt.BuildCode(code)
    && d.name == TeamIds[code].name && d.nameLocal == TeamIds[code].nameLocal
    && d.sofascoreTeamId == TeamIds[code].id
    && (d.fifaRanking.NotAvailable? <==> forall i :: 0 <= i < |players| ==> !HasRanking(players[i]))
    && (d.fifaRanking.Rank? ==>
          exists i :: (0 <= i < |players| && HasRanking(players[i])
                       && players[i].ranking.value == d.fifaRanking.value
                       && forall j :: 0 <= j < i ==> !HasRanking(players[j])))
    && d.coachName == "Unknown" && d.confederation == "UEFA" && d.source == "SofaScore"
  }

  /** The description fixes the team completely: two teams built from the same
      response for the same country are equal, ranking included. */
  lemma BuiltFromUnique(d1: TeamData, d2: TeamData, data: ApiData, code: string, today: Date)
    requires code in TeamIds
    requires BuiltFrom(d1, data, code, today) && BuiltFrom(d2, data, code, today)
    ensures d1 == d2
  {
    var players := data.players.GetOr([]);
    if d1.fifaRanking.Rank? {
      var i1 :| 0 <= i1 < |players| && HasRanking(players[i1])
        && players[i1].ranking.value == d1.fifaRanking.value
        && forall j :: 0 <= j < i1 ==> !HasRanking(players[j]);
      var i2 :| 0 <= i2 < |players| && HasRanking(players[i2])
        && players[i2].ranking.value == d2.fifaRanking.value
        && forall j :: 0 <= j < i2 ==> !HasRanking(players[j]);
      assert i1 == i2;
    }
  }

  /** `transformSofaScoreData` */
  method TransformSofaScoreData(data: ApiData, code: string, today: Date) returns (r: Transformed)
    ensures code !in TeamIds <==> r.UnknownTeam?
    ensures r.Team? ==> code in TeamIds && BuiltFrom(r.data, data, code, today)
  {
    var players := data.players.GetOr([]);
    var fifaRanking := FindRanking(players);
    var transformed := TransformAll(players, today);
    transformed := SortByValue(transformed);
    if code !in TeamIds {
      return UnknownTeam;
    }
    var info := TeamIds[code];
    r := Team(TeamData(Transfermarkt.BuildCode(code), info.name, info.nameLocal, "UEFA",
                       fifaRanking, "Unknown", info.id, "SofaScore", transformed));
  }

  /** The transformed list has one player per entry, is the mapped list reordered, is
      ordered by non-increasing market value, and keeps players of equal value in
      their original order. */
  lemma TransformProperties(players: seq<ApiPlayer>, today: Date)
    ensures var r := SortByValue(TransformAll(players, today));
      && |r| == |players|
      && multiset(r) == multiset(TransformAll(players, today))
      && ByValue(r)
      && (forall v :: Tier(r, v) == Tier(TransformAll(players, today), v))
      && (forall p :: p in r ==> p.club != "" && p.marketValue.Some?)
  {
    var mapped := TransformAll(players, today);
    SortProperties(mapped);
    forall v
      ensures Tier(SortByValue(mapped), v) == Tier(mapped, v)
    {
      SortStable(mapped, v);
    }
    forall p | p in SortByValue(mapped)
      ensures p.club != "" && p.marketValue.Some?
    {
      assert p in multiset(mapped);
    }
  }

  /** What `loadFromSofaScore` gives: the request is refused for an unknown country
      key before anything is fetched, fails on a bad response, and otherwise yields the
      transformed team. */
  datatype Loaded = NotATeam | ApiError | LoadedTeam(data: TeamData)

  method LoadFromSofaScore(code: string, response: Option<ApiData>, today: Date) returns (r: Loaded)
    ensures code !in TeamIds <==> r.NotATeam?
    ensures code in TeamIds && response.None? <==> r.ApiError?
    ensures r.LoadedTeam? ==> response.Some? && BuiltFrom(r.data, response.value, code, today)
  {
    if code !in TeamIds {
      return NotATeam;
    }
    if response.None? {
      return ApiError;
    }
    var t := TransformSofaScoreData(response.value, code, today);
    r := LoadedTeam(t.data);
  }
}
