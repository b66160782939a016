/** Catalog normalisation shared by the two live loaders and the downloader: the
    descending sort by market value, renumbering the ids in list order, and the table
    from Transfermarkt's Spanish position labels to the four coarse positions and to
    English labels. */
module Catalog {
  import opened Common

  // ---------------------------------------------------------------- sort by value

  /** Non-increasing market value, an absent value counting as 0. */
  predicate ByValue(s: seq<Player>) {
    forall i, j :: 0 <= i < j < |s| ==> ValueOf(s[i]) >= ValueOf(s[j])
  }

  /** Places p after every leading player worth at least as much. */
  function Insert(s: seq<Player>, p: Player): seq<Player> {
    if s == [] then [p]
    else if ValueOf(s[0]) >= ValueOf(p) then [s[0]] + Insert(s[1..], p)
    else [p] + s
  }

  /** `sort((a, b) => (b.marketValue || 0) - (a.marketValue || 0))`. The sort of
      ECMAScript 2019 and later is stable: players of equal value keep their order. */
  function SortByValue(s: seq<Player>): seq<Player>
    decreases |s|
  {
    if s == [] then [] else Insert(SortByValue(s[..|s| - 1]), s[|s| - 1])
  }

  lemma {:induction false} InsertMultiset(s: seq<Player>, p: Player)
    ensures multiset(Insert(s, p)) == multiset(s) + multiset{p}
  {
    if s != [] && ValueOf(s[0]) >= ValueOf(p) {
      InsertMultiset(s[1..], p);
      assert s == [s[0]] + s[1..];
    }
  }

  /** A player worth at least every player of an ordered list may go in front. */
  lemma ConsOrdered(x: Player, t: seq<Player>)
    requires ByValue(t)
    requires forall j :: 0 <= j < |t| ==> ValueOf(t[j]) <= ValueOf(x)
    ensures ByValue([x] + t)
  {
    var r := [x] + t;
    forall i, j | 0 <= i < j < |r|
      ensures ValueOf(r[i]) >= ValueOf(r[j])
    {
      assert r[j] == t[j - 1];
      if i > 0 {
        assert r[i] == t[i - 1];
      }
    }
  }

  lemma {:induction false} InsertOrdered(s: seq<Player>, p: Player)
    requires ByValue(s)
    ensures ByValue(Insert(s, p))
  {
    if s == [] {
    } else if ValueOf(s[0]) >= ValueOf(p) {
      var rest := Insert(s[1..], p);
      assert ByValue(s[1..]);
      InsertOrdered(s[1..], p);
      InsertMultiset(s[1..], p);
      forall j | 0 <= j < |rest|
        ensures ValueOf(rest[j]) <= ValueOf(s[0])
      {
        assert rest[j] in multiset(rest);
        if rest[j] != p {
          assert rest[j] in multiset(s[1..]);
          var k :| 0 <= k < |s[1..]| && s[1..][k] == rest[j];
          assert s[k + 1] == rest[j];
        }
      }
      ConsOrdered(s[0], rest);
    } else {
      assert forall j :: 0 <= j < |s| ==> ValueOf(s[j]) <= ValueOf(s[0]);
      ConsOrdered(p, s);
    }
  }

  lemma {:induction false} SortPermutation(s: seq<Player>)
    ensures multiset(SortByValue(s)) == multiset(s)
    decreases |s|
  {
    if s != [] {
      var init := s[..|s| - 1];
      SortPermutation(init);
      InsertMultiset(SortByValue(init), s[|s| - 1]);
      assert s == init + [s[|s| - 1]];
    }
  }

  lemma {:induction false} SortOrdered(s: seq<Player>)
    ensures ByValue(SortByValue(s))
    decreases |s|
  {
    if s != [] {
      SortOrdered(s[..|s| - 1]);
      InsertOrdered(SortByValue(s[..|s| - 1]), s[|s| - 1]);
    }
  }

  /** The sort is a permutation of its input, ordered by non-increasing value. */
  lemma SortProperties(s: seq<Player>)
    ensures multiset(SortByValue(s)) == multiset(s)
    ensures |SortByValue(s)| == |s|
    ensures ByValue(SortByValue(s))
  {
    SortPermutation(s);
    assert |multiset(SortByValue(s))| == |multiset(s)|;
    SortOrdered(s);
  }

  /** A player worth no more than every listed one goes to the end. */
  lemma {:induction false} InsertLast(s: seq<Player>, p: Player)
    requires forall i :: 0 <= i < |s| ==> ValueOf(s[i]) >= ValueOf(p)
    ensures Insert(s, p) == s + [p]
  {
    if s != [] {
      InsertLast(s[1..], p);
      assert s == [s[0]] + s[1..];
    }
  }

  /** A list already in order is left exactly as it is. */
  lemma {:induction false} SortKeepsOrdered(s: seq<Player>)
    requires ByValue(s)
    ensures SortByValue(s) == s
    decreases |s|
  {
    if s != [] {
      var init := s[..|s| - 1];
      assert ByValue(init);
      SortKeepsOrdered(init);
      InsertLast(init, s[|s| - 1]);
      assert s == init + [s[|s| - 1]];
    }
  }

  lemma SortIdempotent(s: seq<Player>)
    ensures SortByValue(SortByValue(s)) == SortByValue(s)
  {
    SortProperties(s);
    SortKeepsOrdered(SortByValue(s));
  }

  /** The players worth exactly v, in list order. */
  function Tier(s: seq<Player>, v: int): seq<Player> {
    if s == [] then []
    else if ValueOf(s[0]) == v then [s[0]] + Tier(s[1..], v)
    else Tier(s[1..], v)
  }

  lemma {:induction false} TierConcat(a: seq<Player>, b: seq<Player>, v: int)
    ensures Tier(a + b, v) == Tier(a, v) + Tier(b, v)
  {
    if a == [] {
      assert a + b == b;
    } else {
      assert (a + b)[0] == a[0];
      assert (a + b)[1..] == a[1..] + b;
      TierConcat(a[1..], b, v);
    }
  }

  lemma {:induction false} TierEmpty(s: seq<Player>, v: int)
    requires forall i :: 0 <= i < |s| ==> ValueOf(s[i]) < v
    ensures Tier(s, v) == []
  {
    if s != [] {
      TierEmpty(s[1..], v);
    }
  }

  /** The player that walks past the head leaves the head's tier contribution first. */
  lemma InsertTierPast(s: seq<Player>, p: Player, v: int)
    requires s != [] && ValueOf(s[0]) >= ValueOf(p)
    requires Tier(Insert(s[1..], p), v) == Tier(s[1..], v) + (if ValueOf(p) == v then [p] else [])
    ensures Tier(Insert(s, p), v) == Tier(s, v) + (if ValueOf(p) == v then [p] else [])
  {
    var rest := Insert(s[1..], p);
    assert Insert(s, p) == [s[0]] + rest;
    assert ([s[0]] + rest)[1..] == rest;
  }

  /** A player worth more than the head, and so than everyone, who is worth v finds
      an empty tier behind it. */
  lemma InsertTierFront(s: seq<Player>, p: Player, v: int)
    requires s != [] && ValueOf(s[0]) < ValueOf(p)
    requires forall j :: 0 <= j < |s| ==> ValueOf(s[j]) <= ValueOf(s[0])
    ensures Tier(Insert(s, p), v) == Tier(s, v) + (if ValueOf(p) == v then [p] else [])
  {
    assert Insert(s, p) == [p] + s;
    assert ([p] + s)[1..] == s;
    if ValueOf(p) == v {
      TierEmpty(s, v);
    }
  }

  lemma {:induction false} InsertTier(s: seq<Player>, p: Player, v: int)
    requires ByValue(s)
    ensures Tier(Insert(s, p), v) == Tier(s, v) + (if ValueOf(p) == v then [p] else [])
  {
    if s == [] {
      assert Insert(s, p) == [p];
      assert [p][1..] == [];
    } else if ValueOf(s[0]) >= ValueOf(p) {
      assert ByValue(s[1..]);
      InsertTier(s[1..], p, v);
      InsertTierPast(s, p, v);
    } else {
      assert forall j :: 0 <= j < |s| ==> ValueOf(s[j]) <= ValueOf(s[0]);
      InsertTierFront(s, p, v);
    }
  }

  lemma InsertSortedTier(s: seq<Player>, p: Player, v: int)
    ensures Tier(Insert(SortByValue(s), p), v)
      == Tier(SortByValue(s), v) + (if ValueOf(p) == v then [p] else [])
  {
    SortProperties(s);
    InsertTier(SortByValue(s), p, v);
  }

  lemma TierSnoc(s: seq<Player>, p: Player, v: int)
    ensures Tier(s + [p], v) == Tier(s, v) + (if ValueOf(p) == v then [p] else [])
  {
    TierConcat(s, [p], v);
    assert [p][1..] == [];
  }

  /** Stability: for every value, the players worth that value come out in the order
      they went in. */
  lemma {:induction false} SortStable(s: seq<Player>, v: int)
    ensures Tier(SortByValue(s), v) == Tier(s, v)
    decreases |s|
  {
    if s != [] {
      var init := s[..|s| - 1];
      var last := s[|s| - 1];
      assert SortByValue(s) == Insert(SortByValue(init), last);
      SortStable(init, v);
      InsertSortedTier(init, last, v);
      assert s == init + [last];
      TierSnoc(init, last, v);
    }
  }

  // ---------------------------------------------------------------- renumbering

  /** A player with the id cleared: what renumbering must not touch. */
  function Unnumbered(p: Player): Player {
    p.(id := 0)
  }

  /** `forEach((player, index) => player.id = index + 1)` */
  function Renumber(s: seq<Player>): seq<Player>
  {
    seq(|s|, i requires 0 <= i < |s| => s[i].(id := i + 1))
  }

  /** After renumbering the ids are 1..n, so each id finds exactly the player at that
      place, and the order by value is unchanged. */
  lemma RenumberProperties(s: seq<Player>)
    ensures DistinctIds(Renumber(s))
    ensures forall k :: 1 <= k <= |s| ==> Find(Renumber(s), k) == Some(Renumber(s)[k - 1])
    ensures forall k :: (k < 1 || k > |s|) ==> Find(Renumber(s), k).None?
    ensures ByValue(Renumber(s)) <==> ByValue(s)
    ensures Renumber(Renumber(s)) == Renumber(s)
  {
    var r := Renumber(s);
    forall k | 1 <= k <= |s|
      ensures Find(r, k) == Some(r[k - 1])
    {
      var i := FirstIndex(r, k);
      assert r[k - 1].id == k;
    }
    assert forall i :: 0 <= i < |s| ==> ValueOf(r[i]) == ValueOf(s[i]);
  }

  /** The sort followed by the renumbering, as the Transfermarkt loader runs it after
      every page; the renumbering is the `forEach` loop. */
  method SortAndNumber(players: seq<Player>) returns (r: seq<Player>)
    ensures r == Renumber(SortByValue(players))
  {
    var sorted := SortByValue(players);
    r := sorted;
    var i := 0;
    while i < |r|
      invariant 0 <= i <= |r| == |sorted|
      invariant forall j :: 0 <= j < i ==> r[j] == sorted[j].(id := j + 1)
      invariant forall j :: i <= j < |r| ==> r[j] == sorted[j]
    {
      r := r[i := r[i].(id := i + 1)];
      i := i + 1;
    }
  }

  /** The players with their ids cleared. */
  function Unnumber(s: seq<Player>): seq<Player> {
    seq(|s|, i requires 0 <= i < |s| => Unnumbered(s[i]))
  }

  lemma UnnumberConcat(a: seq<Player>, b: seq<Player>)
    ensures Unnumber(a + b) == Unnumber(a) + Unnumber(b)
  {
  }

  lemma {:induction false} UnnumberInsert(s: seq<Player>, p: Player)
    ensures Unnumber(Insert(s, p)) == Insert(Unnumber(s), Unnumbered(p))
  {
    if s != [] {
      UnnumberInsert(s[1..], p);
      assert Unnumber(s)[1..] == Unnumber(s[1..]);
      if ValueOf(s[0]) >= ValueOf(p) {
        assert Unnumber([s[0]] + Insert(s[1..], p)) == [Unnumbered(s[0])] + Unnumber(Insert(s[1..], p));
      } else {
        assert Unnumber([p] + s) == [Unnumbered(p)] + Unnumber(s);
      }
    }
  }

  /** Clearing ids commutes with the sort, which compares values only. */
  lemma {:induction false} UnnumberSort(s: seq<Player>)
    ensures Unnumber(SortByValue(s)) == SortByValue(Unnumber(s))
    decreases |s|
  {
    if s != [] {
      var init := s[..|s| - 1];
      UnnumberSort(init);
      UnnumberInsert(SortByValue(init), s[|s| - 1]);
      assert Unnumber(s)[..|s| - 1] == Unnumber(init);
    }
  }

  /** Sorting and renumbering keep every player apart from its id. */
  lemma SortAndNumberKeeps(s: seq<Player>)
    ensures multiset(Unnumber(Renumber(SortByValue(s)))) == multiset(Unnumber(s))
  {
    var sorted := SortByValue(s);
    SortPermutation(Unnumber(s));
    UnnumberSort(s);
    assert Unnumber(Renumber(sorted)) == Unnumber(sorted);
  }

  /** Sorting and renumbering keep every player apart from its id: the result is a
      permutation of the input up to ids, ordered by value, numbered 1..n. */
  lemma SortAndNumberProperties(s: seq<Player>)
    ensures var r := Renumber(SortByValue(s));
      && multiset(Unnumber(r)) == multiset(Unnumber(s))
      && ByValue(r)
      && forall i :: 0 <= i < |r| ==> r[i].id == i + 1
  {
    SortAndNumberKeeps(s);
    SortOrdered(s);
    RenumberProperties(SortByValue(s));
  }

  // ---------------------------------------------------------------- position tables

  /** Transfermarkt's Spanish position labels and the coarse position of each. */
  const SpanishPositions: map<string, string> := map[
    "Portero" := GK,
    "Defensa central" := DEF,
    "Lateral izquierdo" := DEF,
    "Lateral derecho" := DEF,
    "Lateral" := DEF,
    "Libero" := DEF,
    "Pivote" := MID,
    "Mediocentro" := MID,
    "Interior derecho" := MID,
    "Interior izquierdo" := MID,
    "Mediocentro ofensivo" := MID,
    "Extremo izquierdo" := FWD,
    "Extremo derecho" := FWD,
    "Extremo" := FWD,
    "Mediapunta" := FWD,
    "Delantero centro" := FWD]

  /** The downloader's English label for each Spanish one. */
  const EnglishLabels: map<string, string> := map[
    "Portero" := "Goalkeeper",
    "Defensa central" := "Centre-Back",
    "Lateral izquierdo" := "Left-Back",
    "Lateral derecho" := "Right-Back",
    "Lateral" := "Full-Back",
    "Libero" := "Sweeper",
    "Pivote" := "Defensive Midfield",
    "Mediocentro" := "Central Midfield",
    "Interior derecho" := "Right Midfield",
    "Interior izquierdo" := "Left Midfield",
    "Mediocentro ofensivo" := "Attacking Midfield",
    "Extremo izquierdo" := "Left Winger",
    "Extremo derecho" := "Right Winger",
    "Extremo" := "Winger",
    "Mediapunta" := "Second Striker",
    "Delantero centro" := "Centre-Forward"]

  /** Every label of the table maps to a coarse position. */
  lemma SpanishPositionsCoarse()
    ensures forall t :: t in SpanishPositions ==> IsCoarsePosition(SpanishPositions[t])
  {
  }

  /** `POSITION_MAP[text] || 'MID'` and `POSITION_MAP.get(text, 'MID')`. */
  function CoarsePosition(text: string): (r: string)
    ensures IsCoarsePosition(r)
    ensures text in SpanishPositions ==> r == SpanishPositions[text]
    ensures text !in SpanishPositions ==> r == MID
  {
    SpanishPositionsCoarse();
    if text in SpanishPositions then SpanishPositions[text] else MID
  }

  /** `DETAILED_POSITION_MAP.get(text, text)`: the English label, or the Spanish text
      itself. */
  function DetailedPosition(text: string): (r: string)
    ensures text in EnglishLabels ==> r == EnglishLabels[text]
    ensures text !in EnglishLabels ==> r == text
  {
    if text in EnglishLabels then EnglishLabels[text] else text
  }

  /** The two tables cover the same labels: a text gets an English label exactly when
      it gets a coarse position of its own rather than the `MID` fallback. */
  lemma TablesAgree()
    ensures SpanishPositions.Keys == EnglishLabels.Keys
  {
  }
}
