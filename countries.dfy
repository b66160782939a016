/** The country table the overview page iterates over. */
module CountryTable {
  import opened Keys

  datatype Country = Country(code: string, name: string, fifa: string)

  const Countries: seq<Country> := [
    Country("spain", "Spain", "ESP"),
    Country("france", "France", "FRA"),
    Country("germany", "Germany", "GER"),
    Country("england", "England", "ENG"),
    Country("brazil", "Brazil", "BRA"),
    Country("argentina", "Argentina", "ARG"),
    Country("portugal", "Portugal", "POR"),
    Country("italy", "Italy", "ITA"),
    Country("netherlands", "Netherlands", "NED"),
    Country("belgium", "Belgium", "BEL"),
    Country("croatia", "Croatia", "CRO"),
    Country("uruguay", "Uruguay", "URU"),
    Country("colombia", "Colombia", "COL"),
    Country("denmark", "Denmark", "DEN"),
    Country("usa", "USA", "USA"),
    Country("morocco", "Morocco", "MAR"),
    Country("egypt", "Egypt", "EGY"),
    Country("senegal", "Senegal", "SEN"),
    Country("japan", "Japan", "JPN"),
    Country("qatar", "Qatar", "QAT"),
    Country("mexico", "Mexico", "MEX"),
    Country("switzerland", "Switzerland", "SUI")
  ]

  predicate IsCapital(ch: char) {
    'A' <= ch <= 'Z'
  }

  /** A non-empty key without `_`, and a FIFA code of three capitals. */
  predicate Shaped(c: Country) {
    c.code != "" && '_' !in c.code && |c.fifa| == 3 && IsCapital(c.fifa[0]) && IsCapital(c.fifa[1]) && IsCapital(c.fifa[2])
  }

  /** s starts with the two characters a and b. */
  predicate Starts2(s: string, a: char, b: char) {
    |s| >= 2 && s[0] == a && s[1] == b
  }

  /** Position in the table of the FIFA code with these first two letters, or -1;
      the first two letters already tell the 22 codes apart. */
  function FifaSlot(f: string): int {
    if Starts2(f, 'E', 'S') then 0
    else if Starts2(f, 'F', 'R') then 1
    else if Starts2(f, 'G', 'E') then 2
    else if Starts2(f, 'E', 'N') then 3
    else if Starts2(f, 'B', 'R') then 4
    else if Starts2(f, 'A', 'R') then 5
    else if Starts2(f, 'P', 'O') then 6
    else if Starts2(f, 'I', 'T') then 7
    else if Starts2(f, 'N', 'E') then 8
    else if Starts2(f, 'B', 'E') then 9
    else if Starts2(f, 'C', 'R') then 10
    else if Starts2(f, 'U', 'R') then 11
    else if Starts2(f, 'C', 'O') then 12
    else if Starts2(f, 'D', 'E') then 13
    else if Starts2(f, 'U', 'S') then 14
    else if Starts2(f, 'M', 'A') then 15
    else if Starts2(f, 'E', 'G') then 16
    else if Starts2(f, 'S', 'E') then 17
    else if Starts2(f, 'J', 'P') then 18
    else if Starts2(f, 'Q', 'A') then 19
    else if Starts2(f, 'M', 'E') then 20
    else if Starts2(f, 'S', 'U') then 21
    else -1
  }

  /** Position in the table of the country key with these first two letters, or -1;
      the first two letters already tell the 22 keys apart. */
  function CodeSlot(c: string): int {
    if Starts2(c, 's', 'p') then 0
    else if Starts2(c, 'f', 'r') then 1
    else if Starts2(c, 'g', 'e') then 2
    else if Starts2(c, 'e', 'n') then 3
    else if Starts2(c, 'b', 'r') then 4
    else if Starts2(c, 'a', 'r') then 5
    else if Starts2(c, 'p', 'o') then 6
    else if Starts2(c, 'i', 't') then 7
    else if Starts2(c, 'n', 'e') then 8
    else if Starts2(c, 'b', 'e') then 9
    else if Starts2(c, 'c', 'r') then 10
    else if Starts2(c, 'u', 'r') then 11
    else if Starts2(c, 'c', 'o') then 12
    else if Starts2(c, 'd', 'e') then 13
    else if Starts2(c, 'u', 's') then 14
    else if Starts2(c, 'm', 'o') then 15
    else if Starts2(c, 'e', 'g') then 16
    else if Starts2(c, 's', 'e') then 17
    else if Starts2(c, 'j', 'a') then 18
    else if Starts2(c, 'q', 'a') then 19
    else if Starts2(c, 'm', 'e') then 20
    else if Starts2(c, 's', 'w') then 21
    else -1
  }

  lemma SlotsFrom0(i: int)
    requires 0 <= i < 3
    ensures FifaSlot(Countries[i].fifa) == i && CodeSlot(Countries[i].code) == i
  {
    assert i == 0 || i == 1 || i == 2;
  }

  lemma SlotsFrom3(i: int)
    requires 3 <= i < 6
    ensures FifaSlot(Countries[i].fifa) == i && CodeSlot(Countries[i].code) == i
  {
    assert i == 3 || i == 4 || i == 5;
  }

  lemma SlotsFrom6(i: int)
    requires 6 <= i < 9
    ensures FifaSlot(Countries[i].fifa) == i && CodeSlot(Countries[i].code) == i
  {
    assert i == 6 || i == 7 || i == 8;
  }

  lemma SlotsFrom9(i: int)
    requires 9 <= i < 11
    ensures FifaSlot(Countries[i].fifa) == i && CodeSlot(Countries[i].code) == i
  {
    assert i == 9 || i == 10;
  }

  lemma SlotsFrom11(i: int)
    requires 11 <= i < 13
    ensures FifaSlot(Countries[i].fifa) == i && CodeSlot(Countries[i].code) == i
  {
    assert i == 11 || i == 12;
  }

  lemma SlotsFrom13(i: int)
    requires 13 <= i < 15
    ensures FifaSlot(Countries[i].fifa) == i && CodeSlot(Countries[i].code) == i
  {
    assert i == 13 || i == 14;
  }

  lemma SlotsFrom15(i: int)
    requires 15 <= i < 17
    ensures FifaSlot(Countries[i].fifa) == i && CodeSlot(Countries[i].code) == i
  {
    assert i == 15 || i == 16;
  }

  lemma SlotsFrom17(i: int)
    requires i == 17
    ensures FifaSlot(Countries[i].fifa) == i && CodeSlot(Countries[i].code) == i
  {
  }

  lemma SlotsFrom18(i: int)
    requires i == 18
    ensures FifaSlot(Countries[i].fifa) == i && CodeSlot(Countries[i].code) == i
  {
  }

  lemma SlotsFrom19(i: int)
    requires i == 19
    ensures FifaSlot(Countries[i].fifa) == i && CodeSlot(Countries[i].code) == i
  {
  }

  lemma SlotsFrom20(i: int)
    requires i == 20
    ensures FifaSlot(Countries[i].fifa) == i && CodeSlot(Countries[i].code) == i
  {
  }

  lemma SlotsFrom21(i: int)
    requires i == 21
    ensures FifaSlot(Countries[i].fifa) == i && CodeSlot(Countries[i].code) == i
  {
  }

  lemma ShapedFrom0(i: int)
    requires 0 <= i < 4
    ensures Shaped(Countries[i])
  {
    assert i == 0 || i == 1 || i == 2 || i == 3;
  }

  lemma ShapedFrom4(i: int)
    requires 4 <= i < 8
    ensures Shaped(Countries[i])
  {
    assert i == 4 || i == 5 || i == 6 || i == 7;
  }

  lemma ShapedFrom8(i: int)
    requires 8 <= i < 11
    ensures Shaped(Countries[i])
  {
    assert i == 8 || i == 9 || i == 10;
  }

  lemma ShapedFrom11(i: int)
    requires 11 <= i < 14
    ensures Shaped(Countries[i])
  {
    assert i == 11 || i == 12 || i == 13;
  }

  lemma ShapedFrom14(i: int)
    requires 14 <= i < 16
    ensures Shaped(Countries[i])
  {
    assert i == 14 || i == 15;
  }

  lemma ShapedFrom16(i: int)
    requires 16 <= i < 18
    ensures Shaped(Countries[i])
  {
    assert i == 16 || i == 17;
  }

  lemma ShapedFrom18(i: int)
    requires 18 <= i < 20
    ensures Shaped(Countries[i])
  {
    assert i == 18 || i == 19;
  }

  lemma ShapedFrom20(i: int)
    requires 20 <= i < 22
    ensures Shaped(Countries[i])
  {
    assert i == 20 || i == 21;
  }

  lemma AllSlots()
    ensures forall i :: 0 <= i < |Countries| ==> FifaSlot(Countries[i].fifa) == i && CodeSlot(Countries[i].code) == i
    ensures forall i :: 0 <= i < |Countries| ==> Shaped(Countries[i])
  {
    forall i | 0 <= i < |Countries|
      ensures FifaSlot(Countries[i].fifa) == i && CodeSlot(Countries[i].code) == i
      ensures Shaped(Countries[i])
    {
      if i < 3 { SlotsFrom0(i); }
      else if i < 6 { SlotsFrom3(i); }
      else if i < 9 { SlotsFrom6(i); }
      else if i < 11 { SlotsFrom9(i); }
      else if i < 13 { SlotsFrom11(i); }
      else if i < 15 { SlotsFrom13(i); }
      else if i < 17 { SlotsFrom15(i); }
      else if i < 18 { SlotsFrom17(i); }
      else if i < 19 { SlotsFrom18(i); }
      else if i < 20 { SlotsFrom19(i); }
      else if i < 21 { SlotsFrom20(i); }
      else { SlotsFrom21(i); }
      if i < 4 { ShapedFrom0(i); }
      else if i < 8 { ShapedFrom4(i); }
      else if i < 11 { ShapedFrom8(i); }
      else if i < 14 { ShapedFrom11(i); }
      else if i < 16 { ShapedFrom14(i); }
      else if i < 18 { ShapedFrom16(i); }
      else if i < 20 { ShapedFrom18(i); }
      else { ShapedFrom20(i); }
    }
  }

  /** Country keys are pairwise distinct, and so are FIFA codes: the lookup by FIFA
      code is unambiguous and no two countries share a storage key. */
  lemma CountriesDistinct()
    ensures forall i, j :: 0 <= i < j < |Countries| ==>
      Countries[i].code != Countries[j].code && Countries[i].fifa != Countries[j].fifa
  {
    AllSlots();
  }

  /** No key contains `_`, and no FIFA code contains `_`, `:`, `|` or `,`: the
      characters the storage keys and the share string use as delimiters. */
  lemma CountriesShape()
    ensures forall i :: 0 <= i < |Countries| ==>
      Countries[i].code != "" && NoUnderscore(Countries[i].code) && |Countries[i].fifa| == 3
      && '_' !in Countries[i].fifa && ':' !in Countries[i].fifa && '|' !in Countries[i].fifa && ',' !in Countries[i].fifa
  {
    AllSlots();
    forall i | 0 <= i < |Countries|
      ensures '_' !in Countries[i].fifa && ':' !in Countries[i].fifa && '|' !in Countries[i].fifa && ',' !in Countries[i].fifa
    {
      var f := Countries[i].fifa;
      assert forall k :: 0 <= k < |f| ==> IsCapital(f[k]);
    }
  }

  /** Keys and FIFA codes are each pairwise distinct. */
  predicate DistinctTable(cs: seq<Country>) {
    forall i, j :: 0 <= i < j < |cs| ==> cs[i].code != cs[j].code && cs[i].fifa != cs[j].fifa
  }

  /** A key without `_` and a non-empty FIFA code without the share delimiters. */
  predicate DelimiterFree(c: Country) {
    c.code != "" && NoUnderscore(c.code) && c.fifa != "" && ':' !in c.fifa && '|' !in c.fifa && ',' !in c.fifa
  }

  predicate GoodTable(cs: seq<Country>) {
    DistinctTable(cs) && forall i :: 0 <= i < |cs| ==> DelimiterFree(cs[i])
  }

  /** The overview's table has both properties. */
  lemma CountriesGood()
    ensures GoodTable(Countries)
  {
    CountriesDistinct();
    CountriesShape();
  }
}
