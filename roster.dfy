/** The squad builder's selection rules: toggling a catalog player in or out of the
    selected list under the three limits of a World Cup squad. */
module Roster {
  import opened Common

  const MaxSquadSize := 26
  const MaxGoalkeepers := 3
  const MaxOutfield := 23

  function IsGoalkeeper(p: Player): bool {
    p.position == GK
  }

  function IsOutfield(p: Player): bool {
    p.position != GK
  }

  function GoalkeeperCount(sel: seq<Player>): nat {
    |Filter(sel, IsGoalkeeper)|
  }

  function OutfieldCount(sel: seq<Player>): nat {
    |Filter(sel, IsOutfield)|
  }

  /** `selectedPlayers.filter(p => p.id !== id)` */
  function RemoveId(sel: seq<Player>, id: int): seq<Player> {
    Filter(sel, (p: Player) => p.id != id)
  }

  /** The three limits, plus one entry per player. */
  predicate Valid(sel: seq<Player>) {
    GoalkeeperCount(sel) <= MaxGoalkeepers && OutfieldCount(sel) <= MaxOutfield && DistinctIds(sel)
  }

  datatype Outcome =
    | NoCatalog        // no data for the current country: nothing happens
    | Removed
    | Added
    | GoalkeeperLimit
    | OutfieldLimit
    | SquadFull
    | UnknownPlayer    // the id is neither selected nor in the catalog: `player.position` throws

  datatype Step = Step(outcome: Outcome, selection: seq<Player>)

  /** `togglePlayer(id)` against the current country's catalog (None when the country
      has no loaded player list). A goalkeeper meets only the goalkeeper limit before
      the total, anyone else only the outfield limit. */
  function Toggle(catalog: Option<seq<Player>>, sel: seq<Player>, id: int): (r: Step)
    ensures r.outcome == Added || r.outcome == Removed || r.selection == sel
    ensures r.outcome == Removed <==> catalog.Some? && HasId(sel, id)
    ensures r.outcome == Removed ==> r.selection == RemoveId(sel, id)
    ensures r.outcome == Added ==>
      catalog.Some? && !HasId(sel, id) && Find(catalog.value, id).Some?
      && r.selection == sel + [Find(catalog.value, id).value]
    ensures r.outcome == Added <==>
      catalog.Some? && !HasId(sel, id) && Find(catalog.value, id).Some?
      && (IsGoalkeeper(Find(catalog.value, id).value) ==> GoalkeeperCount(sel) < MaxGoalkeepers)
      && (IsOutfield(Find(catalog.value, id).value) ==> OutfieldCount(sel) < MaxOutfield)
      && |sel| < MaxSquadSize
    ensures |sel| >= MaxSquadSize ==> r.outcome != Added
    ensures r.outcome == NoCatalog <==> catalog.None?
    ensures r.outcome == UnknownPlayer <==>
      catalog.Some? && !HasId(sel, id) && Find(catalog.value, id).None?
    ensures r.outcome == SquadFull <==>
      catalog.Some? && !HasId(sel, id) && Find(catalog.value, id).Some?
      && (IsGoalkeeper(Find(catalog.value, id).value) ==> GoalkeeperCount(sel) < MaxGoalkeepers)
      && (IsOutfield(Find(catalog.value, id).value) ==> OutfieldCount(sel) < MaxOutfield)
      && |sel| >= MaxSquadSize
  {
    if catalog.None? then Step(NoCatalog, sel)
    else if HasId(sel, id) then Step(Removed, RemoveId(sel, id))
    else match Find(catalog.value, id)
      case None => Step(UnknownPlayer, sel)
      case Some(p) =>
        if p.position == GK && GoalkeeperCount(sel) >= MaxGoalkeepers then Step(GoalkeeperLimit, sel)
        else if p.position != GK && OutfieldCount(sel) >= MaxOutfield then Step(OutfieldLimit, sel)
        else if |sel| >= MaxSquadSize then Step(SquadFull, sel)
        else Step(Added, sel + [p])
  }

  lemma {:induction false} CountsSplit(sel: seq<Player>)
    ensures GoalkeeperCount(sel) + OutfieldCount(sel) == |sel|
  {
    FilterComplement(sel, IsGoalkeeper, IsOutfield);
  }

  lemma CountsAppend(sel: seq<Player>, p: Player)
    ensures GoalkeeperCount(sel + [p]) == GoalkeeperCount(sel) + (if IsGoalkeeper(p) then 1 else 0)
    ensures OutfieldCount(sel + [p]) == OutfieldCount(sel) + (if IsOutfield(p) then 1 else 0)
  {
    FilterConcat(sel, [p], IsGoalkeeper);
    FilterConcat(sel, [p], IsOutfield);
  }

  /** Removing players never raises a position count. */
  lemma {:induction false} CountsAfterRemove(sel: seq<Player>, id: int)
    ensures GoalkeeperCount(RemoveId(sel, id)) <= GoalkeeperCount(sel)
    ensures OutfieldCount(RemoveId(sel, id)) <= OutfieldCount(sel)
  {
    if sel != [] {
      CountsAfterRemove(sel[1..], id);
      var head := if sel[0].id != id then [sel[0]] else [];
      var tail := RemoveId(sel[1..], id);
      assert RemoveId(sel, id) == head + tail;
      FilterConcat(head, tail, IsGoalkeeper);
      FilterConcat(head, tail, IsOutfield);
    }
  }

  lemma {:induction false} FilterKeepsDistinct(s: seq<Player>, f: Player -> bool)
    requires DistinctIds(s)
    ensures DistinctIds(Filter(s, f))
  {
    if s != [] {
      FilterKeepsDistinct(s[1..], f);
      var tail := Filter(s[1..], f);
      forall j | 0 <= j < |tail|
        ensures tail[j].id != s[0].id
      {
        assert tail[j] in s[1..];
      }
    }
  }

  /** Removal drops every entry with the id and keeps every other entry. */
  lemma RemoveProperties(sel: seq<Player>, id: int)
    ensures !HasId(RemoveId(sel, id), id)
    ensures forall p :: p in sel && p.id != id ==> p in RemoveId(sel, id)
    ensures forall p :: p in RemoveId(sel, id) ==> p in sel
    ensures |RemoveId(sel, id)| <= |sel|
  {
    var r := RemoveId(sel, id);
    forall j | 0 <= j < |r|
      ensures r[j].id != id
    {
      assert r[j] in r;
    }
  }

  /** Removal keeps the order of what stays: it works piecewise over a split. */
  lemma RemoveIdConcat(a: seq<Player>, b: seq<Player>, id: int)
    ensures RemoveId(a + b, id) == RemoveId(a, id) + RemoveId(b, id)
  {
    FilterConcat(a, b, (p: Player) => p.id != id);
  }

  /** In a selection with one entry per player, removing a selected player's id cuts
      out exactly that entry and keeps the others in their order. */
  /** Removing an id that no entry carries changes nothing. */
  lemma RemoveAbsent(s: seq<Player>, id: int)
    requires forall j :: 0 <= j < |s| ==> s[j].id != id
    ensures RemoveId(s, id) == s
  {
    FilterAllKept(s, (p: Player) => p.id != id);
  }

  lemma RemoveAtIndex(sel: seq<Player>, i: int)
    requires DistinctIds(sel) && 0 <= i < |sel|
    ensures RemoveId(sel, sel[i].id) == sel[..i] + sel[i+1..]
  {
    var id := sel[i].id;
    var pre, post := sel[..i], sel[i+1..];
    assert sel == pre + ([sel[i]] + post);
    RemoveIdConcat(pre, [sel[i]] + post, id);
    RemoveIdConcat([sel[i]], post, id);
    forall j | 0 <= j < |pre|
      ensures pre[j].id != id
    {
      assert pre[j] == sel[j];
    }
    RemoveAbsent(pre, id);
    forall j | 0 <= j < |post|
      ensures post[j].id != id
    {
      assert post[j] == sel[i + 1 + j];
    }
    RemoveAbsent(post, id);
    assert RemoveId([sel[i]], id) == [];
    calc {
      RemoveId(sel, id);
      RemoveId(pre, id) + RemoveId([sel[i]] + post, id);
      pre + (RemoveId([sel[i]], id) + RemoveId(post, id));
      pre + ([] + post);
      { assert [] + post == post; }
      pre + post;
    }
  }

  /** A refused add leaves the selection exactly as it was. */
  lemma RejectionsChangeNothing(catalog: Option<seq<Player>>, sel: seq<Player>, id: int)
    ensures var r := Toggle(catalog, sel, id);
      r.outcome !in {Added, Removed} ==> r.selection == sel
    ensures var r := Toggle(catalog, sel, id);
      r.outcome == GoalkeeperLimit <==>
        catalog.Some? && !HasId(sel, id) && Find(catalog.value, id).Some?
        && IsGoalkeeper(Find(catalog.value, id).value) && GoalkeeperCount(sel) >= MaxGoalkeepers
    ensures var r := Toggle(catalog, sel, id);
      r.outcome == OutfieldLimit <==>
        catalog.Some? && !HasId(sel, id) && Find(catalog.value, id).Some?
        && IsOutfield(Find(catalog.value, id).value) && OutfieldCount(sel) >= MaxOutfield
  {
  }

  /** Within the goalkeeper and outfield limits the total check can never be the one
      that refuses: passing either position check leaves room under 26. */
  lemma TotalCheckUnreachable(catalog: Option<seq<Player>>, sel: seq<Player>, id: int)
    requires GoalkeeperCount(sel) <= MaxGoalkeepers && OutfieldCount(sel) <= MaxOutfield
    ensures Toggle(catalog, sel, id).outcome != SquadFull
  {
    CountsSplit(sel);
  }

  /** Toggling keeps the limits and the one-entry-per-player property. */
  lemma TogglePreservesValid(catalog: Option<seq<Player>>, sel: seq<Player>, id: int)
    requires Valid(sel)
    ensures Valid(Toggle(catalog, sel, id).selection)
    ensures |Toggle(catalog, sel, id).selection| <= MaxSquadSize
  {
    var r := Toggle(catalog, sel, id);
    CountsSplit(sel);
    if r.outcome == Removed {
      CountsAfterRemove(sel, id);
      FilterKeepsDistinct(sel, (p: Player) => p.id != id);
    } else if r.outcome == Added {
      var p := Find(catalog.value, id).value;
      CountsAppend(sel, p);
      var s := sel + [p];
      forall i, j | 0 <= i < j < |s|
        ensures s[i].id != s[j].id
      {
        if j == |sel| {
          assert s[i] == sel[i];
        }
      }
    }
    CountsSplit(r.selection);
  }

  lemma {:induction false} FilterAllKept(s: seq<Player>, f: Player -> bool)
    requires forall j :: 0 <= j < |s| ==> f(s[j])
    ensures Filter(s, f) == s
  {
    if s != [] {
      FilterAllKept(s[1..], f);
      assert [s[0]] + s[1..] == s;
    }
  }

  /** Toggling a freshly added player again removes it and restores the previous
      selection. */
  lemma ToggleTwice(catalog: Option<seq<Player>>, sel: seq<Player>, id: int)
    requires Toggle(catalog, sel, id).outcome == Added
    ensures var again := Toggle(catalog, Toggle(catalog, sel, id).selection, id);
      again.outcome == Removed && again.selection == sel
  {
    var p := Find(catalog.value, id).value;
    var s := sel + [p];
    assert s[|sel|].id == id;
    var keep := (q: Player) => q.id != id;
    FilterConcat(sel, [p], keep);
    FilterAllKept(sel, keep);
  }
}
