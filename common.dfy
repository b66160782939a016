/** Values shared by every part of the squad selector: the normalised player record,
    the four coarse positions, and the list helpers the JavaScript code reaches for
    (`find`, `some`, `filter`). */
module Common {

  datatype Option<T> = None | Some(value: T) {
    function GetOr(default: T): T {
      match this
      case Some(v) => v
      case None => default
    }
  }

  const GK := "GK"
  const DEF := "DEF"
  const MID := "MID"
  const FWD := "FWD"

  predicate IsCoarsePosition(s: string) {
    s == GK || s == DEF || s == MID || s == FWD
  }

  /** A catalog player as the pages read it. The position is kept as the text the
      catalog carries (the SofaScore transform passes unknown codes through), and an
      absent age or market value is None. */
  datatype Player = Player(
    id: int,
    name: string,
    position: string,
    detailedPosition: string,
    club: string,
    age: Option<int>,
    marketValue: Option<int>)

  /** `p.marketValue || 0` */
  function ValueOf(p: Player): int {
    p.marketValue.GetOr(0)
  }

  /** `p.age || 0` */
  function AgeOf(p: Player): int {
    p.age.GetOr(0)
  }

  /** Index of the first player carrying `id`, or |s| when there is none. */
  function FirstIndex(s: seq<Player>, id: int): (i: nat)
    ensures i <= |s|
    ensures forall j :: 0 <= j < i ==> s[j].id != id
    ensures i < |s| ==> s[i].id == id
  {
    if s == [] then 0
    else if s[0].id == id then 0
    else 1 + FirstIndex(s[1..], id)
  }

  /** `s.find(p => p.id === id)` */
  function Find(s: seq<Player>, id: int): (r: Option<Player>)
    ensures r.None? <==> forall j :: 0 <= j < |s| ==> s[j].id != id
    ensures r.Some? ==> r.value.id == id && r.value == s[FirstIndex(s, id)]
  {
    var i := FirstIndex(s, id);
    if i < |s| then Some(s[i]) else None
  }

  /** `s.some(p => p.id === id)` */
  predicate HasId(s: seq<Player>, id: int) {
    exists j :: 0 <= j < |s| && s[j].id == id
  }

  /** `s.filter(f)`: the order-preserving sub-list of the elements satisfying f. */
  function Filter<T(!new)>(s: seq<T>, f: T -> bool): (r: seq<T>)
    ensures |r| <= |s|
    ensures forall x :: x in r <==> x in s && f(x)
  {
    if s == [] then []
    else (if f(s[0]) then [s[0]] else []) + Filter(s[1..], f)
  }

  /** Filtering distributes over concatenation; with the singleton case this pins
      down that the filter keeps the survivors in their original order. */
  lemma {:induction false} FilterConcat<T(!new)>(a: seq<T>, b: seq<T>, f: T -> bool)
    ensures Filter(a + b, f) == Filter(a, f) + Filter(b, f)
  {
    if a == [] {
      assert a + b == b;
    } else {
      assert (a + b)[1..] == a[1..] + b;
      FilterConcat(a[1..], b, f);
    }
  }

  /** Every element lands on exactly one side of a predicate. */
  lemma {:induction false} FilterComplement<T(!new)>(s: seq<T>, f: T -> bool, g: T -> bool)
    requires forall x :: g(x) == !f(x)
    ensures |Filter(s, f)| + |Filter(s, g)| == |s|
  {
    if s != [] {
      FilterComplement(s[1..], f, g);
    }
  }

  function IdsOf(s: seq<Player>): set<int> {
    set p | p in s :: p.id
  }

  predicate DistinctIds(s: seq<Player>) {
    forall i, j :: 0 <= i < j < |s| ==> s[i].id != s[j].id
  }

  /** The concatenation of f over the elements, in order. */
  function FlatMap<T, U>(xs: seq<T>, f: T -> seq<U>): seq<U>
    decreases |xs|
  {
    if xs == [] then [] else FlatMap(xs[..|xs| - 1], f) + f(xs[|xs| - 1])
  }

  lemma {:induction false} FlatMapConcat<T, U>(a: seq<T>, b: seq<T>, f: T -> seq<U>)
    ensures FlatMap(a + b, f) == FlatMap(a, f) + FlatMap(b, f)
    decreases |b|
  {
    if b == [] {
      assert a + b == a;
    } else {
      var b0 := b[..|b| - 1];
      assert (a + b)[..|a + b| - 1] == a + b0;
      assert (a + b)[|a + b| - 1] == b[|b| - 1];
      FlatMapConcat(a, b0, f);
    }
  }

  /** When each element maps to exactly one result, the flat map is those results. */
  lemma {:induction false} FlatMapSingletons<T, U>(xs: seq<T>, f: T -> seq<U>, ys: seq<U>)
    requires |xs| == |ys|
    requires forall i :: 0 <= i < |xs| ==> f(xs[i]) == [ys[i]]
    ensures FlatMap(xs, f) == ys
    decreases |xs|
  {
    if xs != [] {
      var n := |xs| - 1;
      forall i | 0 <= i < n
        ensures f(xs[..n][i]) == [ys[..n][i]]
      {
        assert xs[..n][i] == xs[i];
      }
      FlatMapSingletons(xs[..n], f, ys[..n]);
      assert ys == ys[..n] + [ys[n]];
    }
  }

  /** Taking one more element out of the unvisited part of a set. */
  lemma VisitOne<T>(all: set<T>, rest: set<T>, x: T)
    requires rest <= all && x in rest
    ensures all - (rest - {x}) == (all - rest) + {x}
    ensures |rest - {x}| < |rest|
  {
  }

  /** Writing a key twice keeps the second value. */
  lemma UpdateTwice<K, V>(m: map<K, V>, k: K, a: V, b: V)
    ensures m[k := a][k := b] == m[k := b]
  {
  }
}
