/** util/set.go: a set of items by key, the diff against an expected list, and its canonical
    sorted form. Items are compared by equality; copies are values. */
module DisorderSets {
  import opened KeyOrder
  import opened KeyedLists

  // ----- The diff, item by item in list order -----

  /** The items started: those whose key was neither in the set nor earlier in the list. */
  ghost function AddsOf<T>(key: T -> string, was: map<string, T>, list: seq<T>): seq<T> {
    if list == [] then []
    else
      var front, last := list[..|list| - 1], list[|list| - 1];
      AddsOf(key, was, front) + if key(last) in was + MapOf(key, front) then [] else [last]
  }

  /** The pairs replaced: an item that differs from what its key held just before it. */
  ghost function ReplacesOf<T>(key: T -> string, was: map<string, T>, list: seq<T>): seq<(T, T)> {
    if list == [] then []
    else
      var front, last := list[..|list| - 1], list[|list| - 1];
      var now := was + MapOf(key, front);
      ReplacesOf(key, was, front) + if key(last) in now && now[key(last)] != last then [(now[key(last)], last)] else []
  }

  /** The items whose key is not in the list. */
  ghost function DelsOf<T>(key: T -> string, was: map<string, T>, list: seq<T>): map<string, T> {
    was - MapOf(key, list).Keys
  }

  /** `del` lists the values of `m` in any order, each key once. */
  ghost predicate ListsValues<T>(key: T -> string, del: seq<T>, m: map<string, T>) {
    && DistinctKeys(key, del)
    && (forall i | 0 <= i < |del| :: key(del[i]) in m && m[key(del[i])] == del[i])
    && forall k | k in m :: m[k] in del
  }

  /** The started items have distinct keys: those of the list that were not in the set. */
  lemma {:induction false} AddsKeys<T>(key: T -> string, was: map<string, T>, list: seq<T>)
    ensures DistinctKeys(key, AddsOf(key, was, list))
    ensures MapOf(key, AddsOf(key, was, list)).Keys == MapOf(key, list).Keys - was.Keys
  {
    if list != [] {
      var front, last := list[..|list| - 1], list[|list| - 1];
      var adds := AddsOf(key, was, front);
      AddsKeys(key, was, front);
      MapOfAppend(key, adds, last);
      assert MapOf(key, list).Keys == MapOf(key, front).Keys + {key(last)};
      if key(last) !in was + MapOf(key, front) {
        forall i | 0 <= i < |adds| ensures key(adds[i]) != key(last) {
          MapOfHas(key, adds, adds[i]);
        }
        assert AddsOf(key, was, list) == adds + [last];
      } else {
        assert AddsOf(key, was, list) == adds;
      }
    }
  }

  /** Whatever the list, the sizes balance. */
  lemma SizesBalance<T>(key: T -> string, was: map<string, T>, list: seq<T>)
    ensures |MapOf(key, list)| == |was| + |AddsOf(key, was, list)| - |DelsOf(key, was, list)|
  {
    var add := AddsOf(key, was, list);
    AddsKeys(key, was, list);
    MapOfSize(key, add);
    DifferenceSizes(MapOf(key, list).Keys, was.Keys);
    assert |MapOf(key, add).Keys| == |add|;
    assert DelsOf(key, was, list).Keys == was.Keys - MapOf(key, list).Keys;
  }

  lemma DifferenceSizes(l: set<string>, w: set<string>)
    ensures |l| == |w| + |l - w| - |w - l|
  {
    assert l == (l - w) + (l * w) && w == (w - l) + (l * w);
  }

  /** With distinct keys the diff is exact: started are the items of new keys, replaced the
      items that changed, each together with what its key held. */
  lemma {:induction false} DiffIsMinimal<T(!new)>(key: T -> string, was: map<string, T>, list: seq<T>)
    requires DistinctKeys(key, list)
    ensures forall x :: x in AddsOf(key, was, list) <==> x in list && key(x) !in was
    ensures forall x, y :: (x, y) in ReplacesOf(key, was, list) <==>
      y in list && key(y) in was && was[key(y)] == x && x != y
  {
    if list != [] {
      var front, last := list[..|list| - 1], list[|list| - 1];
      DiffIsMinimal(key, was, front);
      if key(last) in MapOf(key, front) {
        KeyOfSome(key, front, key(last));
      }
      assert forall x :: x in list <==> x in front || x == last;
    }
  }

  // ----- The diff replayed: stop, then replace, then start -----

  ghost function Stopped<T>(key: T -> string, m: map<string, T>, del: seq<T>): map<string, T> {
    if del == [] then m else Stopped(key, m, del[..|del| - 1]) - {key(del[|del| - 1])}
  }

  /** A replacement is ignored when the keys differ or the key is not there. */
  ghost function ReplacedOne<T>(key: T -> string, m: map<string, T>, pair: (T, T)): map<string, T> {
    if key(pair.0) == key(pair.1) && key(pair.1) in m then m[key(pair.1) := pair.1] else m
  }

  ghost function Replaced<T>(key: T -> string, m: map<string, T>, pairs: seq<(T, T)>): map<string, T> {
    if pairs == [] then m
    else ReplacedOne(key, Replaced(key, m, pairs[..|pairs| - 1]), pairs[|pairs| - 1])
  }

  /** Starting a key that is there already replaces it, so either way the key holds the item. */
  ghost function Started<T>(key: T -> string, m: map<string, T>, add: seq<T>): map<string, T> {
    if add == [] then m
    else Started(key, m, add[..|add| - 1])[key(add[|add| - 1]) := add[|add| - 1]]
  }

  ghost function Replayed<T>(key: T -> string, m: map<string, T>, add: seq<T>, del: seq<T>, replace: seq<(T, T)>):
    map<string, T>
  {
    Started(key, Replaced(key, Stopped(key, m, del), replace), add)
  }

  lemma {:induction false} StoppedIs<T>(key: T -> string, m: map<string, T>, del: seq<T>)
    ensures Stopped(key, m, del) == m - MapOf(key, del).Keys
  {
    if del != [] {
      StoppedIs(key, m, del[..|del| - 1]);
    }
  }

  lemma {:induction false} StartedIs<T>(key: T -> string, m: map<string, T>, add: seq<T>)
    ensures Started(key, m, add) == m + MapOf(key, add)
  {
    if add != [] {
      StartedIs(key, m, add[..|add| - 1]);
    }
  }

  /** What one more item of the list adds to the replacements. */
  lemma ReplacedStep<T>(key: T -> string, was: map<string, T>, m: map<string, T>, front: seq<T>, last: T)
    requires FiledByKey(key, was)
    ensures var now := was + MapOf(key, front);
      Replaced(key, m, ReplacesOf(key, was, front + [last])) ==
        var r := Replaced(key, m, ReplacesOf(key, was, front));
        if key(last) in now && now[key(last)] != last && key(last) in r then r[key(last) := last] else r
  {
    MapOfFiled(key, front);
    DiffStep(key, was, front, last);
    var now := was + MapOf(key, front);
    var pairs := ReplacesOf(key, was, front);
    if key(last) in now && now[key(last)] != last {
      assert key(now[key(last)]) == key(last);
      ReplacedAppend(key, m, pairs, (now[key(last)], last));
    } else {
      assert pairs + [] == pairs;
    }
  }

  lemma ReplacedAppend<T>(key: T -> string, m: map<string, T>, pairs: seq<(T, T)>, pair: (T, T))
    ensures Replaced(key, m, pairs + [pair]) == ReplacedOne(key, Replaced(key, m, pairs), pair)
  {
    assert (pairs + [pair])[..|pairs|] == pairs;
  }

  /** `r` is `m` with the keys of `l` brought to what `l` holds. */
  ghost predicate BroughtTo<T>(m: map<string, T>, l: map<string, T>, r: map<string, T>) {
    r.Keys == m.Keys && forall k | k in m :: r[k] == if k in l then l[k] else m[k]
  }

  /** One more replacement, or none when the key holds the item already. */
  lemma BroughtStep<T>(was: map<string, T>, m: map<string, T>, l: map<string, T>, r: map<string, T>, k: string, x: T)
    requires m.Keys <= was.Keys && (forall j | j in m :: m[j] == was[j]) && BroughtTo(m, l, r)
    ensures var now := was + l;
      BroughtTo(m, l[k := x], if k in now && now[k] != x && k in r then r[k := x] else r)
  {
    if k in m {
      assert r[k] == (was + l)[k];
    }
  }

  /** Replaying the replacements brings every key of `m` to its last item in the list. */
  lemma {:induction false} ReplacedIs<T>(key: T -> string, was: map<string, T>, m: map<string, T>, list: seq<T>)
    requires FiledByKey(key, was) && m.Keys <= was.Keys && (forall k | k in m :: m[k] == was[k])
    ensures BroughtTo(m, MapOf(key, list), Replaced(key, m, ReplacesOf(key, was, list)))
  {
    if list != [] {
      var front, last := list[..|list| - 1], list[|list| - 1];
      assert list == front + [last];
      ReplacedIs(key, was, m, front);
      ReplacedStep(key, was, m, front, last);
      MapOfAppend(key, front, last);
      BroughtStep(was, m, MapOf(key, front), Replaced(key, m, ReplacesOf(key, was, front)), key(last), last);
    }
  }

  /** The first item of a key in a list. */
  ghost function FirstOf<T>(key: T -> string, list: seq<T>, k: string): T
    requires k in MapOf(key, list)
  {
    if k in MapOf(key, list[..|list| - 1]) then FirstOf(key, list[..|list| - 1], k) else list[|list| - 1]
  }

  lemma {:induction false} AddedIsFirst<T>(key: T -> string, was: map<string, T>, list: seq<T>, k: string)
    requires k in MapOf(key, list) && k !in was
    ensures k in MapOf(key, AddsOf(key, was, list))
    ensures MapOf(key, AddsOf(key, was, list))[k] == FirstOf(key, list, k)
  {
    var front, last := list[..|list| - 1], list[|list| - 1];
    AddsKeys(key, was, list);
    AddsKeys(key, was, front);
    var adds := AddsOf(key, was, front);
    MapOfAppend(key, adds, last);
    assert AddsOf(key, was, list) == if key(last) in was + MapOf(key, front) then adds else adds + [last];
    if k in MapOf(key, front) {
      AddedIsFirst(key, was, front, k);
    } else {
      assert key(last) == k;
    }
  }

  /** Every key that is new to the set has its last item in the list equal to its first. */
  ghost predicate NewKeysSettled<T>(key: T -> string, was: map<string, T>, list: seq<T>) {
    forall k | k in MapOf(key, list) && k !in was :: FirstOf(key, list, k) == MapOf(key, list)[k]
  }

  /** Replaying the diff of `was` yields the keys of the list on any map with the keys of `was`. */
  lemma ReplayYieldsKeys<T>(key: T -> string, was: map<string, T>, m: map<string, T>, list: seq<T>, del: seq<T>)
    requires FiledByKey(key, was) && m.Keys == was.Keys && ListsValues(key, del, DelsOf(key, was, list))
    ensures Replayed(key, m, AddsOf(key, was, list), del, ReplacesOf(key, was, list)).Keys == MapOf(key, list).Keys
  {
    var l, add, pairs := MapOf(key, list), AddsOf(key, was, list), ReplacesOf(key, was, list);
    StoppedIs(key, m, del);
    ListedKeys(key, del, DelsOf(key, was, list));
    ReplacedKeys(key, Stopped(key, m, del), pairs);
    StartedIs(key, Replaced(key, Stopped(key, m, del), pairs), add);
    AddsKeys(key, was, list);
  }

  lemma {:induction false} ReplacedKeys<T>(key: T -> string, m: map<string, T>, pairs: seq<(T, T)>)
    ensures Replaced(key, m, pairs).Keys == m.Keys
  {
    if pairs != [] {
      ReplacedKeys(key, m, pairs[..|pairs| - 1]);
    }
  }

  /** Replaying the diff on the old map: a key that was there gets its last item in the list, a
      new key its first. */
  lemma ReplayedItem<T>(key: T -> string, was: map<string, T>, list: seq<T>, del: seq<T>, k: string)
    requires FiledByKey(key, was) && ListsValues(key, del, DelsOf(key, was, list)) && k in MapOf(key, list)
    ensures var r := Replayed(key, was, AddsOf(key, was, list), del, ReplacesOf(key, was, list));
      k in r && r[k] == if k in was then MapOf(key, list)[k] else FirstOf(key, list, k)
  {
    var add := AddsOf(key, was, list);
    StoppedIs(key, was, del);
    ListedKeys(key, del, DelsOf(key, was, list));
    var m := Stopped(key, was, del);
    ReplacedIs(key, was, m, list);
    StartedIs(key, Replaced(key, m, ReplacesOf(key, was, list)), add);
    AddsKeys(key, was, list);
    if k !in was {
      AddedIsFirst(key, was, list, k);
    }
  }

  /** Replaying the diff on the old map yields the items of the list exactly when the list does
      not start one key with two items. */
  lemma ReplayYieldsListIff<T>(key: T -> string, was: map<string, T>, list: seq<T>, del: seq<T>)
    requires FiledByKey(key, was) && ListsValues(key, del, DelsOf(key, was, list))
    ensures Replayed(key, was, AddsOf(key, was, list), del, ReplacesOf(key, was, list)) == MapOf(key, list)
       <==> NewKeysSettled(key, was, list)
  {
    var r := Replayed(key, was, AddsOf(key, was, list), del, ReplacesOf(key, was, list));
    ReplayYieldsKeys(key, was, was, list, del);
    forall k | k in MapOf(key, list)
      ensures r[k] == if k in was then MapOf(key, list)[k] else FirstOf(key, list, k)
    {
      ReplayedItem(key, was, list, del, k);
    }
  }

  /** A key that is new to the set and listed twice is replaced before it is started. */
  lemma DoubledKeyReplayed<T>(key: T -> string, t: T, u: T)
    requires key(t) == key(u) && t != u
    ensures Replayed(key, map[], AddsOf(key, map[], [t, u]), [], ReplacesOf(key, map[], [t, u])) == map[key(t) := t]
    ensures MapOf(key, [t, u]) == map[key(t) := u]
  {
    var none: map<string, T> := map[];
    DiffStep(key, none, [], t);
    DiffStep(key, none, [t], u);
    assert [] + [t] == [t] && [t] + [u] == [t, u];
    assert MapOf(key, [t]) == map[key(t) := t];
    assert AddsOf(key, none, [t, u]) == [t] && ReplacesOf(key, none, [t, u]) == [(t, u)];
    assert Replaced(key, none, [(t, u)]) == none;
    StartedIs(key, none, [t]);
  }

  lemma ListedKeys<T>(key: T -> string, del: seq<T>, m: map<string, T>)
    requires ListsValues(key, del, m) && FiledByKey(key, m)
    ensures MapOf(key, del).Keys == m.Keys
  {
    forall k ensures k in MapOf(key, del) <==> k in m {
      if k in MapOf(key, del) {
        KeyOfSome(key, del, k);
      }
      if k in m {
        MapOfHas(key, del, m[k]);
      }
    }
  }

  /** Distinct keys are enough. */
  lemma {:induction false} DistinctIsSettled<T>(key: T -> string, was: map<string, T>, list: seq<T>)
    requires DistinctKeys(key, list)
    ensures NewKeysSettled(key, was, list)
  {
    forall k | k in MapOf(key, list) && k !in was ensures FirstOf(key, list, k) == MapOf(key, list)[k] {
      FirstIsIn(key, list, k);
      MapOfDistinct(key, list, FirstOf(key, list, k));
    }
  }

  lemma {:induction false} FirstIsIn<T>(key: T -> string, list: seq<T>, k: string)
    requires k in MapOf(key, list)
    ensures FirstOf(key, list, k) in list && key(FirstOf(key, list, k)) == k
  {
    if k in MapOf(key, list[..|list| - 1]) {
      FirstIsIn(key, list[..|list| - 1], k);
    }
  }

  // ----- The canonical list -----

  ghost predicate SortedByKey<T>(key: T -> string, list: seq<T>) {
    forall i, j | 0 <= i < j < |list| :: Less(key(list[i]), key(list[j]))
  }

  /** The items of `m` in key order. */
  ghost function Canonical<T>(m: map<string, T>): seq<T> {
    if m == map[] then []
    else
      LeastExists(m.Keys);
      var k :| IsLeast(k, m.Keys);
      [m[k]] + Canonical(m - {k})
  }

  lemma SortedIsDistinct<T>(key: T -> string, list: seq<T>)
    requires SortedByKey(key, list)
    ensures DistinctKeys(key, list)
  {
    forall i, j | 0 <= i < j < |list| ensures key(list[i]) != key(list[j]) {
      LessAsymmetric(key(list[i]), key(list[j]));
    }
  }

  lemma {:induction false} MapOfPrepend<T>(key: T -> string, x: T, list: seq<T>)
    ensures MapOf(key, [x] + list) == map[key(x) := x] + MapOf(key, list)
  {
    if list == [] {
      assert [x] + list == [] + [x];
      MapOfAppend(key, [], x);
    } else {
      var front, last := list[..|list| - 1], list[|list| - 1];
      MapOfPrepend(key, x, front);
      assert [x] + list == ([x] + front) + [last];
      MapOfAppend(key, [x] + front, last);
    }
  }

  lemma CanonicalStep<T>(m: map<string, T>) returns (k: string)
    requires m != map[]
    ensures IsLeast(k, m.Keys) && Canonical(m) == [m[k]] + Canonical(m - {k})
  {
    LeastExists(m.Keys);
    k :| IsLeast(k, m.Keys) && Canonical(m) == [m[k]] + Canonical(m - {k});
  }

  lemma {:induction false} CanonicalMap<T>(key: T -> string, m: map<string, T>)
    requires FiledByKey(key, m)
    ensures MapOf(key, Canonical(m)) == m
    decreases m.Keys
  {
    if m != map[] {
      var k := CanonicalStep(m);
      var rest := m - {k};
      CanonicalMap(key, rest);
      MapOfPrepend(key, m[k], Canonical(rest));
      assert key(m[k]) == k && map[k := m[k]] + rest == m;
    }
  }

  /** The canonical list is strictly increasing by key and holds exactly the items of the map. */
  lemma {:induction false} CanonicalIs<T>(key: T -> string, m: map<string, T>)
    requires FiledByKey(key, m)
    ensures SortedByKey(key, Canonical(m)) && MapOf(key, Canonical(m)) == m
    decreases m.Keys
  {
    CanonicalMap(key, m);
    if m != map[] {
      var k := CanonicalStep(m);
      CanonicalIs(key, m - {k});
      SortedPrepend(key, m[k], Canonical(m - {k}), m);
    }
  }

  lemma SortedPrepend<T>(key: T -> string, x: T, rest: seq<T>, m: map<string, T>)
    requires SortedByKey(key, rest) && MapOf(key, rest) == m - {key(x)} && IsLeast(key(x), m.Keys)
    ensures SortedByKey(key, [x] + rest)
  {
    forall i | 0 <= i < |rest| ensures Less(key(x), key(rest[i])) {
      MapOfHas(key, rest, rest[i]);
    }
  }

  /** It is the only such list, so it does not depend on the order in which a map is walked. */
  lemma {:induction false} SortedIsCanonical<T>(key: T -> string, list: seq<T>)
    requires SortedByKey(key, list)
    ensures list == Canonical(MapOf(key, list))
  {
    var m := MapOf(key, list);
    if list != [] {
      var x, rest := list[0], list[1..];
      assert list == [x] + rest;
      MapOfPrepend(key, x, rest);
      SortedIsDistinct(key, list);
      if key(x) in MapOf(key, rest) {
        KeyOfSome(key, rest, key(x));
      }
      assert m - {key(x)} == MapOf(key, rest);
      forall k | k in m && k != key(x) ensures Less(key(x), k) {
        KeyOfSome(key, list, k);
      }
      var k := CanonicalStep(m);
      LeastUnique(k, key(x), m.Keys);
      SortedIsCanonical(key, rest);
    }
  }

  /** What IsSame answers: the list has exactly the keys of the set and each of its items is
      the one filed there. */
  ghost predicate SameAs<T>(key: T -> string, m: map<string, T>, list: seq<T>) {
    && MapOf(key, list).Keys == m.Keys
    && forall x | x in list :: key(x) in m && m[key(x)] == x
  }

  ghost predicate NoDiff<T>(key: T -> string, m: map<string, T>, list: seq<T>) {
    AddsOf(key, m, list) == [] && ReplacesOf(key, m, list) == [] && DelsOf(key, m, list) == map[]
  }

  /** IsSame answers yes exactly when Update would return three empty lists. */
  lemma {:induction false} SameIffNoDiff<T>(key: T -> string, m: map<string, T>, list: seq<T>)
    ensures SameAs(key, m, list) <==> NoDiff(key, m, list)
  {
    NoChangeIff(key, m, list);
    forall x | x in list ensures key(x) in MapOf(key, list) {
      MapOfHas(key, list, x);
    }
    if NoDiff(key, m, list) {
      AddsKeys(key, m, list);
      assert MapOf(key, list).Keys - m.Keys == {};
      assert m.Keys - MapOf(key, list).Keys == DelsOf(key, m, list).Keys;
    }
  }

  lemma {:induction false} NoChangeIff<T>(key: T -> string, m: map<string, T>, list: seq<T>)
    ensures AddsOf(key, m, list) == [] && ReplacesOf(key, m, list) == []
       <==> forall x | x in list :: key(x) in m && m[key(x)] == x
  {
    if list != [] {
      var front, last := list[..|list| - 1], list[|list| - 1];
      NoChangeIff(key, m, front);
      assert forall x :: x in list <==> x in front || x == last;
      if forall x | x in front :: key(x) in m && m[key(x)] == x {
        assert m + MapOf(key, front) == m by {
          forall k | k in MapOf(key, front) ensures k in m && MapOf(key, front)[k] == m[k] {
            MapOfFrom(key, front, k);
            MapOfFiled(key, front);
          }
        }
      }
    }
  }

  lemma SameAsCanonical<T>(key: T -> string, m: map<string, T>, n: map<string, T>)
    requires FiledByKey(key, m) && FiledByKey(key, n)
    ensures m == n <==> SameAs(key, m, Canonical(n))
  {
    CanonicalIs(key, n);
    SortedIsDistinct(key, Canonical(n));
    forall x | x in Canonical(n) ensures key(x) in n && n[key(x)] == x {
      MapOfDistinct(key, Canonical(n), x);
    }
    forall k | k in n ensures n[k] in Canonical(n) && key(n[k]) == k {
      MapOfFrom(key, Canonical(n), k);
    }
  }

  /** Four ways to say that two sets hold the same items. */
  lemma CanonicalForm<T>(key: T -> string, m: map<string, T>, n: map<string, T>)
    requires FiledByKey(key, m) && FiledByKey(key, n)
    ensures m == n <==> Canonical(m) == Canonical(n)
    ensures m == n <==> SameAs(key, m, Canonical(n))
    ensures m == n <==> NoDiff(key, m, Canonical(n))
  {
    CanonicalMap(key, m);
    CanonicalMap(key, n);
    SameAsCanonical(key, m, n);
    SameIffNoDiff(key, m, Canonical(n));
  }

  // ----- The set -----

  datatype Entry<T> = Entry(data: T, checked: bool)

  ghost function Datas<T>(index: map<string, Entry<T>>): map<string, T> {
    map k | k in index :: index[k].data
  }

  lemma DatasFollow<T>(index: map<string, Entry<T>>, k: string, e: Entry<T>)
    ensures Datas(index[k := e]) == Datas(index)[k := e.data]
    ensures Datas(index - {k}) == Datas(index) - {k}
  {
  }

  /** Exactly the given keys carry a check mark. */
  ghost predicate Marked<T>(index: map<string, Entry<T>>, seen: set<string>) {
    forall k | k in index :: index[k].checked <==> k in seen
  }

  class DisorderSet<T(==, !new)> {
    const key: T -> string
    var index: map<string, Entry<T>>

    ghost function Contents(): map<string, T>
      reads this
    {
      Datas(index)
    }

    ghost predicate Valid()
      reads this
    {
      FiledByKey(key, Contents())
    }

    constructor (key: T -> string)
      ensures Valid() && this.key == key && Contents() == map[]
    {
      this.key := key;
      index := map[];
    }

    constructor FromList(key: T -> string, list: seq<T>)
      ensures Valid() && this.key == key && Contents() == MapOf(key, list)
    {
      this.key := key;
      index := map[];
      new;
      for i := 0 to |list|
        invariant Contents() == MapOf(key, list[..i])
      {
        assert list[..i + 1] == list[..i] + [list[i]];
        MapOfAppend(key, list[..i], list[i]);
        Add(list[i]);
      }
      assert list[..|list|] == list;
      MapOfFiled(key, list);
    }

    method Add(data: T)
      modifies this
      ensures Contents() == old(Contents())[key(data) := data]
      ensures key(data) in index && !index[key(data)].checked
      ensures old(Valid()) ==> Valid()
    {
      index := index[key(data) := Entry(data, false)];
    }

    method Del(data: T)
      modifies this
      ensures Contents() == old(Contents()) - {key(data)}
      ensures old(Valid()) ==> Valid()
    {
      index := index - {key(data)};
    }

    method Exist(data: T) returns (yes: bool)
      ensures yes <==> key(data) in Contents() && Contents()[key(data)] == data
    {
      if key(data) in index {
        return index[key(data)].data == data;
      }
      return false;
    }

    method Reset()
      modifies this
      ensures Contents() == old(Contents())
      ensures forall k | k in index :: !index[k].checked
    {
      var todo := index.Keys;
      while todo != {}
        invariant todo <= index.Keys && Contents() == old(Contents())
        invariant forall k | k in index && k !in todo :: !index[k].checked
      {
        var k :| k in todo;
        index := index[k := index[k].(checked := false)];
        todo := todo - {k};
      }
    }

    /** Brings the set to the list, and says what to stop, replace and start for that. The
        result does not depend on the check marks that earlier calls have left. */
    method Update(list: seq<T>) returns (add: seq<T>, del: seq<T>, replace: seq<(T, T)>)
      requires Valid()
      modifies this
      ensures Valid() && Contents() == MapOf(key, list)
      ensures add == AddsOf(key, old(Contents()), list)
      ensures replace == ReplacesOf(key, old(Contents()), list)
      ensures ListsValues(key, del, DelsOf(key, old(Contents()), list))
    {
      ghost var was := Contents();
      Reset();
      add, del, replace := [], [], [];
      ghost var front := [];
      for i := 0 to |list|
        invariant front == list[..i]
        invariant Diffed(key, was, front, index, add, replace)
      {
        var data := list[i];
        DiffedStep(key, was, front, index, add, replace, data);
        if key(data) in index {
          if index[key(data)].data == data {
            index := index[key(data) := index[key(data)].(checked := true)];
          } else {
            replace := replace + [(index[key(data)].data, data)];
            index := index[key(data) := Entry(data, true)];
          }
        } else {
          add := add + [data];
          index := index[key(data) := Entry(data, true)];
        }
        front := front + [data];
      }
      assert front == list;
      MapOfFiled(key, list);
      del := DropUnchecked(was, list);
    }

    /** Lines 90 to 96 of util/set.go. */
    method DropUnchecked(ghost was: map<string, T>, ghost list: seq<T>) returns (del: seq<T>)
      requires FiledByKey(key, was) && Contents() == was + MapOf(key, list)
      requires Marked(index, MapOf(key, list).Keys)
      modifies this
      ensures Contents() == MapOf(key, list)
      ensures ListsValues(key, del, DelsOf(key, was, list))
    {
      del := [];
      var todo := index.Keys;
      while todo != {}
        invariant todo <= index.Keys && Marked(index, MapOf(key, list).Keys)
        invariant Dropped(key, was, list, index, del, todo)
      {
        var k :| k in todo;
        DropStep(key, was, list, index, del, todo, k);
        if !index[k].checked {
          del := del + [index[k].data];
          index := index - {k};
        }
        todo := todo - {k};
      }
      DropsAll(key, was, list, index, del);
    }

    method IsSame(list: seq<T>) returns (same: bool)
      modifies this
      ensures Contents() == old(Contents())
      ensures same <==> SameAs(key, Contents(), list)
    {
      Reset();
      for i := 0 to |list|
        invariant Contents() == old(Contents())
        invariant forall x | x in list[..i] :: key(x) in Contents() && Contents()[key(x)] == x
        invariant forall k | k in index :: index[k].checked <==> k in MapOf(key, list[..i])
      {
        var data := list[i];
        assert list[..i + 1] == list[..i] + [data];
        MapOfAppend(key, list[..i], data);
        if !(key(data) in index && index[key(data)].data == data) {
          assert data in list && !(key(data) in Contents() && Contents()[key(data)] == data);
          return false;
        }
        index := index[key(data) := Entry(data, true)];
      }
      assert list[..|list|] == list;
      forall k | k in MapOf(key, list) ensures k in index {
        MapOfFrom(key, list, k);
        MapOfFiled(key, list);
      }
      var todo := index.Keys;
      while todo != {}
        invariant todo <= index.Keys
        invariant forall k | k in index && k !in todo :: index[k].checked
      {
        var k :| k in todo;
        if !index[k].checked {
          assert k in Contents() && k !in MapOf(key, list);
          return false;
        }
        todo := todo - {k};
      }
      return true;
    }

    /** Gathers the items in any order and sorts them by key. */
    method Sort() returns (list: seq<T>)
      requires Valid()
      ensures list == Canonical(Contents())
    {
      list := [];
      var todo := index.Keys;
      while todo != {}
        invariant todo <= index.Keys
        invariant SortedByKey(key, list) && MapOf(key, list) == Contents() - todo
      {
        var k :| k in todo;
        assert Contents()[k] == index[k].data;
        ghost var was := list;
        list := Inserted(list, index[k].data);
        todo := todo - {k};
        assert Contents() - todo == (Contents() - (todo + {k}))[k := Contents()[k]];
      }
      assert Contents() - todo == Contents();
      SortedIsCanonical(key, list);
    }

    /** Stands for the library call sort.Sort, one item at a time. */
    method Inserted(list: seq<T>, x: T) returns (r: seq<T>)
      requires SortedByKey(key, list) && key(x) !in MapOf(key, list)
      ensures SortedByKey(key, r) && MapOf(key, r) == MapOf(key, list)[key(x) := x]
    {
      var i := 0;
      while i < |list| && Less(key(list[i]), key(x))
        invariant 0 <= i <= |list|
        invariant forall j | 0 <= j < i :: Less(key(list[j]), key(x))
      {
        i := i + 1;
      }
      r := list[..i] + [x] + list[i..];
      InsertSorted(key, list, i, x);
      assert list[..i] + list[i..] == list;
      InsertMap(key, list[..i], x, list[i..]);
    }
  }

  lemma DiffStep<T>(key: T -> string, was: map<string, T>, front: seq<T>, data: T)
    ensures var now := was + MapOf(key, front);
      && MapOf(key, front + [data]) == MapOf(key, front)[key(data) := data]
      && was + MapOf(key, front + [data]) == now[key(data) := data]
      && AddsOf(key, was, front + [data]) == AddsOf(key, was, front) + (if key(data) in now then [] else [data])
      && ReplacesOf(key, was, front + [data]) == ReplacesOf(key, was, front) +
           if key(data) in now && now[key(data)] != data then [(now[key(data)], data)] else []
  {
    assert (front + [data])[..|front|] == front;
  }

  /** The diff after the items `front` of the list. */
  ghost predicate Diffed<T>(key: T -> string, was: map<string, T>, front: seq<T>, index: map<string, Entry<T>>,
                            add: seq<T>, replace: seq<(T, T)>)
  {
    && Datas(index) == was + MapOf(key, front)
    && Marked(index, MapOf(key, front).Keys)
    && add == AddsOf(key, was, front)
    && replace == ReplacesOf(key, was, front)
  }

  lemma DiffedStep<T>(key: T -> string, was: map<string, T>, front: seq<T>, index: map<string, Entry<T>>,
                      add: seq<T>, replace: seq<(T, T)>, x: T)
    requires Diffed(key, was, front, index, add, replace)
    ensures var now := index[key(x) := Entry(x, true)];
      if key(x) !in index then Diffed(key, was, front + [x], now, add + [x], replace)
      else if index[key(x)].data == x then Diffed(key, was, front + [x], now, add, replace)
      else Diffed(key, was, front + [x], now, add, replace + [(index[key(x)].data, x)])
    ensures key(x) in index && index[key(x)].data == x ==> index[key(x)].(checked := true) == Entry(x, true)
  {
    DatasFollow(index, key(x), Entry(x, true));
    DiffStep(key, was, front, x);
    assert key(x) in index ==> Datas(index)[key(x)] == index[key(x)].data;
  }

  lemma ListsOneMore<T>(key: T -> string, del: seq<T>, dels: map<string, T>, todo: set<string>, k: string)
    requires FiledByKey(key, dels) && ListsValues(key, del, dels - todo) && k in dels && k in todo
    ensures ListsValues(key, del + [dels[k]], dels - (todo - {k}))
  {
    var now := dels - (todo - {k});
    assert now == (dels - todo)[k := dels[k]];
    forall i | 0 <= i < |del| ensures key(del[i]) != k {
      assert key(del[i]) in dels - todo;
    }
    forall j | j in now ensures now[j] in del + [dels[k]] {
      assert j != k ==> (dels - todo)[j] in del;
    }
  }

  /** The sweep over the unchecked keys, with the keys `todo` still to come. */
  ghost predicate Dropped<T>(key: T -> string, was: map<string, T>, list: seq<T>, index: map<string, Entry<T>>,
                             del: seq<T>, todo: set<string>)
  {
    var dels := DelsOf(key, was, list);
    && Datas(index) == (was + MapOf(key, list)) - (dels.Keys - todo)
    && ListsValues(key, del, dels - todo)
  }

  lemma DropStep<T>(key: T -> string, was: map<string, T>, list: seq<T>, index: map<string, Entry<T>>,
                    del: seq<T>, todo: set<string>, k: string)
    requires FiledByKey(key, was) && Dropped(key, was, list, index, del, todo)
    requires Marked(index, MapOf(key, list).Keys) && k in todo && k in index
    ensures if index[k].checked then Dropped(key, was, list, index, del, todo - {k})
            else Dropped(key, was, list, index - {k}, del + [index[k].data], todo - {k})
  {
    var dels := DelsOf(key, was, list);
    DatasFollow(index, k, index[k]);
    assert Datas(index)[k] == index[k].data;
    if index[k].checked {
      assert dels - (todo - {k}) == dels - todo;
      assert dels.Keys - (todo - {k}) == dels.Keys - todo;
    } else {
      assert index[k].data == was[k] == dels[k];
      ListsOneMore(key, del, dels, todo, k);
      assert dels.Keys - (todo - {k}) == (dels.Keys - todo) + {k};
    }
  }

  lemma DropsAll<T>(key: T -> string, was: map<string, T>, list: seq<T>, index: map<string, Entry<T>>, del: seq<T>)
    requires Dropped(key, was, list, index, del, {})
    ensures Datas(index) == MapOf(key, list) && ListsValues(key, del, DelsOf(key, was, list))
  {
    var dels := DelsOf(key, was, list);
    assert dels - {} == dels && dels.Keys - {} == dels.Keys;
    assert (was + MapOf(key, list)) - dels.Keys == MapOf(key, list);
  }

  lemma InsertSorted<T>(key: T -> string, list: seq<T>, i: nat, x: T)
    requires SortedByKey(key, list) && key(x) !in MapOf(key, list) && i <= |list|
    requires forall j | 0 <= j < i :: Less(key(list[j]), key(x))
    requires i < |list| ==> !Less(key(list[i]), key(x))
    ensures SortedByKey(key, list[..i] + [x] + list[i..])
  {
    forall j | i <= j < |list| ensures Less(key(x), key(list[j])) {
      MapOfHas(key, list, list[i]);
      LessTotal(key(x), key(list[i]));
      if i < j {
        LessTransitive(key(x), key(list[i]), key(list[j]));
      }
    }
  }

  lemma {:induction false} InsertMap<T>(key: T -> string, a: seq<T>, x: T, b: seq<T>)
    requires key(x) !in MapOf(key, a + b)
    ensures MapOf(key, a + [x] + b) == MapOf(key, a + b)[key(x) := x]
  {
    if b == [] {
      assert a + [x] + b == a + [x] && a + b == a;
      MapOfAppend(key, a, x);
    } else {
      var front, last := b[..|b| - 1], b[|b| - 1];
      assert a + [x] + b == (a + [x] + front) + [last] && a + b == (a + front) + [last];
      MapOfAppend(key, a + [x] + front, last);
      MapOfAppend(key, a + front, last);
      InsertMap(key, a, x, front);
    }
  }
}
