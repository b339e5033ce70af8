/** Lists of items that have a key, as maps in which a later item replaces an earlier one of the
    same key. The sets of tracks and sessions and the table of statuses are built from lists so. */
module KeyedLists {
  /** The items of a list by their key; a later item replaces an earlier one of the same key. */
  ghost function MapOf<T>(key: T -> string, list: seq<T>): map<string, T> {
    if list == [] then map[]
    else MapOf(key, list[..|list| - 1])[key(list[|list| - 1]) := list[|list| - 1]]
  }

  ghost predicate FiledByKey<T>(key: T -> string, m: map<string, T>) {
    forall k | k in m :: key(m[k]) == k
  }

  ghost predicate DistinctKeys<T>(key: T -> string, list: seq<T>) {
    forall i, j | 0 <= i < j < |list| :: key(list[i]) != key(list[j])
  }

  lemma {:induction false} MapOfFiled<T>(key: T -> string, list: seq<T>)
    ensures FiledByKey(key, MapOf(key, list))
  {
    if list != [] {
      MapOfFiled(key, list[..|list| - 1]);
    }
  }

  lemma {:induction false} MapOfHas<T>(key: T -> string, list: seq<T>, x: T)
    requires x in list
    ensures key(x) in MapOf(key, list)
  {
    if x != list[|list| - 1] {
      MapOfHas(key, list[..|list| - 1], x);
    }
  }

  /** The position of the last item of a key in the list. */
  lemma {:induction false} MapOfAt<T>(key: T -> string, list: seq<T>, k: string) returns (i: nat)
    requires k in MapOf(key, list)
    ensures i < |list| && MapOf(key, list)[k] == list[i] && key(list[i]) == k
    ensures forall j | i < j < |list| :: key(list[j]) != k
  {
    i := |list| - 1;
    if key(list[i]) != k {
      var front := list[..i];
      i := MapOfAt(key, front, k);
      assert forall j | 0 <= j < |front| :: front[j] == list[j];
    }
  }

  lemma MapOfFrom<T>(key: T -> string, list: seq<T>, k: string)
    requires k in MapOf(key, list)
    ensures MapOf(key, list)[k] in list
  {
    var i := MapOfAt(key, list, k);
  }

  lemma {:induction false} MapOfDistinct<T>(key: T -> string, list: seq<T>, x: T)
    requires DistinctKeys(key, list) && x in list
    ensures key(x) in MapOf(key, list) && MapOf(key, list)[key(x)] == x
  {
    var front := list[..|list| - 1];
    if x in front {
      var i :| 0 <= i < |front| && front[i] == x;
      assert key(list[i]) != key(list[|list| - 1]);
      MapOfDistinct(key, front, x);
    }
  }

  lemma KeyOfSome<T>(key: T -> string, list: seq<T>, k: string)
    requires k in MapOf(key, list)
    ensures exists i | 0 <= i < |list| :: key(list[i]) == k
  {
    var i := MapOfAt(key, list, k);
  }

  lemma {:induction false} MapOfSize<T>(key: T -> string, list: seq<T>)
    requires DistinctKeys(key, list)
    ensures |MapOf(key, list)| == |list|
  {
    if list != [] {
      var front, last := list[..|list| - 1], list[|list| - 1];
      MapOfSize(key, front);
      if key(last) in MapOf(key, front) {
        KeyOfSome(key, front, key(last));
      }
    }
  }

  lemma MapOfAppend<T>(key: T -> string, list: seq<T>, x: T)
    ensures MapOf(key, list + [x]) == MapOf(key, list)[key(x) := x]
  {
    assert (list + [x])[..|list|] == list;
  }
}
