/** pkg/sxu/forward.go and pkg/sxu/proceed.go: routers that hold one watchdog per track key.
    The two have the same code over different track types, so one class models both. */
module TrackRouters {
  import opened Proto
  import opened DisorderSets
  import opened KeyedLists

  /** All parameters given to a watchdog, by Watch first and then by Update, and how often it
      was told to leave. */
  datatype Dog<T> = Dog(given: seq<T>, leaves: nat)

  /** An entry of the map: the watchdog and the copy of the track it was started with. Later
      writes to that copy in the code go to a copy of the entry and are lost. */
  datatype Route<T> = Route(dog: nat, track: T)

  /** The key a watchdog was created for. */
  ghost function DogKey<T>(key: T -> string, dog: Dog<T>): string
    requires dog.given != []
  {
    key(dog.given[0])
  }

  ghost predicate RouteOk<T>(key: T -> string, dogs: seq<Dog<T>>, k: string, r: Route<T>) {
    && r.dog < |dogs|
    && dogs[r.dog].given != [] && DogKey(key, dogs[r.dog]) == k
    && dogs[r.dog].leaves == 0
    && key(r.track) == k
  }

  /** A watchdog is in the map under its key and was never told to leave, or it is not in the
      map and was told once. */
  ghost predicate DogOk<T>(key: T -> string, routes: map<string, Route<T>>, dogs: seq<Dog<T>>, d: nat)
    requires d < |dogs|
  {
    && dogs[d].given != []
    && if DogKey(key, dogs[d]) in routes && routes[DogKey(key, dogs[d])].dog == d then dogs[d].leaves == 0
       else dogs[d].leaves == 1
  }

  ghost predicate Good<T>(key: T -> string, routes: map<string, Route<T>>, dogs: seq<Dog<T>>) {
    && (forall k {:trigger RouteOk(key, dogs, k, routes[k])} | k in routes :: RouteOk(key, dogs, k, routes[k]))
    && (forall d {:trigger DogOk(key, routes, dogs, d)} | 0 <= d < |dogs| :: DogOk(key, routes, dogs, d))
  }

  ghost function Last<T>(dog: Dog<T>): T
    requires dog.given != []
  {
    dog.given[|dog.given| - 1]
  }

  ghost predicate LastIs<T>(dogs: seq<Dog<T>>, r: Route<T>, param: T) {
    r.dog < |dogs| && dogs[r.dog].given != [] && Last(dogs[r.dog]) == param
  }

  /** `params` are the last parameters given to the watchdogs of the keys. */
  ghost predicate LastGiven<T>(routes: map<string, Route<T>>, dogs: seq<Dog<T>>, params: map<string, T>) {
    && params.Keys == routes.Keys
    && forall k {:trigger LastIs(dogs, routes[k], params[k])} | k in params :: LastIs(dogs, routes[k], params[k])
  }

  /** Watchdogs are only added; each key that stays keeps its watchdog; parameters given are only
      added to. */
  ghost predicate Continues<T>(routes0: map<string, Route<T>>, dogs0: seq<Dog<T>>,
                               routes: map<string, Route<T>>, dogs: seq<Dog<T>>)
  {
    && |dogs0| <= |dogs|
    && (forall d | 0 <= d < |dogs0| :: dogs0[d].given <= dogs[d].given)
    && forall k | k in routes0 && k in routes :: routes[k].dog == routes0[k].dog
  }

  /** No watchdog that was there has been given or told anything, but perhaps the one of a key. */
  ghost predicate OthersLeftAlone<T>(routes0: map<string, Route<T>>, dogs0: seq<Dog<T>>, dogs: seq<Dog<T>>, k: string) {
    && |dogs0| <= |dogs|
    && forall d | 0 <= d < |dogs0| :: (k in routes0 && routes0[k].dog == d) || dogs[d] == dogs0[d]
  }

  /** All parameters given so far to the watchdog of a key. */
  ghost function GivenTo<T>(routes: map<string, Route<T>>, dogs: seq<Dog<T>>, k: string): seq<T> {
    if k in routes && routes[k].dog < |dogs| then dogs[routes[k].dog].given else []
  }

  lemma NewDog<T>(key: T -> string, routes: map<string, Route<T>>, dogs: seq<Dog<T>>, params: map<string, T>, track: T)
    requires Good(key, routes, dogs) && LastGiven(routes, dogs, params) && key(track) !in routes
    ensures var r, ds := routes[key(track) := Route(|dogs|, track)], dogs + [Dog([track], 0)];
      && Good(key, r, ds) && Continues(routes, dogs, r, ds)
      && LastGiven(r, ds, params[key(track) := track])
  {
    var r, ds := routes[key(track) := Route(|dogs|, track)], dogs + [Dog([track], 0)];
    forall k | k in r ensures RouteOk(key, ds, k, r[k]) {
      assert k != key(track) ==> RouteOk(key, dogs, k, routes[k]);
    }
    forall d | 0 <= d < |ds| ensures DogOk(key, r, ds, d) {
      assert d < |dogs| ==> DogOk(key, routes, dogs, d);
    }
    forall k | k in routes ensures LastIs(ds, r[k], params[k]) {
      assert LastIs(dogs, routes[k], params[k]);
    }
  }

  /** The watchdogs after one of them was told to leave. */
  function Told<T>(dogs: seq<Dog<T>>, d: nat): (r: seq<Dog<T>>)
    requires d < |dogs|
    ensures |r| == |dogs|
  {
    dogs[d := dogs[d].(leaves := dogs[d].leaves + 1)]
  }

  lemma DogLeaves<T>(key: T -> string, routes: map<string, Route<T>>, dogs: seq<Dog<T>>, params: map<string, T>, k: string)
    requires Good(key, routes, dogs) && LastGiven(routes, dogs, params) && k in routes && routes[k].dog < |dogs|
    ensures var ds := Told(dogs, routes[k].dog);
      && Good(key, routes - {k}, ds) && Continues(routes, dogs, routes - {k}, ds)
      && LastGiven(routes - {k}, ds, params - {k})
  {
    var r, ds := routes - {k}, Told(dogs, routes[k].dog);
    assert RouteOk(key, dogs, k, routes[k]);
    forall l | l in r ensures RouteOk(key, ds, l, r[l]) {
      assert RouteOk(key, dogs, l, routes[l]);
    }
    forall e | 0 <= e < |ds| ensures DogOk(key, r, ds, e) {
      assert DogOk(key, routes, dogs, e);
    }
    forall l | l in r ensures LastIs(ds, r[l], params[l]) {
      assert LastIs(dogs, routes[l], params[l]);
    }
  }

  lemma DogGiven<T>(key: T -> string, routes: map<string, Route<T>>, dogs: seq<Dog<T>>, params: map<string, T>,
                    k: string, track: T)
    requires Good(key, routes, dogs) && LastGiven(routes, dogs, params)
    requires k in routes && RouteOk(key, dogs, k, routes[k])
    ensures var d := routes[k].dog; var ds := dogs[d := dogs[d].(given := dogs[d].given + [track])];
      && Good(key, routes, ds) && Continues(routes, dogs, routes, ds)
      && LastGiven(routes, ds, params[k := track])
  {
    var d := routes[k].dog;
    var ds := dogs[d := dogs[d].(given := dogs[d].given + [track])];
    forall l | l in routes ensures RouteOk(key, ds, l, routes[l]) && (l != k ==> routes[l].dog != d) {
      assert RouteOk(key, dogs, l, routes[l]);
    }
    forall e | 0 <= e < |ds| ensures DogOk(key, routes, ds, e) {
      assert DogOk(key, routes, dogs, e);
    }
    forall l | l in routes ensures LastIs(ds, routes[l], params[k := track][l]) {
      assert LastIs(dogs, routes[l], params[l]);
    }
  }

  // ----- What each call of a router does -----

  datatype Op<T> = StartOp(track: T) | StopOp(track: T) | ReplaceOp(oldTrack: T, newTrack: T)

  datatype Table<T> = Table(routes: map<string, Route<T>>, dogs: seq<Dog<T>>, params: map<string, T>)

  ghost predicate TableOk<T>(key: T -> string, t: Table<T>) {
    Good(key, t.routes, t.dogs) && LastGiven(t.routes, t.dogs, t.params)
  }

  /** The watchdog of a key is given one more parameter. */
  ghost function WithGiven<T>(t: Table<T>, k: string, track: T): Table<T> {
    if k !in t.routes || t.routes[k].dog >= |t.dogs| then t
    else
      var d := t.routes[k].dog;
      t.(dogs := t.dogs[d := t.dogs[d].(given := t.dogs[d].given + [track])], params := t.params[k := track])
  }

  ghost function AfterOp<T>(key: T -> string, t: Table<T>, op: Op<T>): Table<T> {
    match op
    case StartOp(x) =>
      if key(x) in t.routes then WithGiven(t, key(x), x)
      else Table(t.routes[key(x) := Route(|t.dogs|, x)], t.dogs + [Dog([x], 0)], t.params[key(x) := x])
    case StopOp(x) =>
      if key(x) !in t.routes || t.routes[key(x)].dog >= |t.dogs| then t
      else Table(t.routes - {key(x)}, Told(t.dogs, t.routes[key(x)].dog), t.params - {key(x)})
    case ReplaceOp(x, y) => if key(x) != key(y) then t else WithGiven(t, key(y), y)
  }

  lemma OpKept<T>(key: T -> string, t: Table<T>, op: Op<T>)
    requires TableOk(key, t)
    ensures TableOk(key, AfterOp(key, t, op))
  {
    var k := key(if op.ReplaceOp? then op.newTrack else op.track);
    if k in t.routes {
      assert RouteOk(key, t.dogs, k, t.routes[k]);
      if op.StopOp? {
        DogLeaves(key, t.routes, t.dogs, t.params, k);
      } else {
        DogGiven(key, t.routes, t.dogs, t.params, k, if op.ReplaceOp? then op.newTrack else op.track);
      }
    } else if op.StartOp? {
      NewDog(key, t.routes, t.dogs, t.params, op.track);
    }
  }

  class TrackRouter<T(==, !new)> {
    const key: T -> string
    var routes: map<string, Route<T>>
    /** All watchdogs ever created, in order. */
    var dogs: seq<Dog<T>>
    /** The last parameter given to the watchdog of each key. */
    ghost var params: map<string, T>

    ghost predicate Valid()
      reads this
    {
      Good(key, routes, dogs) && LastGiven(routes, dogs, params)
    }

    ghost function Abs(): Table<T>
      reads this
    {
      Table(routes, dogs, params)
    }

    constructor (key: T -> string)
      ensures Valid() && this.key == key && params == map[] && dogs == []
    {
      this.key := key;
      routes, dogs, params := map[], [], map[];
    }

    method Start(track: T)
      requires Valid()
      modifies this
      ensures Valid() && Continues(old(routes), old(dogs), routes, dogs)
      ensures Abs() == AfterOp(key, old(Abs()), StartOp(track))
      ensures params == old(params)[key(track) := track]
      ensures GivenTo(routes, dogs, key(track)) == GivenTo(old(routes), old(dogs), key(track)) + [track]
      ensures OthersLeftAlone(old(routes), old(dogs), dogs, key(track))
    {
      if key(track) in routes {
        assert RouteOk(key, dogs, key(track), routes[key(track)]);
        Replace(routes[key(track)].track, track);
        return;
      }
      NewDog(key, routes, dogs, params, track);
      dogs, routes := dogs + [Dog([track], 0)], routes[key(track) := Route(|dogs|, track)];
      params := params[key(track) := track];
    }

    method Stop(track: T)
      requires Valid()
      modifies this
      ensures Valid() && Continues(old(routes), old(dogs), routes, dogs)
      ensures Abs() == AfterOp(key, old(Abs()), StopOp(track))
      ensures params == old(params) - {key(track)}
      ensures OthersLeftAlone(old(routes), old(dogs), dogs, key(track))
    {
      if key(track) in routes {
        assert RouteOk(key, dogs, key(track), routes[key(track)]);
        DogLeaves(key, routes, dogs, params, key(track));
        dogs := Told(dogs, routes[key(track)].dog);
        routes, params := routes - {key(track)}, params - {key(track)};
      } else {
        assert params - {key(track)} == params;
      }
    }

    method Replace(oldTrack: T, newTrack: T)
      requires Valid()
      modifies this
      ensures Valid() && Continues(old(routes), old(dogs), routes, dogs)
      ensures Abs() == AfterOp(key, old(Abs()), ReplaceOp(oldTrack, newTrack))
      ensures routes == old(routes)
      ensures params == ReplacedOne(key, old(params), (oldTrack, newTrack))
      ensures GivenTo(routes, dogs, key(newTrack)) == GivenTo(old(routes), old(dogs), key(newTrack)) +
        if key(oldTrack) == key(newTrack) && key(newTrack) in old(routes) then [newTrack] else []
      ensures OthersLeftAlone(old(routes), old(dogs), dogs, key(newTrack))
    {
      if key(oldTrack) != key(newTrack) {
        return;
      }
      if key(oldTrack) !in routes {
        return;
      }
      var d := routes[key(oldTrack)].dog;
      assert RouteOk(key, dogs, key(oldTrack), routes[key(oldTrack)]);
      DogGiven(key, routes, dogs, params, key(oldTrack), newTrack);
      dogs := dogs[d := dogs[d].(given := dogs[d].given + [newTrack])];
      params := params[key(oldTrack) := newTrack];
    }

    /** The three loops of syncStatus over one diff: stop, replace, start. */
    method Replay(add: seq<T>, del: seq<T>, replace: seq<(T, T)>)
      requires Valid()
      modifies this
      ensures Valid() && params == Replayed(key, old(params), add, del, replace)
    {
      ghost var was := params;
      for i := 0 to |del|
        invariant Valid() && params == Stopped(key, was, del[..i])
      {
        assert del[..i + 1][..i] == del[..i];
        Stop(del[i]);
      }
      assert del[..|del|] == del;
      ghost var stopped := params;
      for i := 0 to |replace|
        invariant Valid() && params == Replaced(key, stopped, replace[..i])
      {
        assert replace[..i + 1][..i] == replace[..i];
        Replace(replace[i].0, replace[i].1);
      }
      assert replace[..|replace|] == replace;
      ghost var replaced := params;
      for i := 0 to |add|
        invariant Valid() && params == Started(key, replaced, add[..i])
      {
        assert add[..i + 1][..i] == add[..i];
        Start(add[i]);
      }
      assert add[..|add|] == add;
    }
  }

  /** util/pbimpl.go, ProceedTrackItem.Compare: a list always matches the set built from it, so
      the comparison of the source sessions adds nothing to the comparison of the messages. */
  method CompareProceedTracks(i: ProceedTrack, data: ProceedTrack) returns (same: bool)
    ensures same <==> i == data
  {
    var id := (s: string) => s;
    var srcTrackSet1 := new DisorderSet<string>.FromList(id, data.srcSessionIdList);
    var sameSources := srcTrackSet1.IsSame(i.srcSessionIdList);
    if i == data {
      ListMatchesOwnSet(id, data.srcSessionIdList);
    }
    if !sameSources {
      return false;
    }
    return i == data;
  }

  lemma ListMatchesOwnSet(id: string -> string, list: seq<string>)
    requires forall s :: id(s) == s
    ensures SameAs(id, MapOf(id, list), list)
  {
    forall x | x in list ensures id(x) in MapOf(id, list) && MapOf(id, list)[id(x)] == x {
      MapOfHas(id, list, x);
      MapOfFiled(id, list);
    }
  }
}
