/** A router together with the supervisors it starts: what the router last gave to the watchdog of
    a key is what the door of that key ends up with. Forwarded tracks are kept by blocked doors
    (pkg/sxu/forward.go:61), proceeded ones by unblocked doors (pkg/sxu/proceed.go:39). */
module WatchedTracks {
  import opened Options
  import opened Mailbox
  import opened TrackRouters
  import B = BlockedDoor
  import U = UnblockedDoor
  import DisorderSets
  import Syncer

  datatype Kind = Blocking | Unblocking

  datatype Watch = Blocked(b: B.State) | Unblocked(u: U.State)

  /** `watches` are the routines of the watchdogs, by the number of the watchdog. */
  datatype State<T> = State(table: Table<T>, watches: seq<Watch>)

  datatype WatchAction = OfBlocked(b: B.Action) | OfUnblocked(u: U.Action)

  datatype Action<T> =
    | Router(op: Op<T>)
    | OfWatch(d: nat, a: WatchAction)

  ghost function Start(kind: Kind): Watch {
    match kind
    case Blocking => Blocked(B.INITIAL)
    case Unblocking => Unblocked(U.INITIAL)
  }

  ghost function BoxOf(w: Watch): Box {
    match w
    case Blocked(s) => s.box
    case Unblocked(s) => s.box
  }

  ghost function Posted(w: Watch): Watch
    requires BoxOf(w).poster.Ready?
  {
    match w
    case Blocked(s) => Blocked(B.After(s, B.Poster(Post)))
    case Unblocked(s) => Unblocked(U.After(s, U.Poster(Post)))
  }

  ghost predicate WatchEnabled(w: Watch, a: WatchAction) {
    match a
    case OfBlocked(b) => w.Blocked? && B.Enabled(w.b, b) && b != B.Poster(Post)
    case OfUnblocked(u) => w.Unblocked? && U.Enabled(w.u, u) && u != U.Poster(Post)
  }

  ghost function WatchAfter(w: Watch, a: WatchAction): Watch
    requires WatchEnabled(w, a)
  {
    match a
    case OfBlocked(b) => Blocked(B.After(w.b, b))
    case OfUnblocked(u) => Unblocked(U.After(w.u, u))
  }

  /** The router runs every Update to its end before it does anything else. */
  ghost predicate Enabled<T>(s: State<T>, a: Action<T>) {
    match a
    case Router(op) => forall d | 0 <= d < |s.watches| :: BoxOf(s.watches[d]).poster.Ready?
    case OfWatch(d, b) => d < |s.watches| && WatchEnabled(s.watches[d], b)
  }

  /** A watchdog that is given a parameter posts it, and a new one starts with it. */
  ghost function WatchesAfter<T>(kind: Kind, watches: seq<Watch>, dogs: seq<Dog<T>>, now: seq<Dog<T>>): seq<Watch>
    requires forall d | 0 <= d < |watches| :: BoxOf(watches[d]).poster.Ready?
  {
    seq(|now|, d requires 0 <= d < |now| =>
      if d >= |watches| || d >= |dogs| then Start(kind)
      else if now[d].given != dogs[d].given then Posted(watches[d])
      else watches[d])
  }

  ghost function After<T>(key: T -> string, kind: Kind, s: State<T>, a: Action<T>): State<T>
    requires Enabled(s, a)
  {
    match a
    case Router(op) =>
      var table := AfterOp(key, s.table, op);
      State(table, WatchesAfter(kind, s.watches, s.table.dogs, table.dogs))
    case OfWatch(d, b) => s.(watches := s.watches[d := WatchAfter(s.watches[d], b)])
  }

  ghost predicate Step<T>(key: T -> string, kind: Kind, s: State<T>, a: Action<T>, s': State<T>) {
    Enabled(s, a) && s' == After(key, kind, s, a)
  }

  ghost predicate Run<T>(key: T -> string, kind: Kind, states: seq<State<T>>, actions: seq<Action<T>>) {
    && |states| == |actions| + 1
    && states[0] == State(Table(map[], [], map[]), [])
    && forall i | 0 <= i < |actions| :: Step(key, kind, states[i], actions[i], states[i + 1])
  }

  /** Every routine keeps its own invariant, and has been posted what its watchdog was given. */
  ghost predicate WatchInv<T>(kind: Kind, w: Watch, dog: Dog<T>) {
    && BoxOf(w).posts == |dog.given|
    && match w
       case Blocked(s) => kind.Blocking? && B.Inv(s)
       case Unblocked(s) => kind.Unblocking? && U.Inv(s)
  }

  ghost predicate Inv<T>(key: T -> string, kind: Kind, s: State<T>) {
    && TableOk(key, s.table)
    && |s.watches| == |s.table.dogs|
    && forall d {:trigger WatchInv(kind, s.watches[d], s.table.dogs[d])} | 0 <= d < |s.watches| ::
         WatchInv(kind, s.watches[d], s.table.dogs[d])
  }

  lemma StartsGood<T>(kind: Kind, dog: Dog<T>)
    requires |dog.given| == 1
    ensures WatchInv(kind, Start(kind), dog)
  {
  }

  lemma PostKeeps<T>(kind: Kind, w: Watch, dog: Dog<T>, now: Dog<T>)
    requires WatchInv(kind, w, dog) && BoxOf(w).poster.Ready? && |now.given| == |dog.given| + 1
    ensures WatchInv(kind, Posted(w), now)
  {
    match w
    case Blocked(s) => B.InvKept(s, B.Poster(Post));
    case Unblocked(s) => U.InvKept(s, U.Poster(Post));
  }

  lemma WatchKeeps<T>(kind: Kind, w: Watch, dog: Dog<T>, a: WatchAction)
    requires WatchInv(kind, w, dog) && WatchEnabled(w, a)
    ensures WatchInv(kind, WatchAfter(w, a), dog)
  {
    match a
    case OfBlocked(b) => B.InvKept(w.b, b);
    case OfUnblocked(u) => U.InvKept(w.u, u);
  }

  /** A call of the router gives at most one parameter to each watchdog. */
  lemma OneMoreGiven<T>(key: T -> string, t: Table<T>, op: Op<T>, d: nat)
    requires d < |AfterOp(key, t, op).dogs|
    ensures |t.dogs| <= |AfterOp(key, t, op).dogs|
    ensures var now := AfterOp(key, t, op).dogs[d];
      if d >= |t.dogs| then |now.given| == 1
      else now.given == t.dogs[d].given || |now.given| == |t.dogs[d].given| + 1
  {
  }

  lemma InvKept<T>(key: T -> string, kind: Kind, s: State<T>, a: Action<T>)
    requires Inv(key, kind, s) && Enabled(s, a)
    ensures Inv(key, kind, After(key, kind, s, a))
  {
    var s' := After(key, kind, s, a);
    match a
    case Router(op) =>
      OpKept(key, s.table, op);
      forall d | 0 <= d < |s'.watches| ensures WatchInv(kind, s'.watches[d], s'.table.dogs[d]) {
        OneMoreGiven(key, s.table, op, d);
        if d >= |s.watches| {
          StartsGood(kind, s'.table.dogs[d]);
        } else {
          assert WatchInv(kind, s.watches[d], s.table.dogs[d]);
          if s'.table.dogs[d].given != s.table.dogs[d].given {
            PostKeeps(kind, s.watches[d], s.table.dogs[d], s'.table.dogs[d]);
          }
        }
      }
    case OfWatch(e, b) =>
      forall d | 0 <= d < |s'.watches| ensures WatchInv(kind, s'.watches[d], s'.table.dogs[d]) {
        assert WatchInv(kind, s.watches[d], s.table.dogs[d]);
        if d == e {
          WatchKeeps(kind, s.watches[d], s.table.dogs[d], b);
        }
      }
  }

  lemma {:induction false} InvAlways<T>(key: T -> string, kind: Kind, states: seq<State<T>>, actions: seq<Action<T>>, i: nat)
    requires Run(key, kind, states, actions) && i < |states|
    ensures Inv(key, kind, states[i])
  {
    if i > 0 {
      InvAlways(key, kind, states, actions, i - 1);
      assert Step(key, kind, states[i - 1], actions[i - 1], states[i]);
      InvKept(key, kind, states[i - 1], actions[i - 1]);
    }
  }

  /** The routine waits and nothing is on its way to it. */
  ghost predicate AtRest(w: Watch) {
    && BoxOf(w).poster.Ready? && BoxOf(w).ch.None?
    && match w
       case Blocked(s) => s.pc.Waiting? && s.retry.None?
       case Unblocked(s) => s.pc.Waiting?
  }

  /** The position, among the parameters given to the watchdog, of the one that its door has. */
  ghost function DoorHas(w: Watch): Option<nat> {
    match w
    case Blocked(s) => if s.door.Some? then Some(s.door.value.has) else None
    case Unblocked(s) => s.locked
  }

  /** End to end, in any run of a router and its watchdogs: when the routine of a key is at rest
      its door has the track that the router last gave for that key. With blocked doors this is
      so exactly unless a late BLock has undone the update; then the door has an older one. */
  lemma DoorsHaveLastGiven<T>(key: T -> string, kind: Kind, states: seq<State<T>>, actions: seq<Action<T>>,
                              i: nat, k: string)
    requires Run(key, kind, states, actions) && i < |states| && k in states[i].table.params
    ensures var s := states[i];
      && k in s.table.routes && s.table.routes[k].dog < |s.table.dogs| == |s.watches|
      && var d := s.table.routes[k].dog;
         var w, given := s.watches[d], s.table.dogs[d].given;
         AtRest(w) ==>
           && DoorHas(w).Some? && DoorHas(w).value < |given|
           && (w.Unblocked? || !B.Lost(w.b) ==> given[DoorHas(w).value] == s.table.params[k])
           && (w.Blocked? && B.Lost(w.b) ==> DoorHas(w).value < |given| - 1)
  {
    InvAlways(key, kind, states, actions, i);
    var t := states[i].table;
    assert LastIs(t.dogs, t.routes[k], t.params[k]);
    var d := t.routes[k].dog;
    assert WatchInv(kind, states[i].watches[d], t.dogs[d]);
  }

  /** So with the syncer, whose router refines its set: a door at rest has the track of the set. */
  lemma DoorsHaveTracksOfSet<T(!new)>(tracks: DisorderSets.DisorderSet<T>, router: TrackRouter<T>, kind: Kind,
                                      states: seq<State<T>>, actions: seq<Action<T>>, i: nat, k: string)
    requires Syncer.Refines(tracks, router)
    requires Run(router.key, kind, states, actions) && i < |states| && states[i].table == router.Abs()
    requires k in tracks.Contents()
    ensures
      && k in router.routes && router.routes[k].dog < |router.dogs| == |states[i].watches|
      && var d := router.routes[k].dog;
         var w, given := states[i].watches[d], router.dogs[d].given;
         AtRest(w) ==>
           && DoorHas(w).Some? && DoorHas(w).value < |given|
           && (w.Unblocked? || !B.Lost(w.b) ==> given[DoorHas(w).value] == tracks.Contents()[k])
  {
    DoorsHaveLastGiven(router.key, kind, states, actions, i, k);
  }
}
