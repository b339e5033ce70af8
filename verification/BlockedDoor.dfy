/** util/blockeddoor.go, routine: the loop that keeps a door running whose BLock blocks, and
    brings every posted parameter to it. BLock is called by a goroutine of its own, which may
    start late: the routine may have called Update before, or even have returned. The methods of
    a door run at the same time as each other: BLock and Update are called, take their parameter
    and return in steps of their own, so BLock may come in the middle of an Update. An Update that
    returns without an error has taken its parameter, as lines 23 and 24 ask of doors. */
module BlockedDoor {
  import opened Mailbox
  import opened Options

  /** The call of BLock: its goroutine has not come to it yet; it is called; it has taken its
      parameter; Remove can stop it from now on; it has returned. */
  datatype Stage = Pending | Called | Started | Running | Returned

  /** The door in use: its number, the parameter its BLock is called with, and the parameter it
      has: that one, or what it took last by an update or by BLock. */
  datatype Door = Door(id: nat, init: nat, has: nat, stage: Stage)

  /** A parameter handed to a door, by a call of BLock or by a call of Update. */
  datatype Handed = Handed(door: nat, value: nat, byUpdate: bool)

  /** At the head of the outer loop; in the select; has taken from retryCh and looks at updateCh
      first; inside door.Update, before or after the door has taken the parameter; returned. */
  datatype Pc = Top | Waiting | Checking | Updating | Updated | Exited

  /** `live` are the doors whose BLock is called and has not returned; `handed` are all parameters handed to doors, in the
      order of the calls, refused ones included. After the routine has returned `door` is the
      door it has left. */
  datatype State = State(
    box: Box,
    param: nat,
    retry: Option<nat>,
    pc: Pc,
    door: Option<Door>,
    bought: nat,
    live: set<nat>,
    handed: seq<Handed>,
    cancelled: bool)

  datatype Action =
    | Poster(a: BoxAction)
    | Cancel
    | BLockStarts
    | BLockTakes
    | BLockArmed
    | BLockReturns
    | NewDoorFails
    | NewDoor
    | SeeError
    | SeeCancelled
    | TakeUpdate
    | TakeRetry
    | NothingNewer
    | UpdateTakes
    | UpdateReturns(ok: bool)

  const INITIAL := State(EMPTY, 0, None, Top, None, 0, {}, [], false)

  ghost predicate At(s: State, stage: Stage) {
    s.door.Some? && s.door.value.stage == stage
  }

  /** BLock is called and has not returned. */
  ghost predicate Blocks(s: State) {
    At(s, Called) || At(s, Started) || At(s, Running)
  }

  /** BLock has its parameter. */
  ghost predicate HasStarted(s: State) {
    s.door.Some? && !s.door.value.stage.Pending? && !s.door.value.stage.Called?
  }

  ghost predicate Enabled(s: State, a: Action) {
    match a
    case Poster(b) => BoxEnabled(s.box, b)
    case Cancel => true
    case BLockStarts => At(s, Pending)
    case BLockTakes => At(s, Called)
    case BLockArmed => At(s, Started)
    case BLockReturns => Blocks(s)
    case NewDoorFails => s.pc.Top? && !s.cancelled
    case NewDoor => s.pc.Top?
    case SeeError => s.pc.Waiting? && At(s, Returned)
    case SeeCancelled => (s.pc.Top? || (s.pc.Waiting? && s.door.Some?)) && s.cancelled
    case TakeUpdate => (s.pc.Waiting? || s.pc.Checking?) && s.box.ch.Some?
    case TakeRetry => s.pc.Waiting? && s.retry.Some?
    case NothingNewer => s.pc.Checking? && s.door.Some? && s.box.ch.None?
    case UpdateTakes => s.pc.Updating? && s.door.Some?
    case UpdateReturns(ok) => (s.pc.Updating? && !ok) || s.pc.Updated?
  }

  /** The call of BLock is over: by an error, or because Remove stopped it. */
  ghost function Over(s: State): State
    requires s.door.Some?
  {
    s.(door := Some(s.door.value.(stage := Returned)), live := s.live - {s.door.value.id})
  }

  ghost function After(s: State, a: Action): State
    requires Enabled(s, a)
  {
    match a
    case Poster(b) => s.(box := BoxAfter(s.box, b))
    case Cancel => s.(cancelled := true)
    case BLockStarts =>
      var d := s.door.value;
      s.(door := Some(d.(stage := Called)), live := s.live + {d.id},
         handed := s.handed + [Handed(d.id, d.init, false)])
    case BLockTakes => s.(door := Some(s.door.value.(has := s.door.value.init, stage := Started)))
    case BLockArmed => s.(door := Some(s.door.value.(stage := Running)))
    case BLockReturns => Over(s)
    case NewDoorFails => s
    case NewDoor =>
      s.(door := Some(Door(s.bought, s.param, s.param, Pending)), bought := s.bought + 1, retry := None, pc := Waiting)
    case SeeError => s.(door := None, pc := Top)
    case SeeCancelled =>
      // before BLock has come so far, Remove has nothing to stop
      if At(s, Running) then Over(s).(pc := Exited) else s.(pc := Exited)
    case TakeUpdate =>
      s.(box := Taken(s.box), param := s.box.ch.value, retry := Some(s.box.ch.value), pc := Waiting)
    case TakeRetry => s.(param := s.retry.value, retry := None, pc := Checking)
    case NothingNewer =>
      s.(handed := s.handed + [Handed(s.door.value.id, s.param, true)], pc := Updating)
    case UpdateTakes => s.(door := Some(s.door.value.(has := s.param)), pc := Updated)
    case UpdateReturns(ok) => if ok then s.(pc := Waiting) else s.(retry := Some(s.param), pc := Waiting)
  }

  ghost predicate Step(s: State, a: Action, s': State) {
    Enabled(s, a) && s' == After(s, a)
  }

  /** An update of a door, and then the BLock of the same door. */
  ghost predicate StartedLate(p: Handed, q: Handed) {
    p.door == q.door && p.byUpdate && !q.byUpdate
  }

  /** What is handed over goes back to an older value at a late start, always and only then. */
  ghost predicate BackAtLateStarts(handed: seq<Handed>) {
    forall i, j | 0 <= i < j < |handed| :: handed[i].value > handed[j].value <==> StartedLate(handed[i], handed[j])
  }

  ghost predicate DoorsInOrder(handed: seq<Handed>) {
    forall i, j | 0 <= i < j < |handed| :: handed[i].door <= handed[j].door
  }

  /** What has been handed over so far, next to the door in use. */
  ghost predicate HandedToDoor(h: Handed, d: Door) {
    && h.door <= d.id
    && (h.door < d.id ==> h.value <= d.init)
    && (h.door == d.id ==> if h.byUpdate then h.value > d.init else h.value == d.init && !d.stage.Pending?)
  }

  /** The routine rests on the door having `param`: it is not about to hand it over, nor to retry. */
  ghost predicate Relies(s: State) {
    s.pc.Updated? || (s.pc.Waiting? && s.retry.None?)
  }

  /** Whenever the routine relies on it the door has `param`, or had it before its BLock took an
      older one. What is handed over by an update is newer than what BLock is called with. */
  ghost predicate DoorInv(s: State, d: Door) {
    && d.id == s.bought - 1
    && d.init <= d.has <= s.param
    && (Relies(s) ==> d.has == s.param || (d.has == d.init && HasStarted(s)))
    && (s.retry.Some? || s.pc.Checking? || s.pc.Updating? || s.pc.Updated? ==> d.init < s.param)
    && (s.pc.Checking? || s.pc.Updating? || s.pc.Updated? ==> s.retry.None?)
  }

  ghost predicate HandedInv(s: State) {
    && (forall h | h in s.handed :: h.door < s.bought && h.value <= s.param)
    && (s.door.Some? ==> forall h | h in s.handed :: HandedToDoor(h, s.door.value))
    && DoorsInOrder(s.handed) && BackAtLateStarts(s.handed)
  }

  ghost predicate LoopInv(s: State) {
    && BoxInv(s.box, s.param)
    && (s.retry.Some? ==> s.retry.value == s.param)
    && (s.pc.Top? ==> s.door.None?)
    && (s.pc.Waiting? || s.pc.Checking? || s.pc.Updating? || s.pc.Updated? ==> s.door.Some?)
    && s.live == (if Blocks(s) then {s.door.value.id} else {})
    && (s.door.Some? ==> DoorInv(s, s.door.value))
  }

  ghost predicate Inv(s: State) {
    LoopInv(s) && HandedInv(s)
  }

  lemma LoopKeptByBLock(s: State, a: Action)
    requires LoopInv(s) && Enabled(s, a)
    requires a.BLockStarts? || a.BLockTakes? || a.BLockArmed? || a.BLockReturns?
    ensures LoopInv(After(s, a)) && s.param == After(s, a).param
  {
  }

  lemma LoopKept(s: State, a: Action)
    requires LoopInv(s) && Enabled(s, a)
    ensures LoopInv(After(s, a)) && s.param <= After(s, a).param
  {
    match a
    case Poster(b) => BoxKept(s.box, s.param, b);
    case TakeUpdate => TakeKeeps(s.box, s.param);
    case BLockStarts | BLockTakes | BLockArmed | BLockReturns => LoopKeptByBLock(s, a);
    case _ =>
  }

  /** One more value is handed over. */
  lemma HandsOver(handed: seq<Handed>, h: Handed)
    requires DoorsInOrder(handed) && BackAtLateStarts(handed)
    requires forall p | p in handed :: p.door <= h.door && (p.value > h.value <==> StartedLate(p, h))
    ensures DoorsInOrder(handed + [h]) && BackAtLateStarts(handed + [h])
    ensures forall p :: p in handed + [h] <==> p in handed || p == h
  {
    var now := handed + [h];
    forall i, j | 0 <= i < j < |now|
      ensures now[i].door <= now[j].door && (now[i].value > now[j].value <==> StartedLate(now[i], now[j]))
    {
      assert now[i] == handed[i] && now[i] in handed;
      assert j < |handed| ==> now[j] == handed[j];
    }
  }

  lemma HandedKeptByBLock(s: State)
    requires Inv(s) && Enabled(s, BLockStarts)
    ensures HandedInv(After(s, BLockStarts))
  {
    HandsOver(s.handed, Handed(s.door.value.id, s.door.value.init, false));
  }

  lemma HandedKeptByUpdate(s: State)
    requires Inv(s) && Enabled(s, NothingNewer)
    ensures HandedInv(After(s, NothingNewer))
  {
    HandsOver(s.handed, Handed(s.door.value.id, s.param, true));
  }

  lemma HandedKept(s: State, a: Action)
    requires Inv(s) && Enabled(s, a)
    ensures HandedInv(After(s, a))
  {
    if a.BLockStarts? {
      HandedKeptByBLock(s);
    } else if a.NothingNewer? {
      HandedKeptByUpdate(s);
    } else {
      assert After(s, a).handed == s.handed && s.param <= After(s, a).param by {
        LoopKept(s, a);
      }
    }
  }

  lemma InvKept(s: State, a: Action)
    requires Inv(s) && Enabled(s, a)
    ensures Inv(After(s, a))
  {
    LoopKept(s, a);
    HandedKept(s, a);
  }

  ghost predicate RunFrom(s: State, states: seq<State>, actions: seq<Action>) {
    && |states| == |actions| + 1
    && states[0] == s
    && forall i | 0 <= i < |actions| :: Step(states[i], actions[i], states[i + 1])
  }

  ghost predicate Run(states: seq<State>, actions: seq<Action>) {
    RunFrom(INITIAL, states, actions)
  }

  lemma {:induction false} InvAlways(states: seq<State>, actions: seq<Action>, i: nat)
    requires Run(states, actions) && i < |states|
    ensures Inv(states[i])
  {
    if i > 0 {
      InvAlways(states, actions, i - 1);
      assert Step(states[i - 1], actions[i - 1], states[i]);
      InvKept(states[i - 1], actions[i - 1]);
    }
  }

  // ----- Never back to an older parameter -----

  /** Across doors, and from BLock to the updates of one door and among these, a parameter handed
      over is never older than one before; an update and then the BLock of the same door always
      goes back. Doors are used one after the other, and nothing newer than `param` is handed. */
  lemma HandedBackOnlyLate(states: seq<State>, actions: seq<Action>, i: nat)
    requires Run(states, actions) && i < |states|
    ensures BackAtLateStarts(states[i].handed) && DoorsInOrder(states[i].handed)
    ensures forall h | h in states[i].handed :: h.value <= states[i].param < states[i].box.posts
  {
    InvAlways(states, actions, i);
  }

  ghost predicate NeverBack(handed: seq<Handed>) {
    forall i, j | 0 <= i < j < |handed| :: handed[i].value <= handed[j].value
  }

  /** BLock is called on a door that has been handed something before: an update. */
  ghost predicate LateStart(s: State, a: Action) {
    a.BLockStarts? && exists h | h in s.handed :: s.door.Some? && h.door == s.door.value.id
  }

  lemma NeverBackGrows(handed: seq<Handed>, h: Handed)
    ensures NeverBack(handed + [h]) <==> NeverBack(handed) && forall p | p in handed :: p.value <= h.value
  {
    var now := handed + [h];
    assert forall i | 0 <= i < |handed| :: now[i] == handed[i];
    if NeverBack(now) {
      forall p | p in handed ensures p.value <= h.value {
        var i :| 0 <= i < |handed| && handed[i] == p;
        assert now[i].value <= now[|handed|].value;
      }
    }
  }

  lemma BackStep(s: State, a: Action)
    requires Inv(s) && Enabled(s, a)
    ensures NeverBack(After(s, a).handed) <==> NeverBack(s.handed) && !LateStart(s, a)
  {
    if a.BLockStarts? {
      var d := s.door.value;
      NeverBackGrows(s.handed, Handed(d.id, d.init, false));
      assert forall h | h in s.handed :: HandedToDoor(h, d);
    } else if a.NothingNewer? {
      NeverBackGrows(s.handed, Handed(s.door.value.id, s.param, true));
    }
  }

  /** Over a whole run, the values handed to doors never go back to an older post exactly when
      no BLock was called on a door that had been asked to update before. */
  lemma {:induction false} NeverHandsOlderIff(states: seq<State>, actions: seq<Action>, i: nat)
    requires Run(states, actions) && i < |states|
    ensures NeverBack(states[i].handed) <==> forall k | 0 <= k < i :: !LateStart(states[k], actions[k])
  {
    if i > 0 {
      NeverHandsOlderIff(states, actions, i - 1);
      InvAlways(states, actions, i - 1);
      assert Step(states[i - 1], actions[i - 1], states[i]);
      BackStep(states[i - 1], actions[i - 1]);
    }
  }

  // ----- No lost update -----

  /** The routine waits, and neither has the door `param` nor does `param` wait to be retried. */
  ghost predicate Lost(s: State) {
    s.pc.Waiting? && s.door.Some? && s.door.value.has != s.param && s.retry != Some(s.param)
  }

  /** The same, or the Update that handed over `param` has still to return. */
  ghost predicate Losing(s: State) {
    Relies(s) && s.door.Some? && s.door.value.has != s.param
  }

  /** BLock takes an older parameter on a door that has taken the newest one already. */
  ghost predicate LosesNewest(s: State, a: Action) {
    a.BLockTakes? && Relies(s) && s.door.Some? && s.door.value.init < s.door.value.has == s.param
  }

  /** The routine gets a newer parameter, is refused the one at hand, or leaves the door. */
  ghost predicate MovesOn(a: Action) {
    a.TakeUpdate? || a == UpdateReturns(false) || a.SeeError? || a.SeeCancelled?
  }

  lemma LosingStep(s: State, a: Action)
    requires Inv(s) && Enabled(s, a)
    ensures Losing(After(s, a)) <==> LosesNewest(s, a) || (Losing(s) && !MovesOn(a))
  {
  }

  ghost predicate LostAt(states: seq<State>, actions: seq<Action>, k: nat, i: nat)
    requires |states| == |actions| + 1 && k < i < |states|
  {
    LosesNewest(states[k], actions[k]) && forall j | k < j < i :: !MovesOn(actions[j])
  }

  lemma {:induction false} LosingIff(states: seq<State>, actions: seq<Action>, i: nat)
    requires Run(states, actions) && i < |states|
    ensures Losing(states[i]) <==> exists k | 0 <= k < i :: LostAt(states, actions, k, i)
  {
    if i > 0 {
      LosingIff(states, actions, i - 1);
      InvAlways(states, actions, i - 1);
      assert Step(states[i - 1], actions[i - 1], states[i]);
      LosingStep(states[i - 1], actions[i - 1]);
      if Losing(states[i]) {
        if LosesNewest(states[i - 1], actions[i - 1]) {
          assert LostAt(states, actions, i - 1, i);
        } else {
          var k :| 0 <= k < i - 1 && LostAt(states, actions, k, i - 1);
          assert LostAt(states, actions, k, i);
        }
      }
      if k :| 0 <= k < i && LostAt(states, actions, k, i) {
        assert k < i - 1 ==> LostAt(states, actions, k, i - 1);
      }
    }
  }

  /** Where the routine waits, an update is lost exactly when BLock took an older parameter on a
      door that had taken that update, and the routine has not moved on since. */
  lemma LostIff(states: seq<State>, actions: seq<Action>, i: nat)
    requires Run(states, actions) && i < |states| && states[i].pc.Waiting?
    ensures Lost(states[i]) <==> exists k | 0 <= k < i :: LostAt(states, actions, k, i)
  {
    InvAlways(states, actions, i);
    LosingIff(states, actions, i);
  }

  /** Between two calls of Update the last posted parameter waits in updateCh or is `param`. In
      the select the door has `param`, or will be started with it, or `param` waits to be retried,
      exactly when BLock did not come late to a door that had taken it; so when both channels are
      empty the door has the newest parameter exactly then. */
  lemma NoLostUpdateIff(states: seq<State>, actions: seq<Action>, i: nat)
    requires Run(states, actions) && i < |states|
    ensures var s := states[i];
      && !s.box.dropped
      && (s.box.poster.Ready? ==> s.param == s.box.posts - 1 || s.box.ch == Some(s.box.posts - 1))
      && (s.pc.Waiting? ==> s.door.Some?)
      && (s.pc.Waiting? ==>
            (s.door.value.has == s.param || s.retry == Some(s.param)
             <==> !exists k | 0 <= k < i :: LostAt(states, actions, k, i)))
      && (s.pc.Waiting? && s.retry.None? && s.box.ch.None? && s.box.poster.Ready? ==>
            (s.door.value.has == s.box.posts - 1 <==> !exists k | 0 <= k < i :: LostAt(states, actions, k, i)))
  {
    InvAlways(states, actions, i);
    LosingIff(states, actions, i);
  }

  /** A door whose BLock has not taken its parameter has taken no update. */
  ghost predicate Refused(s: State) {
    s.door.Some? && !HasStarted(s) ==> s.door.value.has == s.door.value.init
  }

  /** In this run doors take no update before their BLock has taken its parameter. */
  ghost predicate RefuseEarly(states: seq<State>, actions: seq<Action>)
    requires |states| == |actions| + 1
  {
    forall k | 0 <= k < |actions| :: actions[k].UpdateTakes? ==> HasStarted(states[k])
  }

  lemma {:induction false} RefusedAlways(states: seq<State>, actions: seq<Action>, i: nat)
    requires Run(states, actions) && i < |states| && RefuseEarly(states, actions)
    ensures Refused(states[i])
  {
    if i > 0 {
      RefusedAlways(states, actions, i - 1);
      assert Step(states[i - 1], actions[i - 1], states[i]);
    }
  }

  /** With doors that take no update before their BLock has its parameter none is ever lost. */
  lemma RefusingDoorsLoseNothing(states: seq<State>, actions: seq<Action>, i: nat)
    requires Run(states, actions) && i < |states| && RefuseEarly(states, actions)
    ensures var s := states[i];
      && (s.pc.Waiting? ==> s.door.Some? && (s.door.value.has == s.param || s.retry == Some(s.param)))
      && (s.pc.Waiting? && s.retry.None? && s.box.ch.None? && s.box.poster.Ready? ==>
            s.door.value.has == s.box.posts - 1)
  {
    NoLostUpdateIff(states, actions, i);
    forall k | 0 <= k < i ensures !LostAt(states, actions, k, i) {
      RefusedAlways(states, actions, k);
      assert Step(states[k], actions[k], states[k + 1]);
    }
  }

  /** A run with one more step. */
  lemma Then(states: seq<State>, actions: seq<Action>, a: Action) returns (now: seq<State>, did: seq<Action>)
    requires Run(states, actions) && Enabled(states[|states| - 1], a)
    ensures Run(now, did) && did == actions + [a] && now[|now| - 1] == After(states[|states| - 1], a)
  {
    now, did := states + [After(states[|states| - 1], a)], actions + [a];
  }

  /** A new value is posted and taken before the BLock of the first door is called. */
  lemma NewerBeforeBLock() returns (states: seq<State>, actions: seq<Action>)
    ensures Run(states, actions) && actions == [NewDoor, Poster(Post), TakeUpdate, TakeRetry]
    ensures states[|states| - 1] ==
      State(Box(2, None, Ready, false), 1, None, Checking, Some(Door(0, 0, 0, Pending)), 1, {}, [], false)
  {
    states, actions := Then([INITIAL], [], NewDoor);
    states, actions := Then(states, actions, Poster(Post));
    states, actions := Then(states, actions, TakeUpdate);
    states, actions := Then(states, actions, TakeRetry);
  }

  /** Where both runs below end: the update came before the BLock, and the older one stays. */
  ghost predicate OlderStays(s: State) {
    && s.handed == [Handed(0, 1, true), Handed(0, 0, false)]
    && s.pc.Waiting? && s.retry.None? && s.box.ch.None? && s.box.poster.Ready?
    && s.door.Some? && s.door.value.has == 0 && s.box.posts - 1 == 1
  }

  /** Both happen: the update of a door overtakes its BLock, and the older parameter stays. */
  lemma LateBLockLosesUpdate() returns (states: seq<State>, actions: seq<Action>)
    ensures Run(states, actions) && OlderStays(states[|states| - 1])
    ensures actions == [NewDoor, Poster(Post), TakeUpdate, TakeRetry] +
                       [NothingNewer, UpdateTakes, UpdateReturns(true), BLockStarts, BLockTakes]
  {
    states, actions := NewerBeforeBLock();
    states, actions := Then(states, actions, NothingNewer);
    states, actions := Then(states, actions, UpdateTakes);
    states, actions := Then(states, actions, UpdateReturns(true));
    states, actions := Then(states, actions, BLockStarts);
    states, actions := Then(states, actions, BLockTakes);
  }

  /** So they do when BLock comes in the middle of the Update, after the door has taken it. */
  lemma BLockWithinUpdateLosesIt() returns (states: seq<State>, actions: seq<Action>)
    ensures Run(states, actions) && OlderStays(states[|states| - 1])
    ensures actions == [NewDoor, Poster(Post), TakeUpdate, TakeRetry] +
                       [NothingNewer, UpdateTakes, BLockStarts, BLockTakes, UpdateReturns(true)]
  {
    states, actions := NewerBeforeBLock();
    states, actions := Then(states, actions, NothingNewer);
    states, actions := Then(states, actions, UpdateTakes);
    states, actions := Then(states, actions, BLockStarts);
    states, actions := Then(states, actions, BLockTakes);
    states, actions := Then(states, actions, UpdateReturns(true));
  }

  // ----- One door at a time -----

  /** At most one BLock runs, that of the door in use, and none at the head of the loop. */
  lemma OneDoorRuns(states: seq<State>, actions: seq<Action>, i: nat)
    requires Run(states, actions) && i < |states|
    ensures |states[i].live| <= 1
    ensures forall d | d in states[i].live :: states[i].door.Some? && states[i].door.value.id == d == states[i].bought - 1
    ensures states[i].pc.Top? ==> states[i].live == {}
  {
    InvAlways(states, actions, i);
  }

  /** The routine has returned and its last door runs no more. */
  ghost predicate LeftNothing(s: State) {
    s.pc.Exited? && (s.door.None? || s.door.value.stage.Returned?) && s.live == {}
  }

  lemma {:induction false} LeftNothingStays(s: State, states: seq<State>, actions: seq<Action>, i: nat)
    requires LeftNothing(s) && RunFrom(s, states, actions) && i < |states|
    ensures LeftNothing(states[i])
  {
    if i > 0 {
      LeftNothingStays(s, states, actions, i - 1);
      assert Step(states[i - 1], actions[i - 1], states[i]);
    }
  }

  /** When the routine sees its context cancelled, it removes its door and returns. BLock of that
      door can run afterwards exactly if it had not come so far that Remove could stop it. */
  lemma RunsAfterLeaveIff(s: State)
    requires Inv(s) && s.pc.Waiting? && s.cancelled
    ensures At(s, Pending) || At(s, Called) || At(s, Started) <==>
      exists states: seq<State>, actions: seq<Action> ::
        RunFrom(After(s, SeeCancelled), states, actions) && states[|states| - 1].live != {}
  {
    var left := After(s, SeeCancelled);
    if At(s, Pending) {
      var states := [left, After(left, BLockStarts)];
      assert RunFrom(left, states, [BLockStarts]);
      assert s.door.value.id in states[1].live;
    } else if Blocks(left) {
      assert RunFrom(left, [left], []);
      assert s.door.value.id in [left][0].live;
    } else {
      forall states: seq<State>, actions: seq<Action> | RunFrom(left, states, actions)
        ensures states[|states| - 1].live == {}
      {
        LeftNothingStays(left, states, actions, |states| - 1);
      }
    }
  }

  /** The routine has returned exactly if it has seen its context cancelled, which it is exactly
      if somebody cancelled it: a door that cannot be bought is tried again. */
  lemma {:induction false} ReturnedIff(states: seq<State>, actions: seq<Action>, i: nat)
    requires Run(states, actions) && i < |states|
    ensures states[i].pc.Exited? <==> exists k | 0 <= k < i :: actions[k].SeeCancelled?
    ensures states[i].cancelled <==> exists k | 0 <= k < i :: actions[k].Cancel?
    ensures states[i].pc.Exited? ==> states[i].cancelled
  {
    if i > 0 {
      ReturnedIff(states, actions, i - 1);
      assert Step(states[i - 1], actions[i - 1], states[i]);
      if k :| 0 <= k < i && actions[k].SeeCancelled? {
        assert k < i - 1 || k == i - 1;
      }
      if k :| 0 <= k < i && actions[k].Cancel? {
        assert k < i - 1 || k == i - 1;
      }
    }
  }

  /** The routine is never stuck: wherever it is it can go on, unless it waits with its door still
      blocking, its context live and both channels empty. */
  lemma NeverStuck(states: seq<State>, actions: seq<Action>, i: nat)
    requires Run(states, actions) && i < |states|
    ensures var s := states[i];
      match s.pc
      case Top => Enabled(s, NewDoor)
      case Checking => Enabled(s, TakeUpdate) || Enabled(s, NothingNewer)
      case Updating => Enabled(s, UpdateTakes) && Enabled(s, UpdateReturns(false))
      case Updated => Enabled(s, UpdateReturns(true)) && Enabled(s, UpdateReturns(false))
      case Waiting =>
        && (s.box.ch.Some? ==> Enabled(s, TakeUpdate)) && (s.retry.Some? ==> Enabled(s, TakeRetry))
        && (s.cancelled ==> Enabled(s, SeeCancelled))
        && (At(s, Returned) ==> Enabled(s, SeeError))
        && (At(s, Pending) || Blocks(s) || At(s, Returned))
      case Exited => true
  {
    InvAlways(states, actions, i);
  }

  /** When Update of a door is called and no post is under way, it is called with the newest value. */
  lemma HandsNewest(states: seq<State>, actions: seq<Action>, i: nat)
    requires Run(states, actions) && i < |actions| && actions[i].NothingNewer? && states[i].box.poster.Ready?
    ensures states[i].param == states[i].box.posts - 1
    ensures states[i + 1].handed != [] && states[i + 1].handed[|states[i + 1].handed| - 1].value == states[i].box.posts - 1
  {
    assert Step(states[i], actions[i], states[i + 1]);
    InvAlways(states, actions, i);
  }
}
