/** util/watchdog.go, WatchDogWithUnblockedDoor.watch: the loop that locks, repairs, updates and
    replaces a door. The broken signal is shared by all doors, so a stale one may arrive. */
module UnblockedDoor {
  import opened Mailbox
  import opened Options

  /** At the head of the loop; about to lock; in the select; inside Repair; inside Update; returned. */
  datatype Pc = Top | Locking | Waiting | Repairing | Updating | Exited

  /** Doors are numbered as they are bought; `live` are those not removed, `removed` those removed,
      in order; `locked` is the parameter the door in use was last locked with. */
  datatype State = State(
    box: Box,
    param: nat,
    pc: Pc,
    door: Option<nat>,
    locked: Option<nat>,
    bought: nat,
    live: set<nat>,
    removed: seq<nat>,
    broken: bool,
    cancelled: bool)

  datatype Action =
    | Poster(a: BoxAction)
    | Cancel
    | OnBroken
    | BuyFails
    | BuyFakes
    | Buy
    | KeepDoor
    | LockReturns(ok: bool)
    | SeeCancelled
    | SeeBroken
    | RepairReturns(ok: bool)
    | TakeUpdate
    | UpdateReturns(ok: bool)

  const INITIAL := State(EMPTY, 0, Top, None, None, 0, {}, [], false, false)

  ghost predicate Enabled(s: State, a: Action) {
    match a
    case Poster(b) => BoxEnabled(s.box, b)
    case Cancel => true
    case OnBroken => true
    case BuyFails => s.pc.Top? && s.door.None?
    case BuyFakes => s.pc.Top? && s.door.None?
    case Buy => s.pc.Top? && s.door.None?
    case KeepDoor => s.pc.Top? && s.door.Some?
    case LockReturns(_) => s.pc.Locking? && s.door.Some?
    case SeeCancelled => s.pc.Waiting? && s.door.Some? && s.cancelled
    case SeeBroken => s.pc.Waiting? && s.broken
    case RepairReturns(_) => s.pc.Repairing? && s.door.Some?
    case TakeUpdate => s.pc.Waiting? && s.box.ch.Some?
    case UpdateReturns(_) => s.pc.Updating? && s.door.Some?
  }

  /** The non-blocking look at the context before the loop goes on. */
  ghost function Continue(s: State): State {
    if s.cancelled then s.(pc := Exited) else s.(pc := Top)
  }

  ghost function Remove(s: State, d: nat): State {
    s.(door := None, locked := None, live := s.live - {d}, removed := s.removed + [d])
  }

  ghost function After(s: State, a: Action): State
    requires Enabled(s, a)
  {
    match a
    case Poster(b) => s.(box := BoxAfter(s.box, b))
    case Cancel => s.(cancelled := true)
    case OnBroken => s.(broken := true)
    case BuyFails => Continue(s)
    case BuyFakes => Continue(Remove(s.(bought := s.bought + 1, live := s.live + {s.bought}), s.bought))
    case Buy =>
      s.(pc := Locking, door := Some(s.bought), locked := None, bought := s.bought + 1, live := s.live + {s.bought})
    case KeepDoor => s.(pc := Locking)
    case LockReturns(ok) =>
      if ok then s.(pc := Waiting, locked := Some(s.param)) else Continue(Remove(s, s.door.value))
    case SeeCancelled => Remove(s, s.door.value).(pc := Exited)
    case SeeBroken => s.(pc := Repairing, broken := false)
    case RepairReturns(ok) => if ok then s.(pc := Top) else Remove(s, s.door.value).(pc := Top)
    case TakeUpdate => s.(pc := Updating, box := Taken(s.box), param := s.box.ch.value)
    case UpdateReturns(ok) => if ok then s.(pc := Top) else Remove(s, s.door.value).(pc := Top)
  }

  ghost predicate Step(s: State, a: Action, s': State) {
    Enabled(s, a) && s' == After(s, a)
  }

  /** The doors were removed one after the other as they were bought, all but the one in use. */
  ghost predicate DoorsAccounted(s: State) {
    && (forall i | 0 <= i < |s.removed| :: s.removed[i] == i)
    && (match s.door
        case None => |s.removed| == s.bought && s.live == {}
        case Some(d) => d == |s.removed| == s.bought - 1 && s.live == {d})
  }

  ghost predicate Inv(s: State) {
    && BoxInv(s.box, s.param)
    && DoorsAccounted(s)
    && (s.pc in {Locking, Waiting, Repairing, Updating} ==> s.door.Some?)
    && (s.pc.Waiting? || s.pc.Repairing? ==> s.locked == Some(s.param))
    && (s.pc.Exited? ==> s.door.None?)
  }

  lemma InvKept(s: State, a: Action)
    requires Inv(s) && Enabled(s, a)
    ensures Inv(After(s, a))
  {
    match a
    case Poster(b) => BoxKept(s.box, s.param, b);
    case TakeUpdate => TakeKeeps(s.box, s.param);
    case _ =>
  }

  ghost predicate Run(states: seq<State>, actions: seq<Action>) {
    && |states| == |actions| + 1
    && states[0] == INITIAL
    && forall i | 0 <= i < |actions| :: Step(states[i], actions[i], states[i + 1])
  }

  lemma {:induction false} InvAlways(states: seq<State>, actions: seq<Action>, i: nat)
    requires Run(states, actions) && i < |states|
    ensures Inv(states[i])
  {
    if i > 0 {
      InvAlways(states, actions, i - 1);
      assert Step(states[i - 1], actions[i - 1], states[i]);
      InvKept(states[i - 1], actions[i - 1]);
    }
  }

  /** At most one door is live; doors are removed in the order they were bought, each once, before
      the next is bought or the loop returns; after it has returned none is left. */
  lemma DoorsRemovedOnce(states: seq<State>, actions: seq<Action>, i: nat)
    requires Run(states, actions) && i < |states|
    ensures |states[i].live| <= 1
    ensures forall k | 0 <= k < |states[i].removed| :: states[i].removed[k] == k
    ensures |states[i].removed| + |states[i].live| == states[i].bought
    ensures forall d | d in states[i].live :: states[i].door == Some(d) && d !in states[i].removed
    ensures i < |actions| && states[i + 1].bought > states[i].bought ==> states[i].live == {}
    ensures states[i].pc.Exited? ==> states[i].live == {}
  {
    InvAlways(states, actions, i);
    if i < |actions| {
      assert Step(states[i], actions[i], states[i + 1]);
    }
  }

  /** Whenever the loop waits, the door in use was last locked with the newest parameter taken;
      when the mailbox is at rest too, that is the newest parameter posted. */
  lemma WaitsWithCurrentParam(states: seq<State>, actions: seq<Action>, i: nat)
    requires Run(states, actions) && i < |states|
    ensures var s := states[i];
      && !s.box.dropped
      && (s.box.poster.Ready? ==> s.param == s.box.posts - 1 || s.box.ch == Some(s.box.posts - 1))
      && (s.pc.Waiting? ==> s.door.Some? && s.locked == Some(s.param))
      && (s.pc.Waiting? && s.box.poster.Ready? && s.box.ch.None? ==> s.locked == Some(s.box.posts - 1))
  {
    InvAlways(states, actions, i);
  }

  // ----- When a door goes, and when the loop ends -----

  ghost predicate Fails(a: Action) {
    a == LockReturns(false) || a == RepairReturns(false) || a == UpdateReturns(false)
  }

  /** The door is thrown away: bought as a fake, not locked, not repaired, not updated, or left. */
  ghost predicate ThrowsAway(s: State, a: Action, d: nat) {
    || (a.BuyFakes? && s.bought == d)
    || (s.door == Some(d) && (Fails(a) || a.SeeCancelled?))
  }

  lemma RemovedStep(s: State, a: Action, d: nat)
    requires Inv(s) && Enabled(s, a)
    ensures d in After(s, a).removed <==> d in s.removed || ThrowsAway(s, a, d)
  {
    assert forall x, y :: x in s.removed + [y] <==> x in s.removed || x == y;
  }

  /** Some step before state i has thrown the door away. */
  ghost predicate Thrown(states: seq<State>, actions: seq<Action>, i: nat, d: nat)
    requires |states| == |actions| + 1 && i <= |actions|
  {
    exists k | 0 <= k < i :: ThrowsAway(states[k], actions[k], d)
  }

  lemma ThrownGrows(states: seq<State>, actions: seq<Action>, i: nat, d: nat)
    requires |states| == |actions| + 1 && i < |actions|
    ensures Thrown(states, actions, i + 1, d) <==> Thrown(states, actions, i, d) || ThrowsAway(states[i], actions[i], d)
  {
    if k :| 0 <= k < i + 1 && ThrowsAway(states[k], actions[k], d) {
      assert k < i || k == i;
    }
  }

  /** A door is removed exactly if it was bought as a fake, or Lock, Repair or Update of it failed,
      or the loop was left with it. */
  lemma {:induction false} RemovedIff(states: seq<State>, actions: seq<Action>, i: nat, d: nat)
    requires Run(states, actions) && i < |states|
    ensures d in states[i].removed <==> Thrown(states, actions, i, d)
  {
    if i > 0 {
      RemovedIff(states, actions, i - 1, d);
      InvAlways(states, actions, i - 1);
      assert Step(states[i - 1], actions[i - 1], states[i]);
      RemovedStep(states[i - 1], actions[i - 1], d);
      ThrownGrows(states, actions, i - 1, d);
    }
  }

  /** After Lock, Repair or Update has succeeded the same door is in use. */
  lemma SuccessKeepsDoor(states: seq<State>, actions: seq<Action>, i: nat)
    requires Run(states, actions) && i < |actions|
    requires actions[i] in {LockReturns(true), RepairReturns(true), UpdateReturns(true)}
    ensures states[i].door.Some? && states[i + 1].door == states[i].door
    ensures states[i].door.value !in states[i + 1].removed
  {
    InvAlways(states, actions, i);
    InvAlways(states, actions, i + 1);
    assert Step(states[i], actions[i], states[i + 1]);
    RemovedStep(states[i], actions[i], states[i].door.value);
  }

  ghost predicate BrokenSince(actions: seq<Action>, k: nat, i: nat)
    requires k < i <= |actions|
  {
    actions[k].OnBroken? && forall j | k < j < i :: !actions[j].SeeBroken?
  }

  /** A broken signal waits exactly if one was given and none was seen since, so each leads to one
      repair at most. */
  lemma {:induction false} BrokenIff(states: seq<State>, actions: seq<Action>, i: nat)
    requires Run(states, actions) && i < |states|
    ensures states[i].broken <==> exists k | 0 <= k < i :: BrokenSince(actions, k, i)
  {
    if i > 0 {
      BrokenIff(states, actions, i - 1);
      assert Step(states[i - 1], actions[i - 1], states[i]);
      var last := i - 1;
      if k :| 0 <= k < last && BrokenSince(actions, k, last) {
        assert !actions[last].SeeBroken? ==> BrokenSince(actions, k, i);
      }
      if actions[last].OnBroken? {
        assert BrokenSince(actions, last, i);
      }
      if k :| 0 <= k < i && BrokenSince(actions, k, i) {
        assert k < last ==> BrokenSince(actions, k, last);
      }
    }
  }

  /** The loop looks at its context, and finds it cancelled. */
  ghost predicate GivesUp(s: State, a: Action) {
    s.cancelled && (a.SeeCancelled? || a.BuyFails? || a.BuyFakes? || a == LockReturns(false))
  }

  /** The loop has returned exactly if it was cancelled when it waited, or when no door could be
      bought or locked. */
  lemma {:induction false} ReturnedIff(states: seq<State>, actions: seq<Action>, i: nat)
    requires Run(states, actions) && i < |states|
    ensures states[i].pc.Exited? <==> exists k | 0 <= k < i :: GivesUp(states[k], actions[k])
  {
    if i > 0 {
      ReturnedIff(states, actions, i - 1);
      assert Step(states[i - 1], actions[i - 1], states[i]);
      if k :| 0 <= k < i && GivesUp(states[k], actions[k]) {
        assert k < i - 1 || k == i - 1;
      }
    }
  }

  /** The context is cancelled exactly if Leave was called. */
  lemma {:induction false} CancelledIff(states: seq<State>, actions: seq<Action>, i: nat)
    requires Run(states, actions) && i < |states|
    ensures states[i].cancelled <==> exists k | 0 <= k < i :: actions[k].Cancel?
  {
    if i > 0 {
      CancelledIff(states, actions, i - 1);
      assert Step(states[i - 1], actions[i - 1], states[i]);
      if k :| 0 <= k < i && actions[k].Cancel? {
        assert k < i - 1 || k == i - 1;
      }
    }
  }

  /** Only others have moved since Lock succeeded in step k. */
  ghost predicate LockedSince(actions: seq<Action>, k: nat, i: nat)
    requires k < i <= |actions|
  {
    actions[k] == LockReturns(true) && forall j | k < j < i :: actions[j].Poster? || actions[j].Cancel? || actions[j].OnBroken?
  }

  /** The loop waits exactly from a successful Lock on until it does something else: after every
      repair and every update it locks the door again before it waits. */
  lemma {:induction false} WaitsAfterLock(states: seq<State>, actions: seq<Action>, i: nat)
    requires Run(states, actions) && i < |states|
    ensures states[i].pc.Waiting? <==> exists k | 0 <= k < i :: LockedSince(actions, k, i)
  {
    if i > 0 {
      var last := i - 1;
      WaitsAfterLock(states, actions, last);
      assert Step(states[last], actions[last], states[i]);
      if k :| 0 <= k < last && LockedSince(actions, k, last) {
        assert actions[last].Poster? || actions[last].Cancel? || actions[last].OnBroken? ==> LockedSince(actions, k, i);
      }
      if actions[last] == LockReturns(true) {
        assert LockedSince(actions, last, i);
      }
      if k :| 0 <= k < i && LockedSince(actions, k, i) {
        assert k < last ==> LockedSince(actions, k, last);
      }
    }
  }

  /** The loop is never stuck: wherever it is it can go on, unless it waits with no signal, no
      update and its context live. */
  lemma NeverStuck(states: seq<State>, actions: seq<Action>, i: nat)
    requires Run(states, actions) && i < |states|
    ensures var s := states[i];
      match s.pc
      case Top => if s.door.Some? then Enabled(s, KeepDoor) else Enabled(s, Buy) && Enabled(s, BuyFails)
      case Locking => Enabled(s, LockReturns(true)) && Enabled(s, LockReturns(false))
      case Repairing => Enabled(s, RepairReturns(true)) && Enabled(s, RepairReturns(false))
      case Updating => Enabled(s, UpdateReturns(true)) && Enabled(s, UpdateReturns(false))
      case Waiting =>
        && (s.box.ch.Some? ==> Enabled(s, TakeUpdate)) && (s.broken ==> Enabled(s, SeeBroken))
        && (s.cancelled ==> Enabled(s, SeeCancelled))
      case Exited => true
  {
    InvAlways(states, actions, i);
  }
}
