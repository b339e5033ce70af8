/** pkg/isglb/service.go, routineSFUStatusSend: the goroutine of one stream that hands the
    statuses of each node id to a sender goroutine through a channel of capacity one,
    replacing a status that is not taken yet. */
module SendConflation {
  import opened Options
  import opened Proto

  /** The reader is waiting for a message, is about to try the channel of a node id, found it
      full and is about to drain it, or is about to push without a guard; or it has closed all. */
  datatype Pc = Idle | Trying(nid: Nid) | Draining(nid: Nid) | Refilling(nid: Nid) | Closed

  datatype Sender = Waiting | InSend | Stopped

  /** For each node id: all statuses taken from sendCh in order, the position of the one in the
      buffer, the positions of those given to sig.Send in order, and the sender goroutine. */
  datatype Lane = Lane(pushed: seq<SFUStatus>, buffer: Option<int>, given: seq<int>, sender: Sender)

  datatype State = State(pc: Pc, lanes: map<Nid, Lane>)

  datatype Action =
    | Take(msg: SFUStatus)
    | Try
    | Drain
    | Refill
    | CloseAll
    | SenderTakes(nid: Nid)
    | SendReturns(nid: Nid, fatal: bool)
    | SenderStops(nid: Nid)

  const INITIAL := State(Idle, map[])

  ghost predicate Enabled(s: State, a: Action) {
    match a
    case Take(_) => s.pc.Idle?
    case Try => s.pc.Trying? && s.pc.nid in s.lanes
    case Drain => s.pc.Draining? && s.pc.nid in s.lanes
    case Refill => s.pc.Refilling? && s.pc.nid in s.lanes && s.lanes[s.pc.nid].buffer.None?
    case CloseAll => s.pc.Idle?
    case SenderTakes(n) => n in s.lanes && s.lanes[n].sender.Waiting? && s.lanes[n].buffer.Some?
    case SendReturns(n, _) => n in s.lanes && s.lanes[n].sender.InSend?
    case SenderStops(n) =>
      n in s.lanes && s.lanes[n].sender.Waiting? && s.lanes[n].buffer.None? && s.pc.Closed?
  }

  ghost function Put(l: Lane): Lane
  {
    l.(buffer := Some(|l.pushed| - 1))
  }

  ghost function After(s: State, a: Action): State
    requires Enabled(s, a)
  {
    match a
    case Take(msg) =>
      var n := StatusKey(msg);
      var l := if n in s.lanes then s.lanes[n] else Lane([], None, [], Waiting);
      State(Trying(n), s.lanes[n := l.(pushed := l.pushed + [msg])])
    case Try =>
      var l := s.lanes[s.pc.nid];
      if l.buffer.None? then State(Idle, s.lanes[s.pc.nid := Put(l)]) else State(Draining(s.pc.nid), s.lanes)
    case Drain =>
      State(Refilling(s.pc.nid), s.lanes[s.pc.nid := s.lanes[s.pc.nid].(buffer := None)])
    case Refill => State(Idle, s.lanes[s.pc.nid := Put(s.lanes[s.pc.nid])])
    case CloseAll => s.(pc := Closed)
    case SenderTakes(n) =>
      var l := s.lanes[n];
      s.(lanes := s.lanes[n := l.(buffer := None, given := l.given + [l.buffer.value], sender := InSend)])
    case SendReturns(n, fatal) =>
      s.(lanes := s.lanes[n := s.lanes[n].(sender := if fatal then Stopped else Waiting)])
    case SenderStops(n) => s.(lanes := s.lanes[n := s.lanes[n].(sender := Stopped)])
  }

  ghost predicate Step(s: State, a: Action, s': State) {
    Enabled(s, a) && s' == After(s, a)
  }

  /** All positions are at least `lo` and below `hi`. */
  ghost predicate Within(given: seq<int>, lo: int, hi: int) {
    forall i | 0 <= i < |given| :: lo <= given[i] < hi
  }

  ghost predicate Increasing(given: seq<int>) {
    forall i, j | 0 <= i < j < |given| :: given[i] < given[j]
  }

  /** The newest status of a lane, if it has one, is in the buffer or was given to the sender. */
  ghost predicate NewestKept(l: Lane, count: int) {
    count > 0 ==> l.buffer == Some(count - 1) || (l.given != [] && l.given[|l.given| - 1] == count - 1)
  }

  /** The message at hand, the last one pushed, is in neither the buffer nor the sender. */
  ghost predicate NotYetPut(l: Lane) {
    && (l.buffer.Some? ==> l.buffer.value < |l.pushed| - 1)
    && Within(l.given, 0, |l.pushed| - 1)
  }

  ghost predicate LaneInv(l: Lane, n: Nid, pc: Pc) {
    && l.pushed != []
    && Increasing(l.given) && Within(l.given, 0, |l.pushed|)
    && (l.buffer.Some? ==> 0 <= l.buffer.value < |l.pushed| && Within(l.given, 0, l.buffer.value))
    && (if pc == Trying(n) then NotYetPut(l) && NewestKept(l, |l.pushed| - 1)
        else if pc == Draining(n) then NotYetPut(l)
        else if pc == Refilling(n) then NotYetPut(l) && l.buffer.None?
        else NewestKept(l, |l.pushed|))
  }

  ghost predicate Inv(s: State) {
    && (forall n | n in s.lanes :: LaneInv(s.lanes[n], n, s.pc))
    && (s.pc.Trying? || s.pc.Draining? || s.pc.Refilling? ==> s.pc.nid in s.lanes)
  }

  /** The reader is at work on a node id: it has a message of it that is not put yet. */
  ghost predicate AtWork(pc: Pc, n: Nid) {
    pc == Trying(n) || pc == Draining(n) || pc == Refilling(n)
  }

  lemma GivingKeepsOrder(l: Lane)
    requires Increasing(l.given) && l.buffer.Some? && 0 <= l.buffer.value && Within(l.given, 0, l.buffer.value)
    ensures Increasing(l.given + [l.buffer.value])
    ensures Within(l.given + [l.buffer.value], 0, l.buffer.value + 1)
  {
  }

  lemma LaneKeptByTake(s: State, a: Action, n: Nid)
    requires Inv(s) && Enabled(s, a) && n in After(s, a).lanes && a.Take?
    ensures LaneInv(After(s, a).lanes[n], n, After(s, a).pc)
  {
  }

  lemma LaneKeptByReader(s: State, a: Action, n: Nid)
    requires Inv(s) && Enabled(s, a) && n in s.lanes
    requires a.Try? || a.Drain? || a.Refill? || a.CloseAll?
    ensures LaneInv(After(s, a).lanes[n], n, After(s, a).pc)
  {
  }

  lemma LaneKeptBySender(s: State, a: Action, n: Nid)
    requires Inv(s) && Enabled(s, a) && n in s.lanes
    requires a.SenderTakes? || a.SendReturns? || a.SenderStops?
    ensures LaneInv(After(s, a).lanes[n], n, After(s, a).pc)
  {
    if a.SenderTakes? {
      GivingKeepsOrder(s.lanes[a.nid]);
    }
  }

  lemma InvKept(s: State, a: Action)
    requires Inv(s) && Enabled(s, a)
    ensures Inv(After(s, a))
  {
    forall n | n in After(s, a).lanes ensures LaneInv(After(s, a).lanes[n], n, After(s, a).pc) {
      if a.Take? {
        LaneKeptByTake(s, a, n);
      } else if a.Try? || a.Drain? || a.Refill? || a.CloseAll? {
        LaneKeptByReader(s, a, n);
      } else {
        LaneKeptBySender(s, a, n);
      }
    }
  }

  ghost predicate Run(states: seq<State>, actions: seq<Action>) {
    && |states| == |actions| + 1
    && states[0] == INITIAL
    && forall i | 0 <= i < |actions| :: Step(states[i], actions[i], states[i + 1])
  }

  lemma {:induction false} InvAlways(states: seq<State>, actions: seq<Action>, i: nat)
    requires Run(states, actions) && i < |states|
    ensures Inv(states[i])
  {
    if i > 0 {
      InvAlways(states, actions, i - 1);
      assert Step(states[i - 1], actions[i - 1], states[i]);
      InvKept(states[i - 1], actions[i - 1]);
    }
  }

  /** The push without a guard never blocks: in every reachable state the reader that wants to
      push can, whether or not the sender goroutine still runs. */
  lemma ReaderNeverBlocks(states: seq<State>, actions: seq<Action>, i: nat)
    requires Run(states, actions) && i < |states|
    ensures match states[i].pc
      case Trying(_) => Enabled(states[i], Try)
      case Draining(_) => Enabled(states[i], Drain)
      case Refilling(_) => Enabled(states[i], Refill)
      case _ => true
  {
    InvAlways(states, actions, i);
  }

  /** The statuses at the given positions. */
  ghost function Picked(pushed: seq<SFUStatus>, given: seq<int>): seq<SFUStatus>
    requires Within(given, 0, |pushed|)
  {
    if given == [] then [] else Picked(pushed, given[..|given| - 1]) + [pushed[given[|given| - 1]]]
  }

  lemma {:induction false} PickedFromPrefix(pushed: seq<SFUStatus>, given: seq<int>, k: nat)
    requires k <= |pushed| && Within(given, 0, k)
    ensures Picked(pushed[..k], given) == Picked(pushed, given)
  {
    if given != [] {
      PickedFromPrefix(pushed, given[..|given| - 1], k);
    }
  }

  ghost predicate Subsequence<T>(a: seq<T>, b: seq<T>) {
    if a == [] then true
    else if b == [] then false
    else if a[|a| - 1] == b[|b| - 1] && Subsequence(a[..|a| - 1], b[..|b| - 1]) then true
    else Subsequence(a, b[..|b| - 1])
  }

  /** Picking at increasing positions gives a subsequence. */
  lemma {:induction false} PickedIsSubsequence(pushed: seq<SFUStatus>, given: seq<int>)
    requires Increasing(given) && Within(given, 0, |pushed|)
    ensures Subsequence(Picked(pushed, given), pushed)
    decreases |pushed|
  {
    if given != [] {
      var front, last, k := given[..|given| - 1], given[|given| - 1], |pushed| - 1;
      if last == k {
        assert Within(front, 0, k);
        PickedIsSubsequence(pushed[..k], front);
        PickedFromPrefix(pushed, front, k);
        assert Picked(pushed, given)[..|Picked(pushed, given)| - 1] == Picked(pushed, front);
      } else {
        assert Within(given, 0, k) by {
          assert forall i | 0 <= i < |front| :: given[i] < last;
        }
        PickedIsSubsequence(pushed[..k], given);
        PickedFromPrefix(pushed, given, k);
      }
    }
  }

  /** The statuses given to sig.Send for a node id are a subsequence of those pushed for it, and
      whenever the reader is not at work on that node id the newest is buffered or was given;
      with an empty buffer it is the last one given. */
  lemma ConflatesInOrder(states: seq<State>, actions: seq<Action>, i: nat, n: Nid)
    requires Run(states, actions) && i < |states| && n in states[i].lanes
    ensures var l := states[i].lanes[n];
      && Within(l.given, 0, |l.pushed|)
      && Subsequence(Picked(l.pushed, l.given), l.pushed)
      && (!AtWork(states[i].pc, n) ==>
            && NewestKept(l, |l.pushed|)
            && (l.buffer.None? ==> l.given != [] && l.pushed[l.given[|l.given| - 1]] == l.pushed[|l.pushed| - 1]))
  {
    InvAlways(states, actions, i);
    PickedIsSubsequence(states[i].lanes[n].pushed, states[i].lanes[n].given);
  }

  // ----- The sender goroutines -----

  /** sig.Send of a node id is under way: begun in step k and not returned before state i. */
  ghost predicate SendingSince(actions: seq<Action>, k: nat, i: nat, n: Nid)
    requires k < i <= |actions|
  {
    actions[k] == SenderTakes(n) && forall j | k < j < i :: !(actions[j].SendReturns? && actions[j].nid == n)
  }

  ghost predicate Sending(actions: seq<Action>, i: nat, n: Nid)
    requires i <= |actions|
  {
    exists k | 0 <= k < i :: SendingSince(actions, k, i, n)
  }

  ghost predicate StopsSender(a: Action, n: Nid) {
    a == SendReturns(n, true) || a == SenderStops(n)
  }

  lemma SenderStep(s: State, a: Action, n: Nid)
    requires Enabled(s, a) && n in After(s, a).lanes
    ensures var was := if n in s.lanes then s.lanes[n].sender else Waiting;
      After(s, a).lanes[n].sender ==
        if StopsSender(a, n) then Stopped
        else if a == SenderTakes(n) then InSend
        else if a == SendReturns(n, false) then Waiting
        else was
  {
  }

  /** A sender goroutine has ended exactly if sig.Send failed for good or its channel was closed
      and empty, and it is inside sig.Send exactly since it last took a status: so one goroutine
      never sends two statuses at a time, and goes on after every other result. */
  lemma {:induction false} SenderIs(states: seq<State>, actions: seq<Action>, i: nat, n: Nid)
    requires Run(states, actions) && i < |states|
    ensures (n in states[i].lanes && states[i].lanes[n].sender.Stopped?) <==>
      exists k | 0 <= k < i :: StopsSender(actions[k], n)
    ensures (n in states[i].lanes && states[i].lanes[n].sender.InSend?) <==> Sending(actions, i, n)
  {
    if i > 0 {
      SenderIs(states, actions, i - 1, n);
      var s, a := states[i - 1], actions[i - 1];
      assert Step(s, a, states[i]);
      assert s.lanes.Keys <= states[i].lanes.Keys;
      if n in states[i].lanes {
        SenderStep(s, a, n);
      }
      SendingGrows(actions, i - 1, n);
      if k :| 0 <= k < i && StopsSender(actions[k], n) {
        assert k < i - 1 || k == i - 1;
      }
    }
  }

  lemma SendingGrows(actions: seq<Action>, i: nat, n: Nid)
    requires i < |actions|
    ensures Sending(actions, i + 1, n) <==>
      || actions[i] == SenderTakes(n)
      || (Sending(actions, i, n) && !(actions[i].SendReturns? && actions[i].nid == n))
  {
    var next := i + 1;
    if k :| 0 <= k < next && SendingSince(actions, k, next, n) {
      assert k < i ==> SendingSince(actions, k, i, n);
    }
    if actions[i] == SenderTakes(n) {
      assert SendingSince(actions, i, next, n);
    }
    if k :| 0 <= k < i && SendingSince(actions, k, i, n) {
      assert !(actions[i].SendReturns? && actions[i].nid == n) ==> SendingSince(actions, k, next, n);
    }
  }

  /** The reader has closed all channels exactly if sendCh was found closed; it takes nothing then. */
  lemma {:induction false} ClosedIff(states: seq<State>, actions: seq<Action>, i: nat)
    requires Run(states, actions) && i < |states|
    ensures states[i].pc.Closed? <==> exists k | 0 <= k < i :: actions[k].CloseAll?
    ensures i < |actions| && actions[i].Take? ==> forall k | 0 <= k < i :: !actions[k].CloseAll?
  {
    if i < |actions| {
      assert Step(states[i], actions[i], states[i + 1]);
    }
    if i > 0 {
      ClosedIff(states, actions, i - 1);
      assert Step(states[i - 1], actions[i - 1], states[i]);
      if k :| 0 <= k < i && actions[k].CloseAll? {
        assert k < i - 1 || k == i - 1;
      }
    }
  }

  /** A sender goroutine that ends because its channel is closed has given the newest status. */
  lemma StopsWithNothingLeft(states: seq<State>, actions: seq<Action>, i: nat, n: Nid)
    requires Run(states, actions) && i < |actions| && actions[i] == SenderStops(n)
    ensures exists k | 0 <= k < i :: actions[k].CloseAll?
    ensures n in states[i].lanes
    ensures var l := states[i].lanes[n];
      l.given != [] && l.given[|l.given| - 1] == |l.pushed| - 1
  {
    assert Step(states[i], actions[i], states[i + 1]);
    ClosedIff(states, actions, i);
    InvAlways(states, actions, i);
    assert LaneInv(states[i].lanes[n], n, states[i].pc);
  }
}
