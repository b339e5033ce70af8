/** pkg/isglb/service.go: the way of an expected status from the receive loop to sig.Send. The
    whole service and the readers of all streams run together: what the receive loop delivers
    into a send channel is what the reader of that stream takes. */
module SendPath {
  import opened Proto
  import opened IsglbRecv
  import Service = IsglbSystem
  import Lanes = SendConflation

  /** `readers` are the readers that have been started. */
  datatype State = State(service: Service.State, readers: map<Stream, Lanes.State>)

  datatype Action =
    | OfService(act: Service.Action)
    | OfReader(t: Stream, step: Lanes.Action)

  ghost const INITIAL := State(Service.INITIAL, map[])

  ghost predicate Idle(s: State, t: Stream) {
    t in s.readers && s.readers[t].pc.Idle?
  }

  /** A reader takes a message, is ready for the next one, and ends together with the service. */
  ghost predicate Enabled(s: State, a: Action) {
    match a
    case OfService(b) =>
      && s.service.taken <= |s.service.pushed| && Service.Enabled(s.service, b)
      && (b.Deliver? ==> s.service.receiver.to in s.service.open && Idle(s, s.service.receiver.to))
      && (b.ReaderReady? || b.ReaderExits? ==> Idle(s, b.s))
    case OfReader(t, b) =>
      t in s.readers && Lanes.Enabled(s.readers[t], b) && !b.Take? && !b.CloseAll?
  }

  ghost function ReadersAfter(s: State, b: Service.Action): map<Stream, Lanes.State>
    requires Enabled(s, OfService(b))
  {
    match b
    case Serve(t) => s.readers[t := Lanes.INITIAL]
    case Deliver =>
      var t := s.service.receiver.to;
      s.readers[t := Lanes.After(s.readers[t], Lanes.Take(s.service.receiver.status))]
    case ReaderExits(t) => s.readers[t := Lanes.After(s.readers[t], Lanes.CloseAll)]
    case _ => s.readers
  }

  ghost function After(s: State, a: Action): State
    requires Enabled(s, a)
  {
    match a
    case OfService(b) => State(Service.After(s.service, b), ReadersAfter(s, b))
    case OfReader(t, b) => s.(readers := s.readers[t := Lanes.After(s.readers[t], b)])
  }

  ghost predicate Step(s: State, a: Action, s': State) {
    Enabled(s, a) && s' == After(s, a)
  }

  ghost predicate Run(states: seq<State>, actions: seq<Action>) {
    && |states| == |actions| + 1
    && states[0] == INITIAL
    && forall i | 0 <= i < |actions| :: Step(states[i], actions[i], states[i + 1])
  }

  /** The statuses of a node id that the receive loop has sent to a stream, in order. */
  ghost function SentOn(trace: seq<Service.Event>, t: Stream, n: Nid): seq<SFUStatus> {
    if trace == [] then []
    else
      var e := trace[|trace| - 1];
      SentOn(trace[..|trace| - 1], t, n) +
        if e.Sent? && e.to == t && StatusKey(e.status) == n then [e.status] else []
  }

  lemma SentOnGrows(trace: seq<Service.Event>, e: Service.Event, t: Stream, n: Nid)
    ensures SentOn(trace + [e], t, n) ==
      SentOn(trace, t, n) + if e.Sent? && e.to == t && StatusKey(e.status) == n then [e.status] else []
  {
    assert (trace + [e])[..|trace|] == trace;
  }

  ghost function Pushed(s: State, t: Stream, n: Nid): seq<SFUStatus> {
    if t in s.readers && n in s.readers[t].lanes then s.readers[t].lanes[n].pushed else []
  }

  /** The readers that were started, those that wait for a message, and those that have ended. */
  ghost predicate Coupled(s: State) {
    && (forall t :: t in s.readers <==> t in s.service.reader && s.service.reader[t] != Service.NotStarted)
    && (forall t | t in s.readers && s.service.reader[t] == Service.Idle :: s.readers[t].pc.Idle?)
    && (forall t | t in s.readers :: s.readers[t].pc.Closed? <==> s.service.reader[t] == Service.Exited)
  }

  ghost predicate LanesGood(readers: map<Stream, Lanes.State>) {
    forall t | t in readers :: Lanes.Inv(readers[t])
  }

  /** A reader has exactly what was sent to its stream. */
  ghost predicate AllPushed(s: State) {
    forall t, n :: Pushed(s, t, n) == SentOn(s.service.trace, t, n)
  }

  ghost predicate Inv(s: State) {
    Service.Inv(s.service) && Coupled(s) && LanesGood(s.readers) && AllPushed(s)
  }

  /** Whenever the receive loop can deliver in the service alone, it can with the readers too. */
  lemma DeliverIsFree(s: State)
    requires Inv(s) && Service.Enabled(s.service, Service.Deliver)
    ensures Enabled(s, OfService(Service.Deliver))
  {
    assert Service.Channels(s.service);
  }

  lemma CoupledKeptByReader(s: State, b: Service.Action)
    requires Coupled(s) && Enabled(s, OfService(b)) && (b.Deliver? || b.ReaderReady? || b.ReaderExits?)
    ensures Coupled(After(s, OfService(b)))
  {
  }

  lemma CoupledKeptByStream(s: State, b: Service.Action)
    requires Service.Channels(s.service) && Coupled(s) && Enabled(s, OfService(b)) && (b.Open? || b.Serve?)
    ensures Coupled(After(s, OfService(b)))
  {
  }

  lemma CoupledKept(s: State, b: Service.Action)
    requires Service.Channels(s.service) && Coupled(s) && Enabled(s, OfService(b))
    ensures Coupled(After(s, OfService(b)))
  {
    if b.Deliver? || b.ReaderReady? || b.ReaderExits? {
      CoupledKeptByReader(s, b);
    } else if b.Open? || b.Serve? {
      CoupledKeptByStream(s, b);
    } else {
      assert After(s, OfService(b)).service.reader == s.service.reader;
    }
  }

  lemma LanesKept(s: State, b: Service.Action)
    requires LanesGood(s.readers) && Enabled(s, OfService(b))
    ensures LanesGood(ReadersAfter(s, b))
  {
    if b.Deliver? {
      Lanes.InvKept(s.readers[s.service.receiver.to], Lanes.Take(s.service.receiver.status));
    } else if b.ReaderExits? {
      Lanes.InvKept(s.readers[b.s], Lanes.CloseAll);
    }
  }

  /** A delivery is one more event and one more message of the reader. */
  lemma PushedKeptByDeliver(s: State, t: Stream, n: Nid)
    requires Enabled(s, OfService(Service.Deliver)) && Pushed(s, t, n) == SentOn(s.service.trace, t, n)
    ensures var s' := After(s, OfService(Service.Deliver)); Pushed(s', t, n) == SentOn(s'.service.trace, t, n)
  {
    SentOnGrows(s.service.trace, Service.Sent(s.service.receiver.status, s.service.receiver.to), t, n);
  }

  /** A message that is received is an event, but not one of sending. */
  lemma PushedKeptByReceive(s: State, t: Stream, n: Nid)
    requires Enabled(s, OfService(Service.Receive)) && Pushed(s, t, n) == SentOn(s.service.trace, t, n)
    ensures var s' := After(s, OfService(Service.Receive)); Pushed(s', t, n) == SentOn(s'.service.trace, t, n)
  {
    var was, now := s.service.trace, After(s, OfService(Service.Receive)).service.trace;
    if now != was {
      SentOnGrows(was, now[|was|], t, n);
    }
  }

  lemma PushedKept(s: State, b: Service.Action, t: Stream, n: Nid)
    requires Service.Channels(s.service) && Coupled(s) && Enabled(s, OfService(b))
    requires Pushed(s, t, n) == SentOn(s.service.trace, t, n)
    ensures var s' := After(s, OfService(b)); Pushed(s', t, n) == SentOn(s'.service.trace, t, n)
  {
    if b.Deliver? {
      PushedKeptByDeliver(s, t, n);
    } else if b.Receive? {
      PushedKeptByReceive(s, t, n);
    } else {
      assert After(s, OfService(b)).service.trace == s.service.trace;
    }
  }

  lemma ReaderStepKeeps(s: State, t: Stream, b: Lanes.Action)
    requires Coupled(s) && LanesGood(s.readers) && AllPushed(s) && Enabled(s, OfReader(t, b))
    ensures var s' := After(s, OfReader(t, b)); Coupled(s') && LanesGood(s'.readers) && AllPushed(s')
  {
    var s' := After(s, OfReader(t, b));
    Lanes.InvKept(s.readers[t], b);
    forall u, n ensures Pushed(s', u, n) == SentOn(s.service.trace, u, n) {
      assert Pushed(s', u, n) == Pushed(s, u, n);
    }
  }

  lemma InvKept(s: State, a: Action)
    requires Inv(s) && Enabled(s, a)
    ensures Inv(After(s, a))
  {
    match a
    case OfReader(t, b) => ReaderStepKeeps(s, t, b);
    case OfService(b) =>
      Service.InvKept(s.service, b);
      CoupledKept(s, b);
      LanesKept(s, b);
      forall t, n ensures Pushed(After(s, a), t, n) == SentOn(After(s, a).service.trace, t, n) {
        PushedKept(s, b, t, n);
      }
  }

  lemma {:induction false} InvAlways(states: seq<State>, actions: seq<Action>, i: nat)
    requires Run(states, actions) && i < |states|
    ensures Inv(states[i])
  {
    if i > 0 {
      InvAlways(states, actions, i - 1);
      assert Step(states[i - 1], actions[i - 1], states[i]);
      InvKept(states[i - 1], actions[i - 1]);
    } else {
      assert states[0] == INITIAL;
    }
  }

  // ----- Every run of the service is one with the readers -----

  /** The steps of the service in a run. */
  ghost function Served(actions: seq<Action>): seq<Service.Action> {
    if actions == [] then []
    else
      var last := actions[|actions| - 1];
      Served(actions[..|actions| - 1]) + if last.OfService? then [last.act] else []
  }

  /** A run with one more step. */
  lemma Then(states: seq<State>, actions: seq<Action>, a: Action) returns (now: seq<State>, did: seq<Action>)
    requires Run(states, actions) && Enabled(states[|states| - 1], a)
    ensures Run(now, did) && |did| == |actions| + 1 && now[|now| - 1] == After(states[|states| - 1], a)
    ensures Served(did) == Served(actions) + if a.OfService? then [a.act] else []
  {
    now, did := states + [After(states[|states| - 1], a)], actions + [a];
    assert did[..|actions|] == actions;
  }

  /** What a reader does next with the message it has, and how many steps are left at most. */
  ghost function NextOf(pc: Lanes.Pc): Lanes.Action {
    match pc
    case Draining(_) => Lanes.Drain
    case Refilling(_) => Lanes.Refill
    case _ => Lanes.Try
  }

  ghost function Left(pc: Lanes.Pc): nat {
    match pc
    case Trying(_) => 3
    case Draining(_) => 2
    case Refilling(_) => 1
    case _ => 0
  }

  lemma ReaderGoesOn(s: State, t: Stream)
    requires Inv(s) && t in s.readers && !s.readers[t].pc.Idle? && !s.readers[t].pc.Closed?
    ensures var a := OfReader(t, NextOf(s.readers[t].pc));
      && Enabled(s, a) && After(s, a).service == s.service
      && t in After(s, a).readers && !After(s, a).readers[t].pc.Closed?
      && Left(After(s, a).readers[t].pc) < Left(s.readers[t].pc)
  {
    assert Lanes.Inv(s.readers[t]);
    assert Lanes.LaneInv(s.readers[t].lanes[s.readers[t].pc.nid], s.readers[t].pc.nid, s.readers[t].pc);
  }

  /** A reader at work gets ready in at most three steps of its own, which wait for nobody. */
  lemma {:induction false} GetsReady(states: seq<State>, actions: seq<Action>, t: Stream)
    returns (now: seq<State>, did: seq<Action>)
    requires Run(states, actions) && t in states[|states| - 1].readers && !states[|states| - 1].readers[t].pc.Closed?
    ensures Run(now, did) && Served(did) == Served(actions)
    ensures |did| <= |actions| + Left(states[|states| - 1].readers[t].pc)
    ensures now[|now| - 1].service == states[|states| - 1].service && Idle(now[|now| - 1], t)
    decreases Left(states[|states| - 1].readers[t].pc)
  {
    now, did := states, actions;
    var s := states[|states| - 1];
    if !s.readers[t].pc.Idle? {
      InvAlways(states, actions, |states| - 1);
      ReaderGoesOn(s, t);
      now, did := Then(states, actions, OfReader(t, NextOf(s.readers[t].pc)));
      now, did := GetsReady(now, did, t);
    }
  }

  /** What the service alone can do next, it can do here after at most three steps of a reader. */
  lemma SoonEnabled(states: seq<State>, actions: seq<Action>, b: Service.Action)
    returns (now: seq<State>, did: seq<Action>)
    requires Run(states, actions) && Service.Enabled(states[|states| - 1].service, b)
    ensures Run(now, did) && Served(did) == Served(actions) && |did| <= |actions| + 3
    ensures now[|now| - 1].service == states[|states| - 1].service && Enabled(now[|now| - 1], OfService(b))
  {
    now, did := states, actions;
    var s := states[|states| - 1];
    InvAlways(states, actions, |states| - 1);
    assert s.service.taken <= |s.service.pushed|;
    if b.ReaderReady? {
      now, did := GetsReady(states, actions, b.s);
    } else if b.Deliver? {
      DeliverIsFree(s);
    }
  }

  /** So no run of the service is lost: every one is what the service does in a run of both. */
  lemma {:induction false} EveryServiceRunLifts(served: seq<Service.State>, acts: seq<Service.Action>)
    returns (states: seq<State>, actions: seq<Action>)
    requires Service.Run(served, acts)
    ensures Run(states, actions) && Served(actions) == acts && |actions| <= 4 * |acts|
    ensures states[|states| - 1].service == served[|acts|]
    decreases |acts|
  {
    if acts == [] {
      states, actions := [INITIAL], [];
    } else {
      var n := |acts| - 1;
      states, actions := EveryServiceRunLifts(served[..n + 1], acts[..n]);
      assert Service.Step(served[n], acts[n], served[n + 1]);
      states, actions := SoonEnabled(states, actions, acts[n]);
      states, actions := Then(states, actions, OfService(acts[n]));
      assert acts == acts[..n] + [acts[n]];
    }
  }

  /** The statuses of a node id given to sig.Send of a stream are a subsequence of those that the
      receive loop sent to that stream; and unless the reader is just putting one of them, the
      last one sent is buffered or is the last one given. */
  lemma GivenIsSubsequenceOfSent(states: seq<State>, actions: seq<Action>, i: nat, t: Stream, n: Nid)
    requires Run(states, actions) && i < |states|
    requires t in states[i].readers && n in states[i].readers[t].lanes
    ensures var l, sent := states[i].readers[t].lanes[n], SentOn(states[i].service.trace, t, n);
      && sent != [] && l.pushed == sent
      && Lanes.Within(l.given, 0, |l.pushed|)
      && Lanes.Subsequence(Lanes.Picked(l.pushed, l.given), sent)
      && (!Lanes.AtWork(states[i].readers[t].pc, n) ==> Lanes.NewestKept(l, |sent|))
  {
    InvAlways(states, actions, i);
    var s := states[i];
    assert Pushed(s, t, n) == SentOn(s.service.trace, t, n);
    assert Lanes.LaneInv(s.readers[t].lanes[n], n, s.readers[t].pc);
    Lanes.PickedIsSubsequence(s.readers[t].lanes[n].pushed, s.readers[t].lanes[n].given);
  }
}
