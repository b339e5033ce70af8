/** pkg/isglb/service.go as a whole: any number of concurrent SyncSFU calls, their send
    channels and reader goroutines, the shared message queue and the one receive loop.
    The algorithm is arbitrary: it may return any list of statuses. */
module IsglbSystem {
  import opened Options
  import opened Proto
  import opened SetMaps
  import opened IsglbRecv

  const QUEUE_CAPACITY := 4096

  /** How far a call of SyncSFU has come: its channel is in sendChs; its reader and the starter
      of the receive loop are running and it receives requests; Recv has failed; its channel is
      closed and out of sendChs; its delete message is pushed and it has returned. */
  datatype Phase = Registered | Serving | Leaving | Unregistered | Gone

  /** The goroutine routineSFUStatusSend of a stream. */
  datatype Reader = NotStarted | Idle | Busy | Exited

  /** Where the receive loop is; while it is Sending it holds the read lock of sendChs. */
  datatype Receiver =
    | NotRunning
    | Receiving
    | Dispatching(todo: map<Nid, SFUStatus>)
    | Sending(todo: map<Nid, SFUStatus>, status: SFUStatus, to: Stream)

  /** What happened to the latest status of a node id. */
  datatype Event =
    | Received(status: SFUStatus)
    | Sent(status: SFUStatus, to: Stream)

  /** `pushed` are all messages ever put into recvCh, of which the first `taken` are consumed;
      `open` are the send channels made and not closed; `starters` are the goroutines of
      SingleExec.Do that have not tried to take the token yet. */
  datatype State = State(
    phase: map<Stream, Phase>,
    sendChs: set<Stream>,
    open: set<Stream>,
    reader: map<Stream, Reader>,
    token: bool,
    starters: nat,
    pushed: seq<Msg>,
    taken: nat,
    receiver: Receiver,
    core: Core,
    trace: seq<Event>,
    panicked: bool)

  datatype Action =
    | Open(s: Stream)
    | Serve(s: Stream)
    | Starter
    | Request(s: Stream, request: Request)
    | Leave(s: Stream)
    | Unregister(s: Stream)
    | PushDeleted(s: Stream)
    | ReaderExits(s: Stream)
    | ReaderReady(s: Stream)
    | Receive
    | EndBatch(statuss: seq<SFUStatus>, reports: seq<QualityReport>, expected: seq<SFUStatus>)
    | Skip(nid: Nid)
    | BeginSend(nid: Nid, s: Stream)
    | Deliver
    | NextRound

  ghost const INITIAL := State(map[], {}, {}, map[], true, 0, [], 0, NotRunning, START, [], false)

  ghost predicate In(s: State, t: Stream, p: Phase) {
    t in s.phase && s.phase[t] == p
  }

  ghost predicate WriteLockFree(s: State) {
    !s.receiver.Sending?
  }

  ghost predicate Enabled(s: State, a: Action) {
    match a
    case Open(t) => t !in s.phase && WriteLockFree(s)
    case Serve(t) => In(s, t, Registered)
    case Starter => s.starters > 0
    case Request(t, _) => In(s, t, Serving) && |s.pushed| - s.taken < QUEUE_CAPACITY
    case Leave(t) => In(s, t, Serving)
    case Unregister(t) => In(s, t, Leaving) && WriteLockFree(s)
    case PushDeleted(t) => In(s, t, Unregistered) && |s.pushed| - s.taken < QUEUE_CAPACITY
    case ReaderExits(t) => t in s.reader && s.reader[t] == Idle && t !in s.open
    case ReaderReady(t) => t in s.reader && s.reader[t] == Busy
    case Receive => s.receiver.Receiving? && s.taken < |s.pushed|
    case EndBatch(statuss, reports, _) =>
      s.receiver.Receiving? && s.core.count > 0 && s.taken == |s.pushed|
      && Lists(statuss, s.core.latest.Values) && Lists(reports, s.core.reports)
    case Skip(nid) =>
      s.receiver.Dispatching? && nid in s.receiver.todo
      && (|| Unchanged(s.core, s.receiver.todo[nid])
          || nid !in s.core.where
          || exists t :: Has(s.core.where, nid, t) && t !in s.sendChs)
    case BeginSend(nid, t) =>
      s.receiver.Dispatching? && nid in s.receiver.todo
      && !Unchanged(s.core, s.receiver.todo[nid])
      && Has(s.core.where, nid, t) && t in s.sendChs
    case Deliver =>
      s.receiver.Sending? && (s.receiver.to in s.open ==>
        s.receiver.to in s.reader && s.reader[s.receiver.to] == Idle)
    case NextRound => s.receiver.Dispatching? && s.receiver.todo == map[]
  }

  ghost function After(s: State, a: Action): State
    requires s.taken <= |s.pushed| && Enabled(s, a)
  {
    match a
    case Open(t) =>
      s.(phase := s.phase[t := Registered], sendChs := s.sendChs + {t}, open := s.open + {t},
         reader := s.reader[t := NotStarted])
    case Serve(t) =>
      s.(phase := s.phase[t := Serving], reader := s.reader[t := Idle], starters := s.starters + 1)
    case Starter =>
      if s.token then s.(starters := s.starters - 1, token := false, receiver := Receiving, core := START)
      else s.(starters := s.starters - 1)
    case Request(t, r) => s.(pushed := s.pushed + [Requested(r, t)])
    case Leave(t) => s.(phase := s.phase[t := Leaving])
    case Unregister(t) =>
      var s' := s.(phase := s.phase[t := Unregistered]);
      if t !in s.sendChs then s'
      else s'.(open := s.open - {t}, sendChs := s.sendChs - {t}, panicked := s.panicked || t !in s.open)
    case PushDeleted(t) => s.(phase := s.phase[t := Gone], pushed := s.pushed + [Deleted(t)])
    case ReaderExits(t) => s.(reader := s.reader[t := Exited])
    case ReaderReady(t) => s.(reader := s.reader[t := Idle])
    case Receive =>
      var msg := s.pushed[s.taken];
      s.(core := Consume(s.core, msg), taken := s.taken + 1,
         trace := s.trace + if IsStatus(msg) then [Received(msg.request.status)] else [])
    case EndBatch(_, _, expected) => s.(receiver := Dispatching(LastByNid(expected)))
    case Skip(nid) => s.(receiver := Dispatching(s.receiver.todo - {nid}))
    case BeginSend(nid, t) => s.(receiver := Sending(s.receiver.todo - {nid}, s.receiver.todo[nid], t))
    case Deliver =>
      if s.receiver.to !in s.open then s.(panicked := true)
      else s.(core := Send(s.core, s.receiver.status), trace := s.trace + [Sent(s.receiver.status, s.receiver.to)],
              reader := s.reader[s.receiver.to := Busy], receiver := Dispatching(s.receiver.todo))
    case NextRound => s.(receiver := Receiving, core := s.core.(reports := {}, count := 0))
  }

  ghost predicate IsStatus(m: Msg) {
    m.Requested? && m.request.StatusRequest?
  }

  ghost predicate Step(s: State, a: Action, s': State) {
    s.taken <= |s.pushed| && Enabled(s, a) && s' == After(s, a)
  }

  /** A run of the whole service from its start. */
  ghost predicate Run(states: seq<State>, actions: seq<Action>) {
    && |states| == |actions| + 1
    && states[0] == INITIAL
    && forall i | 0 <= i < |actions| :: Step(states[i], actions[i], states[i + 1])
  }

  // ----- Invariants -----

  /** Channels, readers and the receiver token. */
  ghost predicate Channels(s: State) {
    && !s.panicked
    && s.sendChs == s.open
    && (forall t :: t in s.open <==> t in s.phase && s.phase[t] in {Registered, Serving, Leaving})
    && s.reader.Keys == s.phase.Keys
    && (forall t | t in s.phase :: s.reader[t] == NotStarted <==> s.phase[t] == Registered)
    && (forall t | t in s.phase :: s.reader[t] == Exited ==> t !in s.open)
    && (s.token <==> s.receiver.NotRunning?)
    && (s.receiver.Sending? ==> s.receiver.to in s.open)
    && (s.token && s.starters == 0 ==> forall t | t in s.phase :: s.phase[t] == Registered)
  }

  /** The queue is in order: the delete message of a stream is its last message. */
  ghost predicate Queue(s: State) {
    && s.taken <= |s.pushed|
    && (s.token ==> s.taken == 0)
    && (forall t :: Deleted(t) in s.pushed <==> In(s, t, Gone))
    && (forall i | 0 <= i < |s.pushed| :: s.pushed[i].sig in s.phase)
    && (forall i, j | 0 <= i < j < |s.pushed| :: s.pushed[i].Deleted? ==> s.pushed[j].sig != s.pushed[i].sig)
  }

  ghost predicate Reported(msgs: seq<Msg>, n: Nid, t: Stream) {
    exists i | 0 <= i < |msgs| :: IsStatusOf(msgs[i], n, t)
  }

  ghost predicate IsStatusOf(m: Msg, n: Nid, t: Stream) {
    IsStatus(m) && m.sig == t && StatusKey(m.request.status) == n
  }

  /** The relation is exactly what the consumed messages say, and the table goes with it. */
  ghost predicate Table(s: State)
    requires s.taken <= |s.pushed|
  {
    && Tracked(s.core)
    && (forall n, t :: Has(s.core.where, n, t) <==>
          Reported(s.pushed[..s.taken], n, t) && Deleted(t) !in s.pushed[..s.taken])
    && (s.receiver.Dispatching? || s.receiver.Sending? ==>
          forall n | n in s.receiver.todo :: StatusKey(s.receiver.todo[n]) == n)
    && (s.receiver.Sending? ==>
          && Has(s.core.where, StatusKey(s.receiver.status), s.receiver.to)
          && !Unchanged(s.core, s.receiver.status))
  }

  /** The last event of a node id that is about `n`. */
  ghost function LastValue(trace: seq<Event>, n: Nid): Option<SFUStatus> {
    if trace == [] then None
    else if StatusKey(trace[|trace| - 1].status) == n then Some(trace[|trace| - 1].status)
    else LastValue(trace[..|trace| - 1], n)
  }

  ghost predicate DifferentBetween(trace: seq<Event>, i: nat, j: nat)
    requires i < j < |trace|
  {
    exists k | i < k < j :: StatusKey(trace[k].status) == StatusKey(trace[i].status)
                         && trace[k].status != trace[i].status
  }

  ghost predicate NoRepeatedSend(trace: seq<Event>) {
    forall i, j | 0 <= i < j < |trace| && trace[i].Sent? && trace[j].Sent? && trace[i].status == trace[j].status ::
      DifferentBetween(trace, i, j)
  }

  ghost predicate History(s: State) {
    && (forall n | n in s.core.latest :: LastValue(s.trace, n) == Some(s.core.latest[n]))
    && NoRepeatedSend(s.trace)
  }

  ghost predicate Inv(s: State) {
    Queue(s) && Channels(s) && Table(s) && History(s)
  }

  ghost predicate OfStream(a: Action) {
    a.Open? || a.Serve? || a.Request? || a.Leave? || a.Unregister? || a.PushDeleted?
  }

  lemma ChannelsKeptByStream(s: State, a: Action)
    requires Queue(s) && Channels(s) && Enabled(s, a) && OfStream(a)
    ensures Channels(After(s, a))
  {
  }

  lemma ChannelsKept(s: State, a: Action)
    requires Queue(s) && Channels(s) && Enabled(s, a)
    ensures Channels(After(s, a))
  {
    if OfStream(a) {
      ChannelsKeptByStream(s, a);
    }
  }

  lemma QueueKeptByPush(s: State, a: Action)
    requires Queue(s) && Channels(s) && Enabled(s, a) && (a.Request? || a.PushDeleted?)
    ensures Queue(After(s, a))
  {
    var m := if a.Request? then Requested(a.request, a.s) else Deleted(a.s);
    assert forall x :: x in After(s, a).pushed <==> x in s.pushed || x == m;
    assert forall i | 0 <= i < |s.pushed| :: s.pushed[i].Deleted? ==> s.pushed[i] in s.pushed;
  }

  lemma QueueKept(s: State, a: Action)
    requires Queue(s) && Channels(s) && Enabled(s, a)
    ensures Queue(After(s, a))
  {
    if a.Request? || a.PushDeleted? {
      QueueKeptByPush(s, a);
    }
  }

  /** What one consumed message does to the pair (n, t). */
  lemma ConsumePair(c: Core, msg: Msg, n: Nid, t: Stream)
    ensures Has(Consume(c, msg).where, n, t) <==>
      (Has(c.where, n, t) || IsStatusOf(msg, n, t)) && msg != Deleted(t)
  {
    if msg.Deleted? {
      DeletedLeaves(c, msg.sig, n, t);
    } else {
      assert Consume(c, msg).where == if IsStatus(msg) then WithPair(c.where, StatusKey(msg.request.status), msg.sig) else c.where;
    }
  }

  lemma NothingAfterDelete(s: State)
    requires Queue(s) && s.taken < |s.pushed|
    ensures Deleted(s.pushed[s.taken].sig) !in s.pushed[..s.taken]
  {
    var was := s.pushed[..s.taken];
    forall i | 0 <= i < |was| ensures was[i] != Deleted(s.pushed[s.taken].sig) {
      assert was[i] == s.pushed[i];
    }
  }

  lemma TableKeptByReceive(s: State)
    requires Queue(s) && Table(s) && Enabled(s, Receive)
    ensures Table(After(s, Receive))
  {
    var msg, s' := s.pushed[s.taken], After(s, Receive);
    var was, now := s.pushed[..s.taken], s'.pushed[..s'.taken];
    assert now == was + [msg];
    ConsumeKeepsTracked(s.core, msg);
    NothingAfterDelete(s);
    forall n, t
      ensures Has(s'.core.where, n, t) <==> Reported(now, n, t) && Deleted(t) !in now
    {
      assert Has(s.core.where, n, t) <==> Reported(was, n, t) && Deleted(t) !in was;
      assert Deleted(t) in now <==> Deleted(t) in was || msg == Deleted(t);
      ReportedGrows(was, msg, n, t);
      ConsumePair(s.core, msg, n, t);
    }
  }

  lemma ReportedGrows(msgs: seq<Msg>, m: Msg, n: Nid, t: Stream)
    ensures Reported(msgs + [m], n, t) <==> Reported(msgs, n, t) || IsStatusOf(m, n, t)
  {
    var all := msgs + [m];
    if i :| 0 <= i < |msgs| && IsStatusOf(msgs[i], n, t) {
      assert IsStatusOf(all[i], n, t);
    }
    if IsStatusOf(m, n, t) {
      assert IsStatusOf(all[|msgs|], n, t);
    }
    if i :| 0 <= i < |all| && IsStatusOf(all[i], n, t) {
      assert i < |msgs| ==> IsStatusOf(msgs[i], n, t);
    }
  }

  lemma TableKept(s: State, a: Action)
    requires Queue(s) && Channels(s) && Table(s) && Enabled(s, a)
    ensures Table(After(s, a))
  {
    var s' := After(s, a);
    if a.Receive? {
      TableKeptByReceive(s);
    } else {
      assert s'.pushed[..s'.taken] == s.pushed[..s.taken];
      if a.EndBatch? {
        forall n | n in LastByNid(a.expected) ensures StatusKey(LastByNid(a.expected)[n]) == n {
          LastByNidIs(a.expected, n);
        }
      } else if a.Deliver? {
        SendKeepsTrackedIff(s.core, s.receiver.status);
      } else if a.Starter? && s.token {
        assert s.pushed[..s.taken] == [];
      }
    }
  }

  /** The last event about `n` has the value of LastValue, and all later events are about others. */
  lemma {:induction false} LastValueAt(trace: seq<Event>, n: Nid) returns (m: nat)
    requires LastValue(trace, n).Some?
    ensures m < |trace| && trace[m].status == LastValue(trace, n).value && StatusKey(trace[m].status) == n
    ensures forall i | m < i < |trace| :: StatusKey(trace[i].status) != n
  {
    m := |trace| - 1;
    if StatusKey(trace[m].status) != n {
      var front := trace[..m];
      m := LastValueAt(front, n);
      assert forall i | 0 <= i < |front| :: front[i] == trace[i];
    }
  }

  lemma LastValueGrows(trace: seq<Event>, e: Event, n: Nid)
    ensures LastValue(trace + [e], n) == if StatusKey(e.status) == n then Some(e.status) else LastValue(trace, n)
  {
    assert (trace + [e])[..|trace|] == trace;
  }

  /** A send of a value other than the last one keeps the history free of repeated sends. */
  lemma NoRepeatGrows(trace: seq<Event>, e: Event)
    requires NoRepeatedSend(trace)
    requires e.Sent? ==> LastValue(trace, StatusKey(e.status)).Some?
                         && LastValue(trace, StatusKey(e.status)).value != e.status
    ensures NoRepeatedSend(trace + [e])
  {
    var all := trace + [e];
    forall i, j | 0 <= i < j < |all| && all[i].Sent? && all[j].Sent? && all[i].status == all[j].status
      ensures DifferentBetween(all, i, j)
    {
      if j < |trace| {
        assert trace[i] == all[i] && trace[j] == all[j] && DifferentBetween(trace, i, j);
        var k :| i < k < j && StatusKey(trace[k].status) == StatusKey(trace[i].status)
          && trace[k].status != trace[i].status;
        assert all[k] == trace[k];
      } else {
        var m := LastValueAt(trace, StatusKey(e.status));
        assert trace[i] == all[i] && all[m] == trace[m];
        assert i < m < j;
      }
    }
  }

  lemma HistoryKept(s: State, a: Action)
    requires Inv(s) && Enabled(s, a)
    ensures History(After(s, a))
  {
    var s' := After(s, a);
    if s'.trace == s.trace {
    } else {
      var e := s'.trace[|s.trace|];
      assert s'.trace == s.trace + [e];
      var sending := s.core.latest;
      if e.Sent? {
        assert StatusKey(e.status) in sending;
      }
      NoRepeatGrows(s.trace, e);
      forall n | n in s'.core.latest ensures LastValue(s'.trace, n) == Some(s'.core.latest[n]) {
        LastValueGrows(s.trace, e, n);
      }
    }
  }

  lemma InvKept(s: State, a: Action)
    requires Inv(s) && Enabled(s, a)
    ensures Inv(After(s, a))
  {
    ChannelsKept(s, a);
    QueueKept(s, a);
    TableKept(s, a);
    HistoryKept(s, a);
  }

  lemma {:induction false} InvAlways(states: seq<State>, actions: seq<Action>, i: nat)
    requires Run(states, actions) && i < |states|
    ensures Inv(states[i])
  {
    if i > 0 {
      InvAlways(states, actions, i - 1);
      assert Step(states[i - 1], actions[i - 1], states[i]);
      InvKept(states[i - 1], actions[i - 1]);
    }
  }

  // ----- What holds in every run -----

  /** A status is saved for exactly the node ids with a stream, under its own id, whatever the
      algorithm returned; so node ids that only the algorithm named are never in the table. */
  lemma SavedExactlyForStreams(states: seq<State>, actions: seq<Action>, i: nat)
    requires Run(states, actions) && i < |states|
    ensures Tracked(states[i].core)
    ensures forall n | n in states[i].core.latest :: exists t :: Reported(states[i].pushed, n, t)
  {
    InvAlways(states, actions, i);
    var s := states[i];
    forall n | n in s.core.latest ensures exists t :: Reported(s.pushed, n, t) {
      var t :| t in s.core.where[n];
      assert Has(s.core.where, n, t);
      var k :| 0 <= k < s.taken && IsStatusOf(s.pushed[..s.taken][k], n, t);
      assert IsStatusOf(s.pushed[k], n, t);
      assert Reported(s.pushed, n, t);
    }
  }

  /** A stream is filed under a node id exactly while it has reported that id and its delete
      message is not consumed; that message comes after all its others. */
  lemma FiledExactlyWhileAlive(states: seq<State>, actions: seq<Action>, i: nat, n: Nid, t: Stream)
    requires Run(states, actions) && i < |states|
    ensures states[i].taken <= |states[i].pushed|
    ensures Has(states[i].core.where, n, t) <==>
      Reported(states[i].pushed[..states[i].taken], n, t) && Deleted(t) !in states[i].pushed[..states[i].taken]
    ensures forall k, l | 0 <= k < l < |states[i].pushed| && states[i].pushed[k] == Deleted(t) ::
      states[i].pushed[l].sig != t
  {
    InvAlways(states, actions, i);
  }

  /** Once the delete message of every stream that was ever opened is consumed, nothing is left. */
  lemma AllGoneLeavesNothing(states: seq<State>, actions: seq<Action>, i: nat)
    requires Run(states, actions) && i < |states| && states[i].taken <= |states[i].pushed|
    requires forall t | t in states[i].phase :: Deleted(t) in states[i].pushed[..states[i].taken]
    ensures states[i].core.where == map[] && states[i].core.latest == map[]
  {
    InvAlways(states, actions, i);
    var s := states[i];
    forall n, t ensures !Has(s.core.where, n, t) {
      if k :| 0 <= k < s.taken && IsStatusOf(s.pushed[..s.taken][k], n, t) {
        assert s.pushed[k].sig in s.phase;
      }
    }
    SamePairsSameMap(s.core.where, map[]);
    assert s.core.where.Keys == s.core.latest.Keys == {};
  }

  /** The saved status of a node id is the last one received from or sent to it, and between
      two sends of one status there was another status for that node id. */
  lemma NeverSendsTwiceInARow(states: seq<State>, actions: seq<Action>, i: nat)
    requires Run(states, actions) && i < |states|
    ensures NoRepeatedSend(states[i].trace)
    ensures forall n | n in states[i].core.latest :: LastValue(states[i].trace, n) == Some(states[i].core.latest[n])
  {
    InvAlways(states, actions, i);
  }

  /** No channel is closed twice or sent to after it is closed; sendChs holds exactly the open
      channels, those of the registered streams, and each of them has a reader that runs or that
      the next step of its stream starts. A receive loop starts only when there is
      none yet, and one runs or is about to as soon as a stream receives requests. */
  lemma ChannelsSafe(states: seq<State>, actions: seq<Action>, i: nat)
    requires Run(states, actions) && i < |states|
    ensures !states[i].panicked && states[i].sendChs == states[i].open
    ensures forall t | t in states[i].sendChs ::
      && t in states[i].reader && states[i].reader[t] != Exited
      && (states[i].reader[t] == NotStarted ==> Enabled(states[i], Serve(t)))
    ensures forall t :: t in states[i].sendChs <==>
      In(states[i], t, Registered) || In(states[i], t, Serving) || In(states[i], t, Leaving)
    ensures i + 1 < |states| && actions[i].Starter? && states[i + 1].receiver != states[i].receiver ==>
      states[i].receiver.NotRunning? && states[i].taken == 0
    ensures (exists t :: In(states[i], t, Serving)) ==> !states[i].receiver.NotRunning? || states[i].starters > 0
  {
    InvAlways(states, actions, i);
  }

  /** While the receive loop is blocked in a send with the lock held, the send can complete by
      steps of the reader alone, none of which needs the lock: no cycle of waiting. */
  lemma BlockedSendCompletes(s: State) returns (actions: seq<Action>, states: seq<State>)
    requires Inv(s) && s.receiver.Sending?
    ensures |states| == |actions| + 1 && states[0] == s && |actions| <= 2
    ensures forall i | 0 <= i < |actions| :: Step(states[i], actions[i], states[i + 1])
    ensures forall a | a in actions :: a in {Serve(s.receiver.to), ReaderReady(s.receiver.to), Deliver}
    ensures states[|actions|].receiver == Dispatching(s.receiver.todo)
    ensures states[|actions|].trace == s.trace + [Sent(s.receiver.status, s.receiver.to)]
  {
    var t := s.receiver.to;
    if s.reader[t] == Idle {
      actions, states := [Deliver], [s, After(s, Deliver)];
    } else {
      var a := if s.reader[t] == Busy then ReaderReady(t) else Serve(t);
      var s1 := ReaderTurns(s, a);
      actions, states := [a, Deliver], [s, s1, After(s1, Deliver)];
    }
  }

  /** The reader of the stream that is being sent to gets ready in one step. */
  lemma ReaderTurns(s: State, a: Action) returns (s1: State)
    requires Inv(s) && s.receiver.Sending? && s.reader[s.receiver.to] != Idle
    requires a == if s.reader[s.receiver.to] == Busy then ReaderReady(s.receiver.to) else Serve(s.receiver.to)
    ensures Step(s, a, s1) && Enabled(s1, Deliver) && s1.receiver == s.receiver
    ensures s1.open == s.open && s1.trace == s.trace && s1.taken == s.taken && s1.pushed == s.pushed
  {
    s1 := After(s, a);
  }
}
