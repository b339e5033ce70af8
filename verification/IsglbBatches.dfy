/** pkg/isglb/service.go over whole runs: what is pushed and consumed, what one round of the
    receive loop gives to the algorithm, and that a batch is dispatched to its end. */
module IsglbBatches {
  import opened Options
  import opened Proto
  import opened SetMaps
  import opened IsglbRecv
  import opened IsglbSystem

  /** The messages that the streams pushed, in order. */
  ghost function PushedBy(actions: seq<Action>): seq<Msg> {
    if actions == [] then [] else PushedBy(actions[..|actions| - 1]) + PushOf(actions[|actions| - 1])
  }

  ghost function PushOf(a: Action): seq<Msg> {
    match a
    case Request(t, r) => [Requested(r, t)]
    case PushDeleted(t) => [Deleted(t)]
    case _ => []
  }

  lemma QueueStep(s: State, a: Action, s': State)
    requires Step(s, a, s')
    ensures s'.pushed == s.pushed + PushOf(a)
    ensures s.taken <= s'.taken <= |s'.pushed|
    ensures |s.pushed| - s.taken <= QUEUE_CAPACITY ==> |s'.pushed| - s'.taken <= QUEUE_CAPACITY
  {
  }

  /** The queue holds exactly what was pushed, and never more than its capacity waits in it. */
  lemma {:induction false} QueueIsPushed(states: seq<State>, actions: seq<Action>, i: nat)
    requires Run(states, actions) && i < |states|
    ensures states[i].pushed == PushedBy(actions[..i])
    ensures 0 <= |states[i].pushed| - states[i].taken <= QUEUE_CAPACITY
  {
    if i > 0 {
      QueueIsPushed(states, actions, i - 1);
      QueueStep(states[i - 1], actions[i - 1], states[i]);
      assert actions[..i][..i - 1] == actions[..i - 1];
    }
  }

  /** The receive loop starts, or goes back for the messages of the next batch. */
  ghost predicate BeginsRound(s: State, a: Action) {
    a.NextRound? || (a.Starter? && s.token)
  }

  /** The round that goes on in state i began in state j. */
  ghost predicate RoundSince(states: seq<State>, actions: seq<Action>, j: nat, i: nat)
    requires |states| == |actions| + 1 && i < |states|
  {
    && 0 < j <= i && BeginsRound(states[j - 1], actions[j - 1])
    && forall k | j <= k < i :: !BeginsRound(states[k], actions[k])
  }

  lemma {:induction false} QueueGrows(states: seq<State>, actions: seq<Action>, j: nat, i: nat)
    requires Run(states, actions) && j <= i < |states|
    ensures states[j].pushed <= states[i].pushed && states[j].taken <= states[i].taken <= |states[i].pushed|
  {
    if j < i {
      QueueGrows(states, actions, j, i - 1);
      QueueStep(states[i - 1], actions[i - 1], states[i]);
    } else {
      InvAlways(states, actions, i);
    }
  }

  lemma BeginningIsEmpty(s: State, a: Action, s': State)
    requires Step(s, a, s') && BeginsRound(s, a)
    ensures s'.core.reports == {} && s'.core.count == 0
  {
  }

  /** The saved reports are those of the messages consumed since the round began. */
  lemma {:induction false} ReportsOfRound(states: seq<State>, actions: seq<Action>, j: nat, i: nat, q: QualityReport)
    requires Run(states, actions) && j <= i < |states| && RoundSince(states, actions, j, i)
    ensures states[j].taken <= states[i].taken <= |states[i].pushed|
    ensures q in states[i].core.reports <==> Consumed(states[i], states[j].taken, q)
  {
    QueueGrows(states, actions, j, i);
    if j == i {
      BeginningIsEmpty(states[j - 1], actions[j - 1], states[j]);
    } else {
      ReportsOfRound(states, actions, j, i - 1, q);
      ReportsStep(states[i - 1], actions[i - 1], states[i], states[j].taken, q);
    }
  }

  /** Some message from position `from` on that is consumed carries the report. */
  ghost predicate Consumed(s: State, from: nat, q: QualityReport)
    requires s.taken <= |s.pushed|
  {
    exists k | from <= k < s.taken :: Carries(s.pushed[k], q)
  }

  lemma ReportsStep(s: State, a: Action, s': State, from: nat, q: QualityReport)
    requires Step(s, a, s') && from <= s.taken && !BeginsRound(s, a)
    requires q in s.core.reports <==> Consumed(s, from, q)
    ensures s'.taken <= |s'.pushed| && (q in s'.core.reports <==> Consumed(s', from, q))
  {
    QueueStep(s, a, s');
    assert forall k | 0 <= k < |s.pushed| :: s'.pushed[k] == s.pushed[k];
    if a.Receive? {
      ReportsAfter(s.core, s.pushed[s.taken], q);
      assert Consumed(s', from, q) <==> Consumed(s, from, q) || Carries(s'.pushed[s.taken], q);
    } else {
      ReportsKept(s, a, s');
    }
  }

  lemma ReportsKept(s: State, a: Action, s': State)
    requires Step(s, a, s') && !BeginsRound(s, a) && !a.Receive?
    ensures s'.core.reports == s.core.reports && s'.core.count == s.core.count && s'.taken == s.taken
  {
  }

  /** What the algorithm is given: once each the statuses last received or sent of exactly the
      node ids with a stream, and the distinct reports of the messages of this round. */
  lemma BatchIs(states: seq<State>, actions: seq<Action>, j: nat, i: nat)
    requires Run(states, actions) && j <= i < |actions| && RoundSince(states, actions, j, i) && actions[i].EndBatch?
    ensures states[j].taken <= states[i].taken == |states[i].pushed|
    ensures exists k | j <= k < i :: Changes(states[k], actions[k], states[k + 1])
    ensures forall q :: q in actions[i].reports <==> Consumed(states[i], states[j].taken, q)
    ensures forall st :: st in actions[i].statuss <==>
      StatusKey(st) in states[i].core.where && LastValue(states[i].trace, StatusKey(st)) == Some(st)
    ensures forall k, l | 0 <= k < l < |actions[i].reports| :: actions[i].reports[k] != actions[i].reports[l]
    ensures forall k, l | 0 <= k < l < |actions[i].statuss| :: actions[i].statuss[k] != actions[i].statuss[l]
  {
    assert Step(states[i], actions[i], states[i + 1]);
    InvAlways(states, actions, i);
    QueueGrows(states, actions, j, i);
    CountOfRound(states, actions, j, i);
    forall q ensures q in actions[i].reports <==> Consumed(states[i], states[j].taken, q)
    {
      ReportsOfRound(states, actions, j, i, q);
    }
    var c := states[i].core;
    forall st ensures st in actions[i].statuss <==>
      StatusKey(st) in c.where && LastValue(states[i].trace, StatusKey(st)) == Some(st)
    {
      assert st in c.latest.Values <==> StatusKey(st) in c.latest && c.latest[StatusKey(st)] == st;
    }
  }

  ghost predicate Changes(s: State, a: Action, s': State) {
    a.Receive? && (s'.core.latest != s.core.latest || s'.core.reports != s.core.reports)
  }

  lemma CountStep(s: State, a: Action, s': State)
    requires Inv(s) && Step(s, a, s') && !BeginsRound(s, a)
    ensures s.core.count <= s'.core.count
    ensures Changes(s, a, s') <==> s.core.count < s'.core.count
  {
    if a.Receive? {
      CountedIffChanged(s.core, s.pushed[s.taken]);
    } else {
      ReportsKept(s, a, s');
    }
  }

  /** The count of a round is positive, and so the algorithm runs, exactly if a message of the
      round changed the table or the reports. */
  lemma {:induction false} CountOfRound(states: seq<State>, actions: seq<Action>, j: nat, i: nat)
    requires Run(states, actions) && j <= i < |states| && RoundSince(states, actions, j, i)
    ensures states[i].core.count > 0 <==>
      exists k | j <= k < i :: Changes(states[k], actions[k], states[k + 1])
  {
    if j == i {
      BeginningIsEmpty(states[j - 1], actions[j - 1], states[j]);
    } else {
      CountOfRound(states, actions, j, i - 1);
      InvAlways(states, actions, i - 1);
      CountStep(states[i - 1], actions[i - 1], states[i]);
      if k :| j <= k < i && Changes(states[k], actions[k], states[k + 1]) {
        assert k < i - 1 || k == i - 1;
      }
    }
  }

  ghost predicate Handles(a: Action, n: Nid) {
    (a.Skip? && a.nid == n) || (a.BeginSend? && a.nid == n)
  }

  ghost predicate Handled(actions: seq<Action>, j: nat, i: nat, n: Nid)
    requires i <= |actions|
  {
    exists k | j < k < i :: Handles(actions[k], n)
  }

  /** The batch of step j goes on in state i. */
  ghost predicate BatchSince(actions: seq<Action>, j: nat, i: nat) {
    && j < i <= |actions| && actions[j].EndBatch?
    && forall k | j < k < i :: !actions[k].NextRound?
  }

  ghost predicate InBatch(s: State) {
    s.receiver.Dispatching? || s.receiver.Sending?
  }

  /** One step of a batch that is not its end. */
  lemma BatchStep(s: State, a: Action, s': State)
    requires Channels(s) && Step(s, a, s') && InBatch(s) && !a.NextRound?
    ensures InBatch(s')
    ensures forall n :: n in s'.receiver.todo <==> n in s.receiver.todo && !Handles(a, n)
    ensures forall n | n in s'.receiver.todo :: s'.receiver.todo[n] == s.receiver.todo[n]
    ensures s'.receiver.Sending? ==>
      || (s.receiver.Sending? && s'.receiver.status == s.receiver.status)
      || (a.BeginSend? && a.nid in s.receiver.todo && s'.receiver.status == s.receiver.todo[a.nid])
  {
  }

  lemma HandledGrows(actions: seq<Action>, j: nat, i: nat, n: Nid)
    requires j < i < |actions|
    ensures Handled(actions, j, i + 1, n) <==> Handled(actions, j, i, n) || Handles(actions[i], n)
  {
    if k :| j < k < i + 1 && Handles(actions[k], n) {
      assert k < i || k == i;
    }
  }

  /** Exactly the node ids of the dictionary that are not handled yet are still to come, each with
      its status; what is being sent is the status of one that is. */
  ghost predicate BatchAt(s: State, dict: map<Nid, SFUStatus>, actions: seq<Action>, j: nat, i: nat)
    requires i <= |actions|
  {
    && InBatch(s)
    && (forall n :: n in s.receiver.todo <==> n in dict && !Handled(actions, j, i, n))
    && (forall n | n in s.receiver.todo :: s.receiver.todo[n] == dict[n])
    && (s.receiver.Sending? ==>
          exists n | n in dict :: dict[n] == s.receiver.status && Handled(actions, j, i, n))
  }

  lemma BatchBegins(s: State, actions: seq<Action>, j: nat, s': State)
    requires j < |actions| && actions[j].EndBatch? && Step(s, actions[j], s')
    ensures BatchAt(s', LastByNid(actions[j].expected), actions, j, j + 1)
  {
    var i := j + 1;
    forall n ensures !Handled(actions, j, i, n) {
    }
  }

  lemma BatchOneMore(s: State, dict: map<Nid, SFUStatus>, actions: seq<Action>, j: nat, i: nat, s': State)
    requires j < i < |actions| && BatchAt(s, dict, actions, j, i)
    requires Channels(s) && Step(s, actions[i], s') && !actions[i].NextRound?
    ensures BatchAt(s', dict, actions, j, i + 1)
  {
    BatchStep(s, actions[i], s');
    forall n ensures Handled(actions, j, i + 1, n) <==> Handled(actions, j, i, n) || Handles(actions[i], n) {
      HandledGrows(actions, j, i, n);
    }
    if s'.receiver.Sending? && !s.receiver.Sending? {
      assert Handled(actions, j, i + 1, actions[i].nid);
    }
  }

  /** While a batch is dispatched, what is to come and what is being sent is as said above, with
      the last status that the algorithm gave for each node id. */
  lemma {:induction false} BatchGoesOn(states: seq<State>, actions: seq<Action>, j: nat, i: nat)
    requires Run(states, actions) && BatchSince(actions, j, i)
    ensures BatchAt(states[i], LastByNid(actions[j].expected), actions, j, i)
  {
    assert Step(states[i - 1], actions[i - 1], states[i]);
    if i == j + 1 {
      BatchBegins(states[j], actions, j, states[i]);
    } else {
      BatchGoesOn(states, actions, j, i - 1);
      InvAlways(states, actions, i - 1);
      BatchOneMore(states[i - 1], LastByNid(actions[j].expected), actions, j, i - 1, states[i]);
    }
  }

  /** When the loop goes on to the next round, every node id of the dictionary was handled. */
  lemma BatchCompletes(states: seq<State>, actions: seq<Action>, j: nat, i: nat, n: Nid)
    requires Run(states, actions) && i < |actions| && BatchSince(actions, j, i) && actions[i].NextRound?
    requires n in LastByNid(actions[j].expected)
    ensures exists k | j < k < i :: Handles(actions[k], n)
    ensures forall k, l | j < k < l < i :: !(Handles(actions[k], n) && Handles(actions[l], n))
  {
    assert Step(states[i], actions[i], states[i + 1]);
    BatchGoesOn(states, actions, j, i);
    forall k, l | j < k < l < i ensures !(Handles(actions[k], n) && Handles(actions[l], n)) {
      BatchGoesOn(states, actions, j, l);
      assert Step(states[l], actions[l], states[l + 1]);
    }
  }

  lemma FiledIsKnown(s: State, n: Nid, t: Stream)
    requires Inv(s) && Has(s.core.where, n, t)
    ensures t in s.phase
  {
    var k :| 0 <= k < s.taken && IsStatusOf(s.pushed[..s.taken][k], n, t);
    assert s.pushed[k].sig in s.phase;
  }

  ghost predicate IsOver(s: State, t: Stream) {
    In(s, t, Unregistered) || In(s, t, Gone)
  }

  /** A status is skipped only if it is the one last received from or sent to its node id, or the
      id has no stream, or a stream of it is unregistered already. */
  lemma SkippedOnlyFor(states: seq<State>, actions: seq<Action>, j: nat, i: nat)
    requires Run(states, actions) && i < |actions| && BatchSince(actions, j, i) && actions[i].Skip?
    ensures var n, s, dict := actions[i].nid, states[i], LastByNid(actions[j].expected);
      && n in dict
      && (|| LastValue(s.trace, n) == Some(dict[n])
          || (forall t :: !Has(s.core.where, n, t))
          || (exists t :: Has(s.core.where, n, t) && IsOver(s, t)))
  {
    assert Step(states[i], actions[i], states[i + 1]);
    InvAlways(states, actions, i);
    BatchGoesOn(states, actions, j, i);
    var s, n := states[i], actions[i].nid;
    assert StatusKey(s.receiver.todo[n]) == n;
    if n in s.core.where && !Unchanged(s.core, s.receiver.todo[n]) {
      var t :| Has(s.core.where, n, t) && t !in s.sendChs;
      FiledIsKnown(s, n, t);
      assert IsOver(s, t);
    }
  }

  /** A status is sent only to a stream of its node id that is still registered, and only if it
      is not the one last received from or sent to that id. */
  lemma SentOnlyTo(states: seq<State>, actions: seq<Action>, j: nat, i: nat)
    requires Run(states, actions) && i < |actions| && BatchSince(actions, j, i) && actions[i].BeginSend?
    ensures var n, t, s, dict := actions[i].nid, actions[i].s, states[i], LastByNid(actions[j].expected);
      && n in dict && Has(s.core.where, n, t) && !IsOver(s, t)
      && LastValue(s.trace, n) != Some(dict[n])
  {
    assert Step(states[i], actions[i], states[i + 1]);
    InvAlways(states, actions, i);
    BatchGoesOn(states, actions, j, i);
    var s, n := states[i], actions[i].nid;
    assert StatusKey(s.receiver.todo[n]) == n && n in s.core.latest;
  }

  /** The dispatch is never stuck: each node id to come can be skipped or sent to some stream. */
  lemma DispatchNeverStuck(s: State, n: Nid)
    requires Inv(s) && s.receiver.Dispatching? && n in s.receiver.todo
    ensures Enabled(s, Skip(n)) || exists t :: Enabled(s, BeginSend(n, t))
  {
    if n in s.core.where {
      var t :| t in s.core.where[n];
      assert Has(s.core.where, n, t);
      assert t in s.sendChs && !Unchanged(s.core, s.receiver.todo[n]) ==> Enabled(s, BeginSend(n, t));
    }
  }

  // ----- The life of a stream -----

  /** The order of what a call of SyncSFU does: it can only repeat receiving requests. */
  ghost function RankOf(a: Action, t: Stream): nat {
    match a
    case Open(u) => if u == t then 1 else 0
    case Serve(u) => if u == t then 2 else 0
    case Request(u, _) => if u == t then 3 else 0
    case Leave(u) => if u == t then 4 else 0
    case Unregister(u) => if u == t then 5 else 0
    case PushDeleted(u) => if u == t then 6 else 0
    case _ => 0
  }

  ghost function PhaseRank(s: State, t: Stream): nat {
    if t !in s.phase then 0
    else
      match s.phase[t]
      case Registered => 1
      case Serving => 2
      case Leaving => 4
      case Unregistered => 5
      case Gone => 6
  }

  lemma PhaseOfOther(s: State, a: Action, s': State, t: Stream)
    requires Step(s, a, s') && RankOf(a, t) == 0
    ensures PhaseRank(s, t) == PhaseRank(s', t)
  {
  }

  lemma PhaseStep(s: State, a: Action, s': State, t: Stream)
    requires Step(s, a, s')
    ensures PhaseRank(s, t) <= PhaseRank(s', t)
    ensures RankOf(a, t) > 0 ==>
      if RankOf(a, t) == 3 then PhaseRank(s, t) == 2 == PhaseRank(s', t)
      else PhaseRank(s, t) < RankOf(a, t) == PhaseRank(s', t)
  {
    if RankOf(a, t) == 0 {
      PhaseOfOther(s, a, s', t);
    }
  }

  lemma {:induction false} PhaseGrows(states: seq<State>, actions: seq<Action>, j: nat, i: nat, t: Stream)
    requires Run(states, actions) && j <= i < |states|
    ensures PhaseRank(states[j], t) <= PhaseRank(states[i], t)
  {
    if j < i {
      PhaseGrows(states, actions, j, i - 1, t);
      PhaseStep(states[i - 1], actions[i - 1], states[i], t);
    }
  }

  /** Every stream is opened, served, left, unregistered and deleted in this order and once each;
      requests come only while it is served. */
  lemma LifeOfStream(states: seq<State>, actions: seq<Action>, k: nat, l: nat, t: Stream)
    requires Run(states, actions) && k < l < |actions| && RankOf(actions[k], t) > 0 && RankOf(actions[l], t) > 0
    ensures RankOf(actions[k], t) < RankOf(actions[l], t) || (actions[k].Request? && actions[l].Request?)
  {
    PhaseStep(states[k], actions[k], states[k + 1], t);
    PhaseGrows(states, actions, k + 1, l, t);
    PhaseStep(states[l], actions[l], states[l + 1], t);
  }

  ghost function StarterOf(a: Action): int {
    if a.Serve? then 1 else if a.Starter? then -1 else 0
  }

  lemma StarterStep(s: State, a: Action, s': State)
    requires Step(s, a, s')
    ensures s'.starters == s.starters + StarterOf(a)
  {
  }

  /** The goroutines started by SingleExec.Do that have not looked at the token. */
  ghost function StartersOf(actions: seq<Action>): int {
    if actions == [] then 0 else StartersOf(actions[..|actions| - 1]) + StarterOf(actions[|actions| - 1])
  }

  /** Every served stream starts one such goroutine, and each looks once, whatever it finds. */
  lemma {:induction false} StartersAre(states: seq<State>, actions: seq<Action>, i: nat)
    requires Run(states, actions) && i < |states|
    ensures states[i].starters == StartersOf(actions[..i])
  {
    if i > 0 {
      StartersAre(states, actions, i - 1);
      StarterStep(states[i - 1], actions[i - 1], states[i]);
      assert actions[..i][..i - 1] == actions[..i - 1];
    }
  }
}
