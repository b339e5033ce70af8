/** pkg/isglb/service.go, routineSFUStatusRecv: the goroutine that folds the messages of all
    streams into the relation node id <-> stream and the table of latest statuses. */
module IsglbRecv {
  import opened Options
  import opened Proto
  import opened SetMaps
  import opened KeyedLists

  /** The identity of one call of SyncSFU (the pointer to its stream). */
  type Stream = nat

  datatype Msg =
    | Requested(request: Request, sig: Stream)
    | Deleted(sig: Stream)

  /** The variables of the loop: WhereToSend, latestStatus, savedReports, recvCount. */
  datatype Core = Core(where: map<Nid, set<Stream>>, latest: map<Nid, SFUStatus>,
                       reports: set<QualityReport>, count: nat)

  ghost const START := Core(map[], map[], {}, 0)

  /** A status is saved for exactly the node ids that have a stream, and under its own id. */
  ghost predicate Tracked(c: Core) {
    && NoEmptyRow(c.where)
    && c.latest.Keys == c.where.Keys
    && forall n | n in c.latest :: StatusKey(c.latest[n]) == n
  }

  ghost function OnlyOn(where: map<Nid, set<Stream>>, s: Stream): set<Nid> {
    set n | n in where && where[n] == {s}
  }

  ghost predicate Unchanged(c: Core, st: SFUStatus) {
    StatusKey(st) in c.latest && c.latest[StatusKey(st)] == st
  }

  /** What one consumed message does. */
  ghost function Consume(c: Core, msg: Msg): Core {
    match msg
    case Deleted(s) =>
      Core(WithoutValue(c.where, s), c.latest - OnlyOn(c.where, s), c.reports,
           c.count + |OnlyOn(c.where, s)|)
    case Requested(ReportRequest(q), _) =>
      if q in c.reports then c else c.(reports := c.reports + {q}, count := c.count + 1)
    case Requested(StatusRequest(st), s) =>
      var c' := c.(where := WithPair(c.where, StatusKey(st), s));
      if Unchanged(c, st) then c' else c'.(latest := c.latest[StatusKey(st) := st], count := c.count + 1)
    case Requested(EmptyRequest, _) => c
  }

  /** What sending one expected status does: it is recorded as the latest one. */
  ghost function Send(c: Core, st: SFUStatus): Core {
    c.(latest := c.latest[StatusKey(st) := st])
  }

  /** The last status of each node id in a list. */
  ghost function LastByNid(list: seq<SFUStatus>): map<Nid, SFUStatus> {
    MapOf(StatusKey, list)
  }

  /** Exactly the node ids of the list have a value, and it is the last one in the list. */
  lemma LastByNidIs(list: seq<SFUStatus>, n: Nid)
    ensures n in LastByNid(list) <==> exists i | 0 <= i < |list| :: StatusKey(list[i]) == n
    ensures n in LastByNid(list) ==> exists i | 0 <= i < |list| ::
      LastByNid(list)[n] == list[i] && StatusKey(list[i]) == n
      && forall j | i < j < |list| :: StatusKey(list[j]) != n
  {
    if n in LastByNid(list) {
      var i := MapOfAt(StatusKey, list, n);
      assert LastByNid(list)[n] == list[i];
    }
    if i :| 0 <= i < |list| && StatusKey(list[i]) == n {
      MapOfHas(StatusKey, list, list[i]);
    }
  }

  /** Consuming any message keeps the table and the relation in step. In particular the node
      ids that lose their last stream with a deleted one all have a saved status. */
  lemma ConsumeKeepsTracked(c: Core, msg: Msg)
    requires Tracked(c)
    ensures Tracked(Consume(c, msg))
    ensures msg.Deleted? ==> OnlyOn(c.where, msg.sig) <= c.latest.Keys
  {
    if msg.Deleted? {
      forall n ensures n in Consume(c, msg).latest <==> n in Consume(c, msg).where {
        if n in c.where {
          assert c.where[n] - {msg.sig} == {} <==> c.where[n] == {msg.sig};
        }
      }
    }
  }

  ghost predicate Carries(msg: Msg, q: QualityReport) {
    msg.Requested? && msg.request == ReportRequest(q)
  }

  /** A report that a message carries is saved, and no saved one is lost. */
  lemma ReportsAfter(c: Core, msg: Msg, q: QualityReport)
    ensures q in Consume(c, msg).reports <==> q in c.reports || Carries(msg, q)
  {
  }

  /** A reported status is the latest one of its node id, a deleted stream takes away the ids it
      leaves without a stream, and all others keep their status. */
  lemma TableAfter(c: Core, msg: Msg, n: Nid)
    requires Tracked(c)
    ensures var c' := Consume(c, msg);
      if msg.Requested? && msg.request.StatusRequest? && msg.request.status.sfu.nid == n then
        n in c'.latest && c'.latest[n] == msg.request.status
      else
        && (n in c'.latest <==> n in c.latest && (msg.Deleted? ==> exists t | t in c.where[n] :: t != msg.sig))
        && (n in c'.latest ==> c'.latest[n] == c.latest[n])
  {
    if msg.Deleted? && n in c.latest && forall t | t in c.where[n] :: t == msg.sig {
      assert c.where[n] == {msg.sig};
    }
  }

  /** A message is counted, and so makes the loop run the algorithm, exactly when it changes the
      table or the saved reports; a new stream of a known status is not counted. */
  lemma CountedIffChanged(c: Core, msg: Msg)
    requires Tracked(c)
    ensures var c' := Consume(c, msg);
      && c.count <= c'.count
      && (c'.count > c.count <==> c'.latest != c.latest || c'.reports != c.reports)
      && (msg.Deleted? ==> c'.count == c.count + |c.latest.Keys - c'.latest.Keys|)
      && (msg.Requested? ==> c'.count <= c.count + 1)
  {
    if msg.Deleted? {
      DeletionCounted(c, msg.sig);
    } else if msg.request.StatusRequest? {
      var st := msg.request.status;
      assert !Unchanged(c, st) ==> c.latest[StatusKey(st) := st] != c.latest;
    }
  }

  lemma DeletionCounted(c: Core, s: Stream)
    requires Tracked(c)
    ensures var c' := Consume(c, Deleted(s));
      && c'.count == c.count + |c.latest.Keys - c'.latest.Keys|
      && (c'.count > c.count <==> c'.latest != c.latest)
  {
    var gone := OnlyOn(c.where, s);
    assert c.latest.Keys - (c.latest - gone).Keys == gone;
    if gone == {} {
      assert c.latest - gone == c.latest;
    }
  }

  /** After the deletion of a stream no node id is filed with it, and every node id keeps its
      other streams. */
  lemma DeletedLeaves(c: Core, s: Stream, n: Nid, t: Stream)
    ensures Has(Consume(c, Deleted(s)).where, n, t) <==> Has(c.where, n, t) && t != s
  {
    if n in c.where {
      assert t in c.where[n] - {s} <==> t in c.where[n] && t != s;
    }
  }

  /** The two deletions of the code, row by row and then the value, remove just the value. */
  lemma RowsThenValue(where: map<Nid, set<Stream>>, s: Stream)
    ensures WithoutValue(where - OnlyOn(where, s), s) == WithoutValue(where, s)
  {
    forall n | n in where ensures where[n] - {s} == {} <==> where[n] == {} || where[n] == {s} {
    }
  }

  /** Sending keeps them in step exactly when the node id has a stream: that is the guard of
      the branch that sends. */
  lemma SendKeepsTrackedIff(c: Core, st: SFUStatus)
    requires Tracked(c)
    ensures Tracked(Send(c, st)) <==> StatusKey(st) in c.where
  {
    assert Send(c, st).latest.Keys == c.latest.Keys + {StatusKey(st)};
  }

  lemma MinusOneMore<V>(m: map<Nid, V>, done: set<Nid>, n: Nid)
    ensures (m - done) - {n} == m - (done + {n})
  {
  }

  /** The stream a status went to is one of its node id, had a send channel at some dispatch,
      and the status differs from the recorded one. */
  ghost predicate SentRightly(c: Core, st: SFUStatus, s: Stream, sendChs: nat -> set<Stream>) {
    Has(c.where, StatusKey(st), s) && !Unchanged(c, st) && exists i: nat :: s in sendChs(i)
  }

  /** A status is left out only because it is recorded already, its node id has no stream, or
      a stream of it had lost its send channel. */
  ghost predicate SkippedRightly(c: Core, st: SFUStatus, sendChs: nat -> set<Stream>) {
    || Unchanged(c, st)
    || StatusKey(st) !in c.where
    || exists s, i: nat :: Has(c.where, StatusKey(st), s) && s !in sendChs(i)
  }

  /** The sent statuses, and nothing else, are written into the table. */
  ghost predicate Recorded(was: map<Nid, SFUStatus>, now: map<Nid, SFUStatus>,
                           expected: map<Nid, SFUStatus>, sent: map<Nid, Stream>)
  {
    && now.Keys == was.Keys
    && sent.Keys <= expected.Keys
    && forall n | n in now :: now[n] == if n in sent then expected[n] else was[n]
  }

  /** The dispatch of a batch, with the node ids `todo` still to come. */
  ghost predicate Dispatched(c: Core, now: map<Nid, SFUStatus>, expected: map<Nid, SFUStatus>,
                             sent: map<Nid, Stream>, todo: set<Nid>, sendChs: nat -> set<Stream>)
  {
    && sent.Keys <= (expected.Keys - todo) * c.latest.Keys
    && (forall n | n in sent :: SentRightly(c, expected[n], sent[n], sendChs))
    && (forall n | n in expected.Keys - todo - sent.Keys :: SkippedRightly(c, expected[n], sendChs))
    && Recorded(c.latest, now, expected, sent)
  }

  /** One more status of the dispatch is sent, on the stream `to`, or left out. */
  lemma DispatchedStep(c: Core, now: map<Nid, SFUStatus>, expected: map<Nid, SFUStatus>, sent: map<Nid, Stream>,
                       todo: set<Nid>, sendChs: nat -> set<Stream>, nid: Nid, to: Option<Stream>)
    requires Dispatched(c, now, expected, sent, todo, sendChs) && nid in todo && todo <= expected.Keys
    requires if to.Some? then SentRightly(c, expected[nid], to.value, sendChs) && nid in c.latest
             else SkippedRightly(c, expected[nid], sendChs)
    ensures if to.Some? then
              Dispatched(c, now[nid := expected[nid]], expected, sent[nid := to.value], todo - {nid}, sendChs)
            else Dispatched(c, now, expected, sent, todo - {nid}, sendChs)
  {
  }

  class RecvLoop {
    const whereToSend: SetMapaMteS<Nid, Stream>
    var latestStatus: map<Nid, SFUStatus>
    var savedReports: set<QualityReport>
    var recvCount: nat

    ghost function Repr(): set<object> {
      {this, whereToSend, whereToSend.forwardMap, whereToSend.reverse}
    }

    ghost function Abs(): Core
      reads Repr()
    {
      Core(whereToSend.Rel(), latestStatus, savedReports, recvCount)
    }

    ghost predicate Valid()
      reads Repr()
    {
      && whereToSend.Valid()
      && Tracked(Abs())
    }

    constructor ()
      ensures Valid() && fresh(Repr()) && Abs() == START
    {
      whereToSend := new SetMapaMteS<Nid, Stream>();
      latestStatus := map[];
      savedReports := {};
      recvCount := 0;
    }

    /** One pass of the inner loop: lines 129 to 168. */
    method Receive(msg: Msg)
      requires Valid()
      modifies Repr()
      ensures Valid() && Abs() == Consume(old(Abs()), msg)
      ensures forall q :: q in savedReports <==> q in old(savedReports) || Carries(msg, q)
    {
      ConsumeKeepsTracked(Abs(), msg);
      match msg {
        case Deleted(s) => Delete(s);
        case Requested(request, sig) =>
          match request {
            case ReportRequest(report) =>
              if report !in savedReports {
                savedReports := savedReports + {report};
                recvCount := recvCount + 1;
              }
            case StatusRequest(reportedStatus) =>
              var nid := reportedStatus.sfu.nid;
              whereToSend.Add(nid, sig);
              if !(nid in latestStatus && latestStatus[nid] == reportedStatus) {
                latestStatus := latestStatus[nid := reportedStatus];
                recvCount := recvCount + 1;
              }
            case EmptyRequest =>
          }
      }
    }

    method Delete(s: Stream)
      requires Valid()
      modifies Repr()
      ensures Valid() && Abs() == Consume(old(Abs()), Deleted(s))
    {
      ConsumeKeepsTracked(Abs(), Deleted(s));
      RowsThenValue(whereToSend.Rel(), s);
      DeleteRows(s);
      whereToSend.RemoveValue(s);
    }

    /** Lines 130 to 139: the node ids that have no other stream. */
    method DeleteRows(s: Stream)
      requires Valid()
      modifies Repr()
      ensures whereToSend.Valid() && savedReports == old(savedReports)
      ensures var gone := OnlyOn(old(whereToSend.Rel()), s);
        && whereToSend.Rel() == old(whereToSend.Rel()) - gone
        && latestStatus == old(latestStatus) - gone
        && recvCount == old(recvCount) + |gone|
    {
      ghost var gone := OnlyOn(whereToSend.Rel(), s);
      var nids := whereToSend.GetUniqueKeys(s);
      ListsLength(nids, gone);
      ghost var done: set<Nid> := {};
      var i := 0;
      while i < |nids|
        invariant 0 <= i <= |nids|
        invariant forall n :: n in done <==> n in nids[..i]
        invariant whereToSend.Valid() && savedReports == old(savedReports)
        invariant whereToSend.Rel() == old(whereToSend.Rel()) - done
        invariant latestStatus == old(latestStatus) - done
        invariant recvCount == old(recvCount) + i
      {
        var nid := nids[i];
        assert nids[..i + 1] == nids[..i] + [nid] && nid in gone && nid !in nids[..i];
        MinusOneMore(old(whereToSend.Rel()), done, nid);
        MinusOneMore(old(latestStatus), done, nid);
        whereToSend.RemoveKey(nid);
        done := done + {nid};
        if nid in latestStatus {
          latestStatus := latestStatus - {nid};
          recvCount := recvCount + 1;
        } else {
          assert false; // "SFUStatus to be deleted not exists" is never logged
        }
        i := i + 1;
      }
      assert nids[..i] == nids && done == gone;
    }

    /** Lines 176 to 188: copies of all latest statuses and saved reports, in any order. */
    method Collect() returns (statuss: seq<SFUStatus>, reports: seq<QualityReport>)
      requires Valid()
      ensures Lists(statuss, latestStatus.Values) && Lists(reports, savedReports)
    {
      statuss := [];
      var nids := latestStatus.Keys;
      while nids != {}
        invariant nids <= latestStatus.Keys
        invariant Lists(statuss, set n | n in latestStatus.Keys - nids :: latestStatus[n])
      {
        var nid :| nid in nids;
        ghost var done := set n | n in latestStatus.Keys - nids :: latestStatus[n];
        ListsAppend(statuss, done, latestStatus[nid]);
        statuss := statuss + [latestStatus[nid]];
        nids := nids - {nid};
        assert (set n | n in latestStatus.Keys - nids :: latestStatus[n]) == done + {latestStatus[nid]};
      }
      assert (set n | n in latestStatus.Keys :: latestStatus[n]) == latestStatus.Values;
      assert latestStatus.Keys - nids == latestStatus.Keys;
      reports := [];
      var rest := savedReports;
      while rest != {}
        invariant rest <= savedReports
        invariant Lists(reports, savedReports - rest)
      {
        var r :| r in rest;
        ListsAppend(reports, savedReports - rest, r);
        assert savedReports - (rest - {r}) == savedReports - rest + {r};
        reports := reports + [r];
        rest := rest - {r};
      }
      assert savedReports - rest == savedReports;
    }

    /** Lines 196 to 213: one expected status is dropped, sent on a stream of its node id, or
        dropped because the stream taken has no send channel. `sendChs` are the streams that
        have a send channel at that moment. */
    method Dispatch(nid: Nid, expectedStatus: SFUStatus, sendChs: set<Stream>) returns (sent: Option<Stream>)
      requires Valid() && StatusKey(expectedStatus) == nid
      modifies this`latestStatus
      ensures Valid()
      ensures sent.Some? ==>
        && !Unchanged(old(Abs()), expectedStatus)
        && Has(whereToSend.Rel(), nid, sent.value) && sent.value in sendChs
        && Abs() == Send(old(Abs()), expectedStatus)
      ensures sent.None? ==>
        && Abs() == old(Abs())
        && (Unchanged(Abs(), expectedStatus) || nid !in whereToSend.Rel()
            || exists s :: Has(whereToSend.Rel(), nid, s) && s !in sendChs)
    {
      if nid in latestStatus && latestStatus[nid] == expectedStatus {
        return None;
      }
      SendKeepsTrackedIff(Abs(), expectedStatus);
      var sigs := whereToSend.forwardMap.GetSet(nid);
      if |sigs| <= 0 {
        assert Row(whereToSend.Rel(), nid) == {};
        return None;
      }
      assert sigs[0] in sigs && Has(whereToSend.Rel(), nid, sigs[0]);
      if sigs[0] in sendChs {
        latestStatus := latestStatus[nid := expectedStatus];
        return Some(sigs[0]);
      }
      return None;
    }

    /** Lines 195 to 214: dispatch every expected status, in any order. `sendChs(i)` are the
        streams with a send channel at the i-th dispatch. */
    method DispatchAll(expected: map<Nid, SFUStatus>, sendChs: nat -> set<Stream>)
      returns (sent: map<Nid, Stream>)
      requires Valid() && forall n | n in expected :: StatusKey(expected[n]) == n
      modifies this`latestStatus
      ensures Valid()
      ensures sent.Keys <= expected.Keys * old(latestStatus).Keys
      ensures forall n | n in sent :: SentRightly(old(Abs()), expected[n], sent[n], sendChs)
      ensures forall n | n in expected.Keys - sent.Keys :: SkippedRightly(old(Abs()), expected[n], sendChs)
      ensures Recorded(old(latestStatus), latestStatus, expected, sent)
    {
      ghost var was := Abs();
      sent := map[];
      var todo, i := expected.Keys, 0;
      while todo != {}
        invariant todo <= expected.Keys && Valid()
        invariant Dispatched(was, latestStatus, expected, sent, todo, sendChs)
      {
        var nid :| nid in todo;
        assert Unchanged(Abs(), expected[nid]) == Unchanged(was, expected[nid]);
        ghost var before := latestStatus;
        var to := Dispatch(nid, expected[nid], sendChs(i));
        assert to.Some? ==> SentRightly(was, expected[nid], to.value, sendChs);
        assert to.None? ==> SkippedRightly(was, expected[nid], sendChs);
        DispatchedStep(was, before, expected, sent, todo, sendChs, nid, to);
        if to.Some? {
          sent := sent[nid := to.value];
        }
        todo, i := todo - {nid}, i + 1;
      }
    }

    /** One whole batch, lines 176 to 214, and the start of the next round. */
    method Batch(alg: (seq<SFUStatus>, seq<QualityReport>) -> seq<SFUStatus>, sendChs: nat -> set<Stream>)
      returns (ghost statuss: seq<SFUStatus>, ghost reports: seq<QualityReport>, sent: map<Nid, Stream>)
      requires Valid()
      modifies this
      ensures Valid()
      ensures Lists(statuss, old(latestStatus).Values) && Lists(reports, old(savedReports))
      ensures var expected := LastByNid(alg(statuss, reports));
        && sent.Keys <= expected.Keys * old(latestStatus).Keys
        && (forall n | n in sent :: SentRightly(old(Abs()), expected[n], sent[n], sendChs))
        && (forall n | n in expected.Keys - sent.Keys :: SkippedRightly(old(Abs()), expected[n], sendChs))
        && Recorded(old(latestStatus), latestStatus, expected, sent)
      ensures whereToSend.Rel() == old(whereToSend.Rel()) && savedReports == {} && recvCount == 0
    {
      var current, qualities := Collect();
      statuss, reports := current, qualities;
      var expectedStatusList := alg(current, qualities);
      var dict := ByNid(expectedStatusList);
      forall n | n in dict ensures StatusKey(dict[n]) == n {
        LastByNidIs(expectedStatusList, n);
      }
      sent := DispatchAll(dict, sendChs);
      savedReports, recvCount := {}, 0;
    }

    static method ByNid(list: seq<SFUStatus>) returns (dict: map<Nid, SFUStatus>)
      ensures dict == LastByNid(list)
    {
      dict := map[];
      for i := 0 to |list|
        invariant dict == LastByNid(list[..i])
      {
        assert list[..i + 1][..i] == list[..i];
        dict := dict[list[i].sfu.nid := list[i]];
      }
      assert list[..|list|] == list;
    }
  }
}
