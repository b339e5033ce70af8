/** algorithms/impl/stupid.go, and the loop it closes: nodes report their status, the server
    runs this algorithm on the table, and a node that is sent an expected status syncs to it.
    Delivery is immediate, every report is a batch of its own, and no session event happens. */
module ClosedLoop {
  import opened Proto
  import opened SetMaps
  import opened IsglbRecv
  import opened DisorderSets
  import opened KeyedLists
  import S = Syncer

  const SERVICE_STUPID := "rtc"
  const SERVICE_NAME_STUPID := "stupid"
  const SERVICE_SESSION_STUPID := "stupid"

  const STUPID_TRACK := ForwardTrack(Node("", SERVICE_NAME_STUPID, SERVICE_STUPID, ""),
                                     SERVICE_SESSION_STUPID, SERVICE_SESSION_STUPID, [])

  predicate IsStupid(t: ForwardTrack) {
    && t.src.service == SERVICE_STUPID
    && t.src.nid == SERVICE_NAME_STUPID
    && t.remoteSessionId == SERVICE_SESSION_STUPID
  }

  predicate HasStupid(st: SFUStatus) {
    exists t | t in st.forwardTracks :: IsStupid(t)
  }

  /** What the algorithm expects of a node. */
  function WithStupid(st: SFUStatus): SFUStatus {
    if HasStupid(st) then st else st.(forwardTracks := st.forwardTracks + [STUPID_TRACK])
  }

  function AllWithStupid(current: seq<SFUStatus>): (r: seq<SFUStatus>)
    ensures |r| == |current| && forall i | 0 <= i < |r| :: r[i] == WithStupid(current[i])
  {
    seq(|current|, i requires 0 <= i < |current| => WithStupid(current[i]))
  }

  method UpdateSFUStatus(current: seq<SFUStatus>, reports: seq<QualityReport>) returns (expected: seq<SFUStatus>)
    ensures expected == AllWithStupid(current)
  {
    expected := current;
    var i := 0;
    label L:
    while i < |current|
      invariant 0 <= i <= |current| == |expected|
      invariant forall j | 0 <= j < i :: expected[j] == WithStupid(current[j])
      invariant forall j | i <= j < |current| :: expected[j] == current[j]
    {
      var n := current[i];
      for k := 0 to |n.forwardTracks|
        invariant forall j | 0 <= j < k :: !IsStupid(n.forwardTracks[j])
      {
        var track := n.forwardTracks[k];
        if IsStupid(track) {
          assert HasStupid(n);
          i := i + 1;
          continue L;
        }
      }
      expected := expected[i := n.(forwardTracks := n.forwardTracks + [STUPID_TRACK])];
      i := i + 1;
    }
  }

  /** The algorithm changes a status exactly when the track is missing, and once is enough. */
  lemma StupidOnce(st: SFUStatus)
    ensures HasStupid(WithStupid(st)) && StatusKey(WithStupid(st)) == StatusKey(st)
    ensures WithStupid(st) == st <==> HasStupid(st)
    ensures WithStupid(st) == st.(forwardTracks := WithStupid(st).forwardTracks)
    ensures st.forwardTracks <= WithStupid(st).forwardTracks
    ensures forall j | |st.forwardTracks| <= j < |WithStupid(st).forwardTracks| ::
      WithStupid(st).forwardTracks[j] == STUPID_TRACK
    ensures WithStupid(WithStupid(st)) == WithStupid(st)
  {
    if !HasStupid(st) {
      assert IsStupid(STUPID_TRACK) && STUPID_TRACK in WithStupid(st).forwardTracks;
      assert |WithStupid(st).forwardTracks| == |st.forwardTracks| + 1;
    }
  }

  /** The track is recognised by its service and its key, so every track of that key and service
      counts, whatever its local session, data center or layers. */
  lemma IsStupidIff(t: ForwardTrack)
    ensures IsStupid(t) <==> t.src.service == STUPID_TRACK.src.service && ForwardKey(t) == ForwardKey(STUPID_TRACK)
  {
    ForwardKeyAmbiguousIff(STUPID_TRACK);
    assert |NID_SEPARATOR| > |SERVICE_NAME_STUPID| && |NID_SEPARATOR| > |SERVICE_SESSION_STUPID|;
    if ForwardKey(t) == ForwardKey(STUPID_TRACK) {
      assert !SameForwardKeyOtherPair(STUPID_TRACK, t);
    }
  }

  // ----- The server -----

  ghost function Expected(c: Core): map<Nid, SFUStatus> {
    map n | n in c.latest :: WithStupid(c.latest[n])
  }

  /** In whatever order the table is listed, the algorithm expects the same of each node id. */
  lemma ExpectedInAnyOrder(c: Core, statuss: seq<SFUStatus>)
    requires Tracked(c) && Lists(statuss, c.latest.Values)
    ensures LastByNid(AllWithStupid(statuss)) == Expected(c)
  {
    var r := AllWithStupid(statuss);
    forall n ensures n in LastByNid(r) <==> n in c.latest {
      LastByNidIs(r, n);
      if n in LastByNid(r) {
        var i :| 0 <= i < |r| && StatusKey(r[i]) == n;
        StupidOnce(statuss[i]);
        assert statuss[i] in statuss;
        assert statuss[i] in c.latest.Values;
      }
      if n in c.latest {
        assert c.latest[n] in statuss;
        var i :| 0 <= i < |statuss| && statuss[i] == c.latest[n];
        StupidOnce(statuss[i]);
        assert StatusKey(r[i]) == n;
      }
    }
    forall n | n in c.latest ensures LastByNid(r)[n] == WithStupid(c.latest[n]) {
      LastByNidIs(r, n);
      var i :| 0 <= i < |r| && LastByNid(r)[n] == r[i] && StatusKey(r[i]) == n;
      StupidOnce(statuss[i]);
      assert statuss[i] in statuss;
      assert statuss[i] in c.latest.Values;
    }
  }

  ghost function AfterReport(c: Core, st: SFUStatus, sig: Stream): Core {
    Consume(c.(reports := {}, count := 0), Requested(StatusRequest(st), sig))
  }

  /** The node ids a round sends to: those whose saved status lacks the track, if the report
      changed anything at all. */
  ghost function Recipients(c: Core, st: SFUStatus, sig: Stream): set<Nid> {
    var c' := AfterReport(c, st, sig);
    if c'.count == 0 then {} else set n | n in c'.latest && !HasStupid(c'.latest[n])
  }

  ghost function AfterRound(c: Core, st: SFUStatus, sig: Stream): Core {
    var c' := AfterReport(c, st, sig);
    if c'.count == 0 then c' else c'.(latest := Expected(c'), reports := {}, count := 0)
  }

  /** The receive loop does this round when every stream it knows still has its send channel. */
  method ServerRound(loop: RecvLoop, st: SFUStatus, sig: Stream, sendChs: set<Stream>)
    returns (called: bool, sent: map<Nid, Stream>)
    requires loop.Valid() && loop.recvCount == 0 && loop.savedReports == {}
    requires sig in sendChs && forall n, s :: Has(loop.whereToSend.Rel(), n, s) ==> s in sendChs
    modifies loop.Repr()
    ensures loop.Valid() && loop.Abs() == AfterRound(old(loop.Abs()), st, sig)
    ensures called <==> AfterReport(old(loop.Abs()), st, sig).count > 0
    ensures sent.Keys == Recipients(old(loop.Abs()), st, sig)
  {
    loop.Receive(Requested(StatusRequest(st), sig));
    ghost var c := loop.Abs();
    assert c == AfterReport(old(loop.Abs()), st, sig);
    called, sent := false, map[];
    if loop.recvCount > 0 {
      called := true;
      var alg := (current: seq<SFUStatus>, reports: seq<QualityReport>) => AllWithStupid(current);
      var channels := (i: nat) => sendChs;
      ghost var statuss, reports;
      statuss, reports, sent := loop.Batch(alg, channels);
      ExpectedInAnyOrder(c, statuss);
      assert alg(statuss, reports) == AllWithStupid(statuss);
      ReportAddsOneStream(old(loop.Abs()), st, sig);
      BatchSends(c, loop.latestStatus, sent, channels);
    }
  }

  lemma ReportAddsOneStream(c: Core, st: SFUStatus, sig: Stream)
    ensures forall n, s :: Has(AfterReport(c, st, sig).where, n, s) ==> Has(c.where, n, s) || s == sig
  {
    assert AfterReport(c, st, sig).where == WithPair(c.where, StatusKey(st), sig);
  }

  lemma BatchSends(c: Core, now: map<Nid, SFUStatus>, sent: map<Nid, Stream>, channels: nat -> set<Stream>)
    requires Tracked(c) && sent.Keys <= Expected(c).Keys * c.latest.Keys
    requires forall n, s, i: nat :: Has(c.where, n, s) ==> s in channels(i)
    requires forall n | n in sent :: SentRightly(c, Expected(c)[n], sent[n], channels)
    requires forall n | n in Expected(c).Keys - sent.Keys :: SkippedRightly(c, Expected(c)[n], channels)
    requires Recorded(c.latest, now, Expected(c), sent)
    ensures sent.Keys == set n | n in c.latest && !HasStupid(c.latest[n])
    ensures now == Expected(c)
  {
    forall n | n in c.latest
      ensures n in sent <==> !HasStupid(c.latest[n])
      ensures now[n] == WithStupid(c.latest[n])
    {
      StupidOnce(c.latest[n]);
      assert Unchanged(c, Expected(c)[n]) <==> HasStupid(c.latest[n]);
    }
  }

  // ----- The nodes -----

  /** What a node holds: itself and the contents of its three sets. */
  datatype NodeState = NodeState(sfu: Node, forwards: map<string, ForwardTrack>,
                                 proceeds: map<string, ProceedTrack>, clients: map<string, ClientNeededSession>)

  ghost predicate NodeOk(n: Nid, x: NodeState) {
    && x.sfu.nid == n
    && FiledByKey(ForwardKey, x.forwards) && FiledByKey(ProceedKey, x.proceeds) && FiledByKey(ClientKey, x.clients)
  }

  ghost function StatusOf(x: NodeState): SFUStatus {
    SFUStatus(x.sfu, Canonical(x.forwards), Canonical(x.proceeds), Canonical(x.clients))
  }

  ghost function AfterSync(x: NodeState, expected: SFUStatus): NodeState {
    if expected.sfu == x.sfu && SameAs(ClientKey, x.clients, expected.clients) then
      x.(forwards := MapOf(ForwardKey, expected.forwardTracks), proceeds := MapOf(ProceedKey, expected.proceedTracks))
    else x
  }

  ghost function NodeOf(s: S.ISGLBSyncer): NodeState
    reads s.clientSet, s.forwardTrackSet, s.proceedTrackSet
  {
    NodeState(s.descSFU, s.forwardTrackSet.Contents(), s.proceedTrackSet.Contents(), s.clientSet.Contents())
  }

  /** The syncer of a node does just that. */
  method NodeSync(s: S.ISGLBSyncer, expected: SFUStatus)
    requires s.Valid()
    modifies s.Repr()
    ensures s.Valid() && NodeOf(s) == AfterSync(old(NodeOf(s)), expected)
  {
    s.SyncStatus(expected);
  }

  /** What a node reports is the status of the closed loop. */
  method NodeReports(s: S.ISGLBSyncer) returns (st: SFUStatus)
    requires s.Valid() && s.statusSendCh
    modifies s`statusSendCh, s`built
    ensures s.Valid() && NodeOf(s) == old(NodeOf(s))
    ensures st == StatusOf(NodeOf(s)) && s.built == old(s.built) + [st]
  {
    s.BuildStatus();
    st := s.built[|s.built| - 1];
  }

  /** A node accepts its own status with the track added, and adds just the track. */
  lemma SyncAddsTrack(n: Nid, x: NodeState)
    requires NodeOk(n, x)
    ensures AfterSync(x, WithStupid(StatusOf(x))) ==
      if HasStupid(StatusOf(x)) then x else x.(forwards := x.forwards[ForwardKey(STUPID_TRACK) := STUPID_TRACK])
  {
    CanonicalForm(ClientKey, x.clients, x.clients);
    CanonicalMap(ForwardKey, x.forwards);
    CanonicalMap(ProceedKey, x.proceeds);
    MapOfAppend(ForwardKey, Canonical(x.forwards), STUPID_TRACK);
  }

  /** From then on its own status has the track. */
  lemma SyncedHasTrack(n: Nid, x: NodeState)
    requires NodeOk(n, x)
    ensures NodeOk(n, AfterSync(x, WithStupid(StatusOf(x)))) && HasStupid(StatusOf(AfterSync(x, WithStupid(StatusOf(x)))))
  {
    SyncAddsTrack(n, x);
    if !HasStupid(StatusOf(x)) {
      var forwards := x.forwards[ForwardKey(STUPID_TRACK) := STUPID_TRACK];
      CanonicalMap(ForwardKey, forwards);
      MapOfFrom(ForwardKey, Canonical(forwards), ForwardKey(STUPID_TRACK));
      assert IsStupid(STUPID_TRACK) && STUPID_TRACK in Canonical(forwards);
    }
  }

  /** A status that is accepted is reached: with distinct track keys the node then holds, and so
      reports, exactly the tracks of the status; any other status changes nothing. */
  lemma SyncReaches(n: Nid, x: NodeState, st: SFUStatus)
    requires NodeOk(n, x) && S.DistinctTracks(st)
    ensures var x' := AfterSync(x, st);
      && NodeOk(n, x') && x'.sfu == x.sfu && x'.clients == x.clients
      && (if st.sfu == x.sfu && NoDiff(ClientKey, x.clients, st.clients) then
            && (forall t :: t in StatusOf(x').forwardTracks <==> t in st.forwardTracks)
            && (forall t :: t in StatusOf(x').proceedTracks <==> t in st.proceedTracks)
          else x' == x)
  {
    SameIffNoDiff(ClientKey, x.clients, st.clients);
    CanonicalHolds(ForwardKey, st.forwardTracks);
    CanonicalHolds(ProceedKey, st.proceedTracks);
    MapOfFiled(ForwardKey, st.forwardTracks);
    MapOfFiled(ProceedKey, st.proceedTracks);
  }

  /** A list with distinct keys and the canonical list of its items hold the same items. */
  lemma CanonicalHolds<T(!new)>(key: T -> string, list: seq<T>)
    requires DistinctKeys(key, list)
    ensures forall t :: t in Canonical(MapOf(key, list)) <==> t in list
  {
    var m := MapOf(key, list);
    MapOfFiled(key, list);
    CanonicalIs(key, m);
    SortedIsDistinct(key, Canonical(m));
    forall t ensures t in Canonical(m) <==> t in list {
      if t in Canonical(m) {
        MapOfDistinct(key, Canonical(m), t);
        MapOfFrom(key, list, key(t));
      }
      if t in list {
        MapOfDistinct(key, list, t);
        MapOfFrom(key, Canonical(m), key(t));
      }
    }
  }

  // ----- The closed loop -----

  /** `sends` counts the expected statuses sent to each node, `reports` the reports each made. */
  datatype World = World(core: Core, nodes: map<Nid, NodeState>, sends: multiset<Nid>, reports: multiset<Nid>)

  /** Nothing is reported yet; the nodes hold anything. */
  ghost predicate Initial(w: World) {
    w.core == START && w.sends == multiset{} && w.reports == multiset{}
    && forall n | n in w.nodes :: NodeOk(n, w.nodes[n])
  }

  /** Node `n` reports, and whoever is sent an expected status syncs to it. */
  ghost function Report(w: World, n: Nid, sig: Stream): World
    requires n in w.nodes
  {
    var st := StatusOf(w.nodes[n]);
    var c, to := AfterReport(w.core, st, sig), Recipients(w.core, st, sig);
    World(AfterRound(w.core, st, sig),
          map m | m in w.nodes :: if m in to then AfterSync(w.nodes[m], WithStupid(c.latest[m])) else w.nodes[m],
          w.sends + multiset(to), w.reports + multiset{n})
  }

  /** Whether the algorithm would run on the next report of `n`. */
  ghost predicate WouldRun(w: World, n: Nid, sig: Stream)
    requires n in w.nodes
  {
    AfterReport(w.core, StatusOf(w.nodes[n]), sig).count > 0
  }

  ghost predicate NodeInv(w: World, n: Nid)
    requires n in w.nodes
  {
    && NodeOk(n, w.nodes[n])
    && w.sends[n] <= 1
    && (w.reports[n] == 0 ==> n !in w.core.latest && w.sends[n] == 0)
    && (w.reports[n] > 0 ==> n in w.core.latest && HasStupid(w.core.latest[n]) && HasStupid(StatusOf(w.nodes[n])))
    && (w.reports[n] > 1 ==> w.core.latest[n] == StatusOf(w.nodes[n]))
  }

  ghost predicate WorldInv(w: World) {
    && w.core.latest.Keys <= w.nodes.Keys
    && forall n | n in w.nodes :: NodeInv(w, n)
  }

  /** A report changes the saved status of its node, and is counted only if that was another. */
  lemma ReportIsFiled(c: Core, st: SFUStatus, sig: Stream)
    ensures var n, c' := StatusKey(st), AfterReport(c, st, sig);
      && c'.latest == c.latest[n := st]
      && (c'.count == 0 <==> n in c.latest && c.latest[n] == st)
  {
    var n := StatusKey(st);
    assert n in c.latest ==> c.latest[n := c.latest[n]] == c.latest;
  }

  /** If only one node can lack the track, the algorithm changes at most its status. */
  lemma ExpectedOfOne(c: Core, n: Nid)
    requires n in c.latest && forall m | m in c.latest && m != n :: HasStupid(c.latest[m])
    ensures Expected(c) == c.latest[n := WithStupid(c.latest[n])]
    ensures (set m | m in c.latest && !HasStupid(c.latest[m])) == if HasStupid(c.latest[n]) then {} else {n}
  {
  }

  /** If all saved statuses have the track, a round sends only to the reporting node, and only if
      its own status lacks the track; the table then has its status with the track. */
  lemma SentOnlyToReporter(c: Core, st: SFUStatus, sig: Stream)
    requires forall m | m in c.latest :: HasStupid(c.latest[m])
    ensures Recipients(c, st, sig) == if HasStupid(st) then {} else {StatusKey(st)}
    ensures AfterRound(c, st, sig).latest == c.latest[StatusKey(st) := WithStupid(st)]
  {
    ReportIsFiled(c, st, sig);
    StupidOnce(st);
    var c' := AfterReport(c, st, sig);
    assert forall m | m in c'.latest && m != StatusKey(st) :: c'.latest[m] == c.latest[m];
    ExpectedOfOne(c', StatusKey(st));
  }

  lemma SavedHaveTrack(w: World)
    requires WorldInv(w)
    ensures forall m | m in w.core.latest :: HasStupid(w.core.latest[m])
  {
    forall m | m in w.core.latest ensures HasStupid(w.core.latest[m]) {
      assert NodeInv(w, m);
    }
  }

  /** The nodes after a round that sent at most to one of them. */
  lemma OneNodeSyncs(nodes: map<Nid, NodeState>, latest: map<Nid, SFUStatus>, to: set<Nid>, n: Nid)
    requires n in nodes && to <= {n} && to <= latest.Keys
    ensures (map m | m in nodes :: if m in to then AfterSync(nodes[m], WithStupid(latest[m])) else nodes[m]) ==
      nodes[n := if n in to then AfterSync(nodes[n], WithStupid(latest[n])) else nodes[n]]
  {
  }

  /** What a report does to its own node and to the others. */
  lemma ReportIs(w: World, n: Nid, sig: Stream)
    requires WorldInv(w) && n in w.nodes
    ensures var w', st := Report(w, n, sig), StatusOf(w.nodes[n]);
      && w'.core.latest == w.core.latest[n := WithStupid(st)]
      && w'.nodes == w.nodes[n := AfterSync(w.nodes[n], WithStupid(st))]
      && w'.sends == w.sends + (if HasStupid(st) then multiset{} else multiset{n})
      && w'.reports == w.reports + multiset{n}
  {
    var st := StatusOf(w.nodes[n]);
    assert StatusKey(st) == n && NodeOk(n, w.nodes[n]) by {
      assert NodeInv(w, n);
    }
    SavedHaveTrack(w);
    SentOnlyToReporter(w.core, st, sig);
    ReportIsFiled(w.core, st, sig);
    StupidOnce(st);
    SyncAddsTrack(n, w.nodes[n]);
    OneNodeSyncs(w.nodes, AfterReport(w.core, st, sig).latest, Recipients(w.core, st, sig), n);
  }

  lemma ReportKeepsInv(w: World, n: Nid, sig: Stream)
    requires WorldInv(w) && n in w.nodes
    ensures WorldInv(Report(w, n, sig))
  {
    var w' := Report(w, n, sig);
    assert NodeInv(w, n);
    ReportIs(w, n, sig);
    forall m | m in w'.nodes ensures NodeInv(w', m) {
      assert NodeInv(w, m);
      if m == n {
        StupidOnce(StatusOf(w.nodes[n]));
        SyncedHasTrack(n, w.nodes[n]);
        SyncAddsTrack(n, w.nodes[n]);
      }
    }
  }

  /** A run: nodes report in any order, any number of times. */
  ghost predicate Run(worlds: seq<World>, who: seq<(Nid, Stream)>) {
    && |worlds| == |who| + 1
    && Initial(worlds[0])
    && forall i | 0 <= i < |who| ::
         who[i].0 in worlds[i].nodes && worlds[i + 1] == Report(worlds[i], who[i].0, who[i].1)
  }

  lemma {:induction false} InvAlways(worlds: seq<World>, who: seq<(Nid, Stream)>, i: nat)
    requires Run(worlds, who) && i < |worlds|
    ensures WorldInv(worlds[i])
  {
    if i > 0 {
      InvAlways(worlds, who, i - 1);
      assert worlds[i] == Report(worlds[i - 1], who[i - 1].0, who[i - 1].1);
      ReportKeepsInv(worlds[i - 1], who[i - 1].0, who[i - 1].1);
    }
  }

  /** The loop converges from any state of the nodes and in any order of reports: a node is sent
      at most one expected status; from its second report on the table has exactly its canonical
      status, that status has the track, and a further report does not run the algorithm. */
  lemma Converges(worlds: seq<World>, who: seq<(Nid, Stream)>, i: nat, n: Nid, sig: Stream)
    requires Run(worlds, who) && i < |worlds| && n in worlds[i].nodes
    ensures worlds[i].sends[n] <= 1
    ensures worlds[i].reports[n] > 1 ==>
      && n in worlds[i].core.latest
      && worlds[i].core.latest[n] == StatusOf(worlds[i].nodes[n])
      && HasStupid(worlds[i].core.latest[n])
      && !WouldRun(worlds[i], n, sig)
  {
    InvAlways(worlds, who, i);
    assert NodeInv(worlds[i], n);
    ReportIsFiled(worlds[i].core, StatusOf(worlds[i].nodes[n]), sig);
  }
}
