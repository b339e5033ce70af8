/** pkg/sxu/syncer/syncer.go: the node side of the synchronisation. One goroutine owns the
    three sets and both routers, and handles one ready channel at a time. */
module Syncer {
  import opened Options
  import opened Proto
  import opened DisorderSets
  import opened KeyedLists
  import opened TrackRouters

  datatype EventState = Add | Remove | Other

  datatype SessionEvent = SessionEvent(session: ClientNeededSession, state: EventState)

  /** A session that comes is filed under its key, one that goes is removed. */
  ghost function ClientsAfter(clients: map<string, ClientNeededSession>, event: SessionEvent):
    map<string, ClientNeededSession>
  {
    match event.state
    case Add => clients[ClientKey(event.session) := event.session]
    case Remove => clients - {ClientKey(event.session)}
    case Other => clients
  }

  /** What a session event does, key by key. */
  lemma ClientsAfterIs(clients: map<string, ClientNeededSession>, event: SessionEvent, k: string)
    ensures var now := ClientsAfter(clients, event);
      if Concerns(event, k) then
        (k in now <==> event.state.Add?) && (k in now ==> now[k] == event.session)
      else
        (k in now <==> k in clients) && (k in now ==> now[k] == clients[k])
  {
  }

  /** The event adds or removes the session of that key. */
  ghost predicate Concerns(event: SessionEvent, k: string) {
    !event.state.Other? && ClientKey(event.session) == k
  }

  /** The clients of a node that began with none and has taken these events. */
  ghost function ClientsOf(events: seq<SessionEvent>): map<string, ClientNeededSession> {
    if events == [] then map[] else ClientsAfter(ClientsOf(events[..|events| - 1]), events[|events| - 1])
  }

  /** The i-th event is the last one of that key. */
  ghost predicate LastOf(events: seq<SessionEvent>, i: nat, k: string) {
    i < |events| && Concerns(events[i], k) && forall j | i < j < |events| :: !Concerns(events[j], k)
  }

  /** A session is among the clients exactly if the last event of its key added one, and then it
      is the session of that event. */
  lemma {:induction false} ClientsOfIs(events: seq<SessionEvent>, k: string)
    ensures k in ClientsOf(events) <==> exists i: nat :: LastOf(events, i, k) && events[i].state.Add?
    ensures forall i: nat | LastOf(events, i, k) && events[i].state.Add? ::
      k in ClientsOf(events) && ClientsOf(events)[k] == events[i].session
  {
    if events != [] {
      var front, n := events[..|events| - 1], |events| - 1;
      ClientsOfIs(front, k);
      ClientsAfterIs(ClientsOf(front), events[n], k);
      if Concerns(events[n], k) {
        assert LastOf(events, n, k);
        assert forall i: nat :: LastOf(events, i, k) ==> i == n;
      } else {
        assert forall i: nat | i < n :: front[i] == events[i];
        assert forall i: nat :: LastOf(events, i, k) <==> LastOf(front, i, k);
      }
    }
  }

  /** What happens next: the environment puts something into a channel, or the main loop takes
      a channel that is ready. */
  datatype Input =
    | EventArrives(event: SessionEvent)
    | StatusArrives(status: SFUStatus)
    | StatusPushed
    | TakeEvent
    | TakeStatus
    | TakeNotification

  const EVENT_CAPACITY := 1024

  /** A router holds a watchdog for exactly the keys of its track set. */
  ghost predicate InStep<T(!new)>(tracks: DisorderSet<T>, router: TrackRouter<T>)
    reads tracks, router
  {
    && tracks.Valid() && router.Valid()
    && tracks.key == router.key
    && router.params.Keys == tracks.Contents().Keys
  }

  /** Each watchdog was last given exactly the track that the set holds. */
  ghost predicate Refines<T(!new)>(tracks: DisorderSet<T>, router: TrackRouter<T>)
    reads tracks, router
  {
    InStep(tracks, router) && router.params == tracks.Contents()
  }

  method NewTracks<T(==, !new)>(key: T -> string) returns (tracks: DisorderSet<T>, router: TrackRouter<T>)
    ensures fresh(tracks) && fresh(router) && tracks.key == key
    ensures Refines(tracks, router) && tracks.Contents() == map[]
  {
    tracks := new DisorderSet(key);
    router := new TrackRouter(key);
  }

  /** The change of one track set and its router, which the code writes out for each kind. */
  method SyncTracks<T(==, !new)>(tracks: DisorderSet<T>, router: TrackRouter<T>, list: seq<T>)
    requires InStep(tracks, router)
    modifies tracks, router
    ensures InStep(tracks, router)
    ensures tracks.Contents() == MapOf(tracks.key, list)
    ensures old(Refines(tracks, router)) ==>
      (Refines(tracks, router) <==> NewKeysSettled(tracks.key, old(tracks.Contents()), list))
  {
    ghost var was := tracks.Contents();
    var add, del, replace := tracks.Update(list);
    ReplayYieldsKeys(tracks.key, was, router.params, list, del);
    ReplayYieldsListIff(tracks.key, was, list, del);
    router.Replay(add, del, replace);
  }

  /** What a node holds: the contents of its sets, and the last parameter of each watchdog. */
  datatype View = View(
    clients: map<string, ClientNeededSession>,
    forwards: map<string, ForwardTrack>,
    forwardParams: map<string, ForwardTrack>,
    proceeds: map<string, ProceedTrack>,
    proceedParams: map<string, ProceedTrack>)

  /** Every watchdog was last given exactly the track that the sets hold. */
  ghost predicate Refined(v: View) {
    v.forwardParams == v.forwards && v.proceedParams == v.proceeds
  }

  /** An expected status is accepted when it is for this node and names its present clients. */
  ghost predicate Accepts(sfu: Node, v: View, expected: SFUStatus) {
    expected.sfu == sfu && SameAs(ClientKey, v.clients, expected.clients)
  }

  /** In terms of the diff: the node is the right one, and the clients would not change. */
  lemma AcceptsIff(sfu: Node, v: View, expected: SFUStatus)
    ensures Accepts(sfu, v, expected) <==> expected.sfu == sfu && NoDiff(ClientKey, v.clients, expected.clients)
  {
    SameIffNoDiff(ClientKey, v.clients, expected.clients);
  }

  ghost predicate SettledBy(v: View, st: SFUStatus) {
    && NewKeysSettled(ForwardKey, v.forwards, st.forwardTracks)
    && NewKeysSettled(ProceedKey, v.proceeds, st.proceedTracks)
  }

  /** The track sets are brought to the lists of a status; routers that followed the sets do so
      afterwards exactly when no new key comes with two different tracks. */
  ghost predicate Synced(v: View, v': View, st: SFUStatus) {
    && v'.clients == v.clients
    && v'.forwards == MapOf(ForwardKey, st.forwardTracks)
    && v'.proceeds == MapOf(ProceedKey, st.proceedTracks)
    && (Refined(v) ==> (Refined(v') <==> SettledBy(v, st)))
  }

  ghost predicate DistinctTracks(st: SFUStatus) {
    DistinctKeys(ForwardKey, st.forwardTracks) && DistinctKeys(ProceedKey, st.proceedTracks)
  }

  lemma DistinctSettles(v: View, st: SFUStatus)
    requires DistinctTracks(st)
    ensures SettledBy(v, st)
  {
    DistinctIsSettled(ForwardKey, v.forwards, st.forwardTracks);
    DistinctIsSettled(ProceedKey, v.proceeds, st.proceedTracks);
  }

  /** A status names the node and lists its tracks and clients, each once, in key order. */
  ghost predicate Reports(st: SFUStatus, sfu: Node, v: View) {
    && st.sfu == sfu
    && SortedByKey(ForwardKey, st.forwardTracks) && MapOf(ForwardKey, st.forwardTracks) == v.forwards
    && SortedByKey(ProceedKey, st.proceedTracks) && MapOf(ProceedKey, st.proceedTracks) == v.proceeds
    && SortedByKey(ClientKey, st.clients) && MapOf(ClientKey, st.clients) == v.clients
  }

  lemma CanonicalReports(sfu: Node, v: View)
    requires FiledByKey(ForwardKey, v.forwards) && FiledByKey(ProceedKey, v.proceeds) && FiledByKey(ClientKey, v.clients)
    ensures Reports(SFUStatus(sfu, Canonical(v.forwards), Canonical(v.proceeds), Canonical(v.clients)), sfu, v)
  {
    CanonicalIs(ForwardKey, v.forwards);
    CanonicalIs(ProceedKey, v.proceeds);
    CanonicalIs(ClientKey, v.clients);
  }

  class ISGLBSyncer {
    const descSFU: Node
    const clientSet: DisorderSet<ClientNeededSession>
    const forwardTrackSet: DisorderSet<ForwardTrack>
    const proceedTrackSet: DisorderSet<ProceedTrack>
    const forwarder: TrackRouter<ForwardTrack>
    const processor: TrackRouter<ProceedTrack>

    /** The waiting status, and the one that the callback has received and not pushed yet. */
    var statusRecvCh: Option<SFUStatus>
    var arriving: Option<SFUStatus>
    var statusSendCh: bool
    var sessionEventCh: seq<SessionEvent>
    /** The statuses built and handed to goroutines that send them; in which order those send
        is not known. */
    var built: seq<SFUStatus>
    /** The last status that was received, and the last one that the main loop took. */
    ghost var newest: Option<SFUStatus>
    ghost var taken: Option<SFUStatus>
    /** The events that the main loop has taken. */
    ghost var events: seq<SessionEvent>

    ghost function Repr(): set<object> {
      {this, clientSet, forwardTrackSet, proceedTrackSet, forwarder, processor}
    }

    ghost predicate Apart() {
      && clientSet as object != forwardTrackSet && clientSet as object != proceedTrackSet
      && forwardTrackSet as object != proceedTrackSet
      && forwarder as object != processor
    }

    ghost predicate TracksValid()
      reads forwardTrackSet, forwarder, proceedTrackSet, processor
    {
      && Apart()
      && forwardTrackSet.key == ForwardKey && proceedTrackSet.key == ProceedKey
      && InStep(forwardTrackSet, forwarder)
      && InStep(proceedTrackSet, processor)
    }

    /** The newest status received is about to be pushed, or waits, or is the last one taken. */
    ghost predicate NewestKept()
      reads this
    {
      && (arriving.Some? ==> statusRecvCh.None?)
      && newest == if arriving.Some? then arriving else if statusRecvCh.Some? then statusRecvCh else taken
    }

    ghost predicate Valid()
      reads Repr()
    {
      && TracksValid() && NewestKept()
      && clientSet.key == ClientKey && clientSet.Valid()
      && clientSet.Contents() == ClientsOf(events) && |sessionEventCh| <= EVENT_CAPACITY
      && (statusSendCh || Announced())
    }

    /** The server was told, or is being told, of the clients this node has now. */
    ghost predicate Announced()
      reads this, clientSet
    {
      built != [] && built[|built| - 1].clients == Canonical(clientSet.Contents())
    }

    /** All events that were taken or wait, in order. */
    ghost function Backlog(): seq<SessionEvent>
      reads this
    {
      events + sessionEventCh
    }

    ghost function Now(): View
      requires Valid()
      reads Repr()
    {
      View(clientSet.Contents(), forwardTrackSet.Contents(), forwarder.params,
           proceedTrackSet.Contents(), processor.params)
    }

    /** The status this node stands at, in canonical form. */
    ghost function Status(): SFUStatus
      reads clientSet, forwardTrackSet, proceedTrackSet
    {
      SFUStatus(descSFU, Canonical(forwardTrackSet.Contents()), Canonical(proceedTrackSet.Contents()),
                Canonical(clientSet.Contents()))
    }

    constructor (descSFU: Node)
      ensures Valid() && fresh(Repr())
      ensures this.descSFU == descSFU && Now() == View(map[], map[], map[], map[], map[])
      ensures built == [] && sessionEventCh == [] && statusRecvCh == None && arriving == None && newest == None
      ensures events == []
    {
      this.descSFU := descSFU;
      clientSet := new DisorderSet(ClientKey);
      var forwardTracks, forwards := NewTracks(ForwardKey);
      var proceedTracks, proceeds := NewTracks(ProceedKey);
      forwardTrackSet, proceedTrackSet, forwarder, processor := forwardTracks, proceedTracks, forwards, proceeds;
      statusRecvCh, arriving, statusSendCh, sessionEventCh, built := None, None, true, [], [];
      newest, taken, events := None, None, [];
      new;
      assert Refines(forwardTrackSet, forwarder) && Refines(proceedTrackSet, processor);
      assert TracksValid();
      assert Valid() && Refined(Now());
    }

    method NotifySFUStatus()
      modifies this`statusSendCh
      ensures statusSendCh
    {
      if !statusSendCh {
        statusSendCh := true;
      }
    }

    /** The callback for received statuses, its first select: a status that waits is dropped. */
    method OnSFUStatusRecv(st: SFUStatus)
      requires Valid() && arriving.None?
      modifies this`statusRecvCh, this`arriving, this`newest
      ensures Valid() && Now() == old(Now())
      ensures arriving == Some(st) && newest == Some(st) && statusRecvCh.None?
    {
      if statusRecvCh.Some? {
        statusRecvCh := None;
      }
      arriving, newest := Some(st), Some(st);
    }

    /** Its second select: the channel has room, so the status is never dropped here. */
    method PushReceived()
      requires Valid() && arriving.Some?
      modifies this`statusRecvCh, this`arriving
      ensures Valid() && Now() == old(Now())
      ensures arriving.None? && statusRecvCh == old(arriving) == newest
    {
      if statusRecvCh.None? {
        statusRecvCh := arriving;
      }
      arriving := None;
    }

    /** The session tracker pushes an event. */
    method PushEvent(event: SessionEvent)
      requires Valid() && |sessionEventCh| < EVENT_CAPACITY
      modifies this`sessionEventCh
      ensures Valid() && Now() == old(Now()) && sessionEventCh == old(sessionEventCh) + [event]
      ensures Backlog() == old(Backlog()) + [event]
    {
      assert events + (sessionEventCh + [event]) == (events + sessionEventCh) + [event];
      sessionEventCh := sessionEventCh + [event];
    }

    /** A rejected status changes nothing and leaves a notification pending. */
    method SyncStatus(expected: SFUStatus)
      requires Valid()
      modifies this`statusSendCh, clientSet, forwardTrackSet, forwarder, proceedTrackSet, processor
      ensures Valid()
      ensures if Accepts(descSFU, old(Now()), expected) then
                statusSendCh == old(statusSendCh) && Synced(old(Now()), Now(), expected)
              else statusSendCh && Now() == old(Now())
      ensures !Accepts(descSFU, old(Now()), expected) ==>
        unchanged(forwardTrackSet, forwarder, proceedTrackSet, processor)
    {
      if expected.sfu != descSFU {
        NotifySFUStatus();
        return;
      }
      var sameClients := clientSet.IsSame(expected.clients);
      assert Valid() && Now() == old(Now());
      if !sameClients {
        NotifySFUStatus();
        return;
      }
      SyncBoth(expected);
    }

    /** Lines 121 to 151: the forwarded tracks first, then the proceeded ones. */
    method SyncBoth(expected: SFUStatus)
      requires Valid()
      modifies forwardTrackSet, forwarder, proceedTrackSet, processor
      ensures Valid() && Synced(old(Now()), Now(), expected)
    {
      SyncForwards(expected.forwardTracks);
      SyncProceeds(expected.proceedTracks);
    }

    method SyncForwards(list: seq<ForwardTrack>)
      requires Valid()
      modifies forwardTrackSet, forwarder
      ensures Valid() && Now() == old(Now()).(forwards := MapOf(ForwardKey, list), forwardParams := forwarder.params)
      ensures old(Refines(forwardTrackSet, forwarder)) ==>
        (Refines(forwardTrackSet, forwarder) <==> NewKeysSettled(ForwardKey, old(Now()).forwards, list))
    {
      SyncTracks(forwardTrackSet, forwarder, list);
      assert Announced() == old(Announced());
    }

    method SyncProceeds(list: seq<ProceedTrack>)
      requires Valid()
      modifies proceedTrackSet, processor
      ensures Valid() && Now() == old(Now()).(proceeds := MapOf(ProceedKey, list), proceedParams := processor.params)
      ensures old(Refines(proceedTrackSet, processor)) ==>
        (Refines(proceedTrackSet, processor) <==> NewKeysSettled(ProceedKey, old(Now()).proceeds, list))
    {
      SyncTracks(proceedTrackSet, processor, list);
      assert Announced() == old(Announced());
    }

    method HandleSessionEvent(event: SessionEvent)
      requires Valid()
      modifies this`statusSendCh, this`events, clientSet
      ensures Valid() && Now() == old(Now()).(clients := ClientsAfter(old(Now()).clients, event))
      ensures events == old(events) + [event]
      ensures statusSendCh == (old(statusSendCh) || !event.state.Other?)
    {
      events := events + [event];
      assert events[..|events| - 1] == old(events);
      match event.state {
        case Add =>
          clientSet.Add(event.session);
          NotifySFUStatus();
        case Remove =>
          clientSet.Del(event.session);
          NotifySFUStatus();
        case Other =>
      }
    }

    /** The third case of the main loop: build the status of this moment and hand it over. */
    method BuildStatus()
      requires Valid() && statusSendCh
      modifies this`statusSendCh, this`built
      ensures Valid() && !statusSendCh && Now() == old(Now())
      ensures built == old(built) + [Status()]
      ensures Reports(built[|built| - 1], descSFU, Now())
    {
      CanonicalReports(descSFU, Now());
      statusSendCh := false;
      var forwardTracks := forwardTrackSet.Sort();
      var proceedTracks := proceedTrackSet.Sort();
      var clients := clientSet.Sort();
      var st := SFUStatus(descSFU, forwardTracks, proceedTracks, clients);
      assert st == Status();
      built := built + [st];
      assert Announced();
    }

    /** One thing that happens; an input that is not possible now does nothing. */
    method Next(input: Input)
      requires Valid()
      modifies Repr()
      ensures Valid()
      ensures statusRecvCh.None? || statusRecvCh == old(statusRecvCh)
        || (input.StatusPushed? && statusRecvCh == old(arriving))
      ensures arriving.None? || arriving == old(arriving) || input == StatusArrives(arriving.value)
      ensures old(Refined(Now())) && old(statusRecvCh.Some? ==> DistinctTracks(statusRecvCh.value)) ==> Refined(Now())
      ensures !(input.TakeStatus? && old(statusRecvCh.Some? && Accepts(descSFU, Now(), statusRecvCh.value))) ==>
        && Now() == old(Now()).(clients := Now().clients)
        && unchanged(forwardTrackSet, forwarder, proceedTrackSet, processor)
      ensures Now().clients != old(Now()).clients ==> statusSendCh
      ensures if input.EventArrives? && |old(sessionEventCh)| < EVENT_CAPACITY then
                Backlog() == old(Backlog()) + [input.event]
              else Backlog() == old(Backlog())
    {
      if input.EventArrives? || input.StatusArrives? || input.StatusPushed? {
        Arrive(input);
      } else {
        MainStep(input);
      }
    }

    /** One turn of the main loop: the channel that select has chosen, if it is ready. */
    method MainStep(input: Input)
      requires Valid() && (input.TakeEvent? || input.TakeStatus? || input.TakeNotification?)
      modifies this`sessionEventCh, this`statusRecvCh, this`taken, this`events, this`statusSendCh, this`built
      modifies clientSet, forwardTrackSet, forwarder, proceedTrackSet, processor
      ensures Valid() && Backlog() == old(Backlog())
      ensures statusRecvCh.None? || statusRecvCh == old(statusRecvCh)
      ensures old(Refined(Now())) && old(statusRecvCh.Some? ==> DistinctTracks(statusRecvCh.value)) ==> Refined(Now())
      ensures !(input.TakeStatus? && old(statusRecvCh.Some? && Accepts(descSFU, Now(), statusRecvCh.value))) ==>
        && Now() == old(Now()).(clients := Now().clients)
        && unchanged(forwardTrackSet, forwarder, proceedTrackSet, processor)
      ensures Now().clients != old(Now()).clients ==> statusSendCh
    {
      match input {
        case TakeEvent =>
          if sessionEventCh != [] {
            TakeEventCh();
          }
        case TakeStatus =>
          if statusRecvCh.Some? {
            TakeStatusCh();
          }
        case TakeNotification =>
          if statusSendCh {
            BuildStatus();
          }
      }
    }

    /** What the session tracker and the callback put into the channels. */
    method Arrive(input: Input)
      requires Valid() && (input.EventArrives? || input.StatusArrives? || input.StatusPushed?)
      modifies this`sessionEventCh, this`statusRecvCh, this`arriving, this`newest
      ensures Valid() && Now() == old(Now())
      ensures statusRecvCh.None? || statusRecvCh == old(statusRecvCh)
        || (input.StatusPushed? && statusRecvCh == old(arriving))
      ensures arriving.None? || arriving == old(arriving) || input == StatusArrives(arriving.value)
      ensures if input.EventArrives? && |old(sessionEventCh)| < EVENT_CAPACITY then
                Backlog() == old(Backlog()) + [input.event]
              else Backlog() == old(Backlog())
    {
      match input {
        case EventArrives(event) =>
          if |sessionEventCh| < EVENT_CAPACITY {
            PushEvent(event);
          }
        case StatusArrives(st) =>
          if arriving.None? {
            OnSFUStatusRecv(st);
          }
        case StatusPushed =>
          if arriving.Some? {
            PushReceived();
          }
      }
    }

    /** The first case of the main loop. */
    method TakeEventCh()
      requires Valid() && sessionEventCh != []
      modifies this`sessionEventCh, this`statusSendCh, this`events, clientSet
      ensures Valid() && sessionEventCh == old(sessionEventCh)[1..]
      ensures events == old(events) + [old(sessionEventCh)[0]] && Backlog() == old(Backlog())
      ensures var event := old(sessionEventCh)[0];
        && Now() == old(Now()).(clients := ClientsAfter(old(Now()).clients, event))
        && statusSendCh == (old(statusSendCh) || !event.state.Other?)
      ensures Now().clients != old(Now()).clients ==> statusSendCh
    {
      var event := sessionEventCh[0];
      sessionEventCh := sessionEventCh[1..];
      assert Valid();
      HandleSessionEvent(event);
    }

    /** The second case of the main loop. */
    method TakeStatusCh()
      requires Valid() && statusRecvCh.Some?
      modifies this`statusRecvCh, this`taken, this`statusSendCh
      modifies clientSet, forwardTrackSet, forwarder, proceedTrackSet, processor
      ensures Valid() && statusRecvCh.None?
      ensures var st := old(statusRecvCh.value);
        if Accepts(descSFU, old(Now()), st) then
          statusSendCh == old(statusSendCh) && Synced(old(Now()), Now(), st)
        else statusSendCh && Now() == old(Now())
      ensures !old(Accepts(descSFU, Now(), statusRecvCh.value)) ==>
        unchanged(forwardTrackSet, forwarder, proceedTrackSet, processor)
      ensures old(Refined(Now())) && DistinctTracks(old(statusRecvCh.value)) ==> Refined(Now())
    {
      var st := PopStatus();
      assert Now() == old(Now()) && statusSendCh == old(statusSendCh);
      if DistinctTracks(st) {
        DistinctSettles(Now(), st);
      }
      SyncStatus(st);
    }

    method PopStatus() returns (st: SFUStatus)
      requires Valid() && statusRecvCh.Some?
      modifies this`statusRecvCh, this`taken
      ensures Valid() && Now() == old(Now())
      ensures Some(st) == old(statusRecvCh) == taken && statusRecvCh.None?
    {
      st := statusRecvCh.value;
      statusRecvCh, taken := None, Some(st);
    }

    /** Any finite run of the node. The client set is announced or about to be at its end, the
        routers hold exactly the keys of the sets, and as long as all statuses received list
        every track key once, exactly their tracks. The clients are those whose last event of
        all taken added them. */
    method Run(inputs: seq<Input>)
      requires Valid() && Refined(Now()) && statusRecvCh.None? && arriving.None?
      modifies Repr()
      ensures Valid()
      ensures (forall i | 0 <= i < |inputs| && inputs[i].StatusArrives? :: DistinctTracks(inputs[i].status)) ==>
        Refined(Now())
      ensures old(Backlog()) <= Backlog()
      ensures forall k :: k in clientSet.Contents() <==> exists i: nat :: LastOf(events, i, k) && events[i].state.Add?
      ensures forall k, i: nat | LastOf(events, i, k) && events[i].state.Add? ::
        k in clientSet.Contents() && clientSet.Contents()[k] == events[i].session
    {
      ghost var distinct :=
        forall i | 0 <= i < |inputs| && inputs[i].StatusArrives? :: DistinctTracks(inputs[i].status);
      for i := 0 to |inputs|
        invariant Valid() && old(Backlog()) <= Backlog()
        invariant distinct ==> Refined(Now())
        invariant distinct && statusRecvCh.Some? ==> DistinctTracks(statusRecvCh.value)
        invariant distinct && arriving.Some? ==> DistinctTracks(arriving.value)
      {
        Next(inputs[i]);
      }
      forall k
        ensures k in ClientsOf(events) <==> exists i: nat :: LastOf(events, i, k) && events[i].state.Add?
        ensures forall i: nat | LastOf(events, i, k) && events[i].state.Add? ::
          k in ClientsOf(events) && ClientsOf(events)[k] == events[i].session
      {
        ClientsOfIs(events, k);
      }
    }
  }

  /** Distinct keys are needed: a new key listed twice is replaced before it is started, and the
      watchdog ends up with the first track while the set holds the second. */
  lemma DuplicateKeyDiverges(node: Node, sid: string)
    ensures var t, u := ForwardTrack(node, sid, "a", []), ForwardTrack(node, sid, "b", []);
      && ForwardKey(t) == ForwardKey(u)
      && Replayed(ForwardKey, map[], AddsOf(ForwardKey, map[], [t, u]), [],
                  ReplacesOf(ForwardKey, map[], [t, u])) == map[ForwardKey(t) := t]
      && MapOf(ForwardKey, [t, u]) == map[ForwardKey(t) := u]
  {
    var t, u := ForwardTrack(node, sid, "a", []), ForwardTrack(node, sid, "b", []);
    DoubledKeyReplayed(ForwardKey, t, u);
  }
}
