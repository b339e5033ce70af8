/** The messages of proto/isglb.proto as values, and the item keys of util/pbimpl.go
    and util/nodeimpl.go. Printed messages are compared there; here values are equal
    exactly when all their fields are. */
module Proto {

  type Nid = string

  datatype Node = Node(dc: string, nid: Nid, service: string, rpc: string)

  datatype Layer = Q | H | F

  datatype Subscription = Subscription(trackId: string, mute: bool, layer: Layer)

  datatype ForwardTrack = ForwardTrack(src: Node, remoteSessionId: string, localSessionId: string,
                                       tracks: seq<Subscription>)

  datatype ProceedTrack = ProceedTrack(dstSessionId: string, procedure: seq<bv8>,
                                       srcSessionIdList: seq<string>)

  datatype ClientNeededSession = ClientNeededSession(session: string, user: string)

  datatype SFUStatus = SFUStatus(sfu: Node, forwardTracks: seq<ForwardTrack>,
                                 proceedTracks: seq<ProceedTrack>, clients: seq<ClientNeededSession>)

  datatype Report =
    | Transmission(src: Node, dst: Node, report: seq<bv8>)
    | Computation(node: Node, report: seq<bv8>)

  datatype QualityReport = QualityReport(timestamp: int, report: Report)

  datatype Request =
    | StatusRequest(status: SFUStatus)
    | ReportRequest(quality: QualityReport)
    | EmptyRequest

  const USER_SEPARATOR := ", Session: "
  const NID_SEPARATOR := ", RemoteSessionId: "

  function ClientKey(c: ClientNeededSession): string {
    "{ User: " + (c.user + USER_SEPARATOR + c.session) + " }"
  }

  function ForwardKey(t: ForwardTrack): string {
    "{ NID: " + (t.src.nid + NID_SEPARATOR + t.remoteSessionId) + " }"
  }

  function ProceedKey(t: ProceedTrack): string {
    t.dstSessionId
  }

  function StatusKey(s: SFUStatus): Nid {
    s.sfu.nid
  }

  // The keys are printed texts, and two fields joined by a separator can be read in
  // more than one way when a field holds the separator.

  ghost predicate Contains(text: string, part: string) {
    exists i :: OccursAt(text, part, i)
  }

  ghost predicate OccursAt(text: string, part: string, i: int) {
    0 <= i <= i + |part| <= |text| && text[i..i + |part|] == part
  }

  /** The first character of the separator occurs only once in it, so it cannot overlap itself. */
  ghost predicate NoOverlap(sep: string) {
    sep != [] && forall d | 0 < d < |sep| :: sep[d] != sep[0]
  }

  /** An occurrence of the separator in a joined text is the one that joins, or lies in a field. */
  lemma OccurrenceInJoin(a: string, sep: string, b: string, i: int)
    requires NoOverlap(sep) && OccursAt(a + sep + b, sep, i)
    ensures i == |a| || (i + |sep| <= |a| && OccursAt(a, sep, i))
         || (|a| + |sep| <= i && OccursAt(b, sep, i - |a| - |sep|))
  {
    var t := a + sep + b;
    assert forall j | |a| <= j < |a| + |sep| :: t[j] == sep[j - |a|];
    assert forall j | i <= j < i + |sep| :: t[j] == sep[j - i];
    assert t[|a|] == sep[0] == t[i];
    if i + |sep| <= |a| {
      assert a[i..i + |sep|] == t[i..i + |sep|];
    }
    if |a| + |sep| <= i {
      var j := i - |a| - |sep|;
      assert b[j..j + |sep|] == t[i..i + |sep|];
    }
  }

  ghost predicate SameJoin(sep: string, a: string, b: string, c: string, d: string) {
    a + sep + b == c + sep + d
  }

  lemma SecondReadingShowsSeparator(sep: string, a: string, b: string, c: string, d: string)
    requires NoOverlap(sep) && SameJoin(sep, a, b, c, d) && (c, d) != (a, b)
    ensures Contains(a, sep) || Contains(b, sep)
  {
    assert (c + sep + d)[|c|..|c| + |sep|] == sep;
    OccurrenceInJoin(a, sep, b, |c|);
    if |c| == |a| {
      SameLengthSameReading(sep, a, b, c, d);
    }
  }

  lemma SameLengthSameReading(sep: string, a: string, b: string, c: string, d: string)
    requires SameJoin(sep, a, b, c, d) && |c| == |a|
    ensures c == a && d == b
  {
    assert c == (a + sep + b)[..|a|] == a;
    assert d == (a + sep + b)[|a| + |sep|..] == b;
  }

  lemma SplitAt(a: string, sep: string, i: int)
    requires OccursAt(a, sep, i)
    ensures a == a[..i] + sep + a[i + |sep|..]
  {
  }

  lemma SeparatorGivesSecondReading(sep: string, a: string, b: string)
    requires sep != [] && (Contains(a, sep) || Contains(b, sep))
    ensures exists c, d :: (c, d) != (a, b) && SameJoin(sep, a, b, c, d)
  {
    if i :| OccursAt(a, sep, i) {
      SplitAt(a, sep, i);
      var c, d := a[..i], a[i + |sep|..] + sep + b;
      assert c + sep + d == a[..i] + sep + a[i + |sep|..] + sep + b;
      assert SameJoin(sep, a, b, c, d) && |c| != |a|;
    } else {
      var i :| OccursAt(b, sep, i);
      SplitAt(b, sep, i);
      var c, d := a + sep + b[..i], b[i + |sep|..];
      assert c + sep + d == a + sep + (b[..i] + sep + b[i + |sep|..]);
      assert SameJoin(sep, a, b, c, d) && |c| != |a|;
    }
  }

  /** A joined text has a second reading exactly when one of the two fields holds the separator. */
  lemma SecondReadingIff(sep: string, a: string, b: string)
    requires NoOverlap(sep)
    ensures (exists c, d :: (c, d) != (a, b) && SameJoin(sep, a, b, c, d))
       <==> Contains(a, sep) || Contains(b, sep)
  {
    if c, d :| (c, d) != (a, b) && SameJoin(sep, a, b, c, d) {
      SecondReadingShowsSeparator(sep, a, b, c, d);
    }
    if Contains(a, sep) || Contains(b, sep) {
      SeparatorGivesSecondReading(sep, a, b);
    }
  }

  ghost predicate SameForwardKeyOtherPair(t: ForwardTrack, u: ForwardTrack) {
    && ForwardKey(u) == ForwardKey(t)
    && (u.src.nid, u.remoteSessionId) != (t.src.nid, t.remoteSessionId)
  }

  /** The key of a forwarded track stands for one pair of node and remote session, except
      exactly when one of the two holds the separator text: then another pair has the same key. */
  lemma ForwardKeyAmbiguousIff(t: ForwardTrack)
    ensures (exists u: ForwardTrack :: SameForwardKeyOtherPair(t, u))
       <==> Contains(t.src.nid, NID_SEPARATOR) || Contains(t.remoteSessionId, NID_SEPARATOR)
  {
    SecondReadingIff(NID_SEPARATOR, t.src.nid, t.remoteSessionId);
    if u: ForwardTrack :| SameForwardKeyOtherPair(t, u) {
      SameFrame("{ NID: ", t.src.nid + NID_SEPARATOR + t.remoteSessionId,
                u.src.nid + NID_SEPARATOR + u.remoteSessionId);
      assert SameJoin(NID_SEPARATOR, t.src.nid, t.remoteSessionId, u.src.nid, u.remoteSessionId);
    }
    if c, d :| (c, d) != (t.src.nid, t.remoteSessionId) && SameJoin(NID_SEPARATOR, t.src.nid, t.remoteSessionId, c, d) {
      var u := ForwardTrack(Node("", c, "", ""), d, "", []);
      assert SameForwardKeyOtherPair(t, u);
    }
  }

  /** The same of the key of a client session. */
  lemma ClientKeyAmbiguousIff(s: ClientNeededSession)
    ensures (exists u: ClientNeededSession :: ClientKey(u) == ClientKey(s) && u != s)
       <==> Contains(s.user, USER_SEPARATOR) || Contains(s.session, USER_SEPARATOR)
  {
    SecondReadingIff(USER_SEPARATOR, s.user, s.session);
    if u: ClientNeededSession :| ClientKey(u) == ClientKey(s) && u != s {
      SameFrame("{ User: ", s.user + USER_SEPARATOR + s.session, u.user + USER_SEPARATOR + u.session);
      assert SameJoin(USER_SEPARATOR, s.user, s.session, u.user, u.session);
    }
    if c, d :| (c, d) != (s.user, s.session) && SameJoin(USER_SEPARATOR, s.user, s.session, c, d) {
      var u := ClientNeededSession(d, c);
      assert ClientKey(u) == ClientKey(s);
    }
  }

  lemma SameFrame(open: string, x: string, y: string)
    requires open + x + " }" == open + y + " }"
    ensures x == y
  {
    var s, t := open + x + " }", open + y + " }";
    assert x == s[|open|..|s| - 2] && y == t[|open|..|t| - 2];
  }

  /** The key of a processed track stands for its destination session, whatever that is. */
  lemma ProceedKeyIff(t: ProceedTrack, u: ProceedTrack)
    ensures ProceedKey(t) == ProceedKey(u) <==> t.dstSessionId == u.dstSessionId
  {
  }
}
