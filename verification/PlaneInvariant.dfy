/**
 The representation invariant of the data plane, kept by every operation and so
 true in every reachable state.
 */
module PlaneInvariant {
  import opened Bytes
  import opened Queues
  import opened DataPlane

  /** The (session, stream) index and the stream table are inverse to each other. */
  ghost predicate IndexExact(streams: map<bytes, Stream>, index: map<(nat, nat), bytes>) {
    (forall h :: h in streams ==>
      var k := (streams[h].session, streams[h].stream); k in index && index[k] == h)
    && (forall k :: k in index ==>
      index[k] in streams && (streams[index[k]].session, streams[index[k]].stream) == k)
  }

  /** Every stream lives in a known session of the same application. */
  ghost predicate StreamsOwned(streams: map<bytes, Stream>, sessions: map<nat, Session>) {
    forall h :: h in streams ==>
      streams[h].session in sessions && sessions[streams[h].session].app == streams[h].app
  }

  /** The pending-session queue lists each pending session once and nothing else. */
  ghost predicate PendingSessionsExact(sessions: map<nat, Session>, queue: seq<nat>) {
    Distinct(queue) && (forall id :: id in queue <==> id in sessions && sessions[id].pending)
  }

  /** The pending-stream queue lists each pending stream once and nothing else. */
  ghost predicate PendingStreamsExact(streams: map<bytes, Stream>, queue: seq<bytes>) {
    Distinct(queue) && (forall h :: h in queue <==> h in streams && streams[h].pending)
  }

  /** `h` was cut from a counter value below `next`. */
  ghost predicate Issued(h: bytes, next: nat) {
    |h| == 16 && FromBigEndian(h[..8]) < next
  }

  ghost predicate HandlesIssued(streams: map<bytes, Stream>, next: nat) {
    next <= U64_MAX && (forall h :: h in streams ==> Issued(h, next))
  }

  function TotalBytes(chunks: seq<bytes>): nat {
    |Flatten(chunks)|
  }

  /** The byte count is exact and bounded, and no chunk is empty. */
  ghost predicate QueueExact(s: Stream) {
    s.queuedBytes == TotalBytes(s.queued) <= MAX_STREAM_BUFFER_BYTES
    && (forall i :: 0 <= i < |s.queued| ==> s.queued[i] != [])
  }

  ghost predicate QueuesExact(streams: map<bytes, Stream>) {
    forall h :: h in streams ==> QueueExact(streams[h])
  }

  function DatagramTotal(entries: seq<Datagram>): nat {
    if entries == [] then 0 else |entries[0].data| + DatagramTotal(entries[1..])
  }

  ghost predicate DatagramQueueExact(q: DatagramQueue) {
    q.bytes == DatagramTotal(q.entries) <= MAX_DATAGRAM_BYTES && |q.entries| <= MAX_DATAGRAM_QUEUE
  }

  ghost predicate DatagramsExact(datagrams: map<nat, DatagramQueue>) {
    forall id :: id in datagrams ==> DatagramQueueExact(datagrams[id])
  }

  /** One listener per (application, protocol), each with a usable pending bound. */
  ghost predicate ListenersExact(ls: seq<Listener>) {
    (forall i :: 0 <= i < |ls| ==> 1 <= ls[i].maxPending <= MAX_PENDING_SESSIONS)
    && (forall i, j :: 0 <= i < j < |ls| ==> ls[i].app != ls[j].app || ls[i].protocol != ls[j].protocol)
  }

  ghost predicate Inv(p: Plane) {
    IndexExact(p.streams, p.index) && StreamsOwned(p.streams, p.sessions)
    && PendingSessionsExact(p.sessions, p.pendingSessions)
    && PendingStreamsExact(p.streams, p.pendingStreams)
    && HandlesIssued(p.streams, p.nextHandle) && QueuesExact(p.streams)
    && DatagramsExact(p.datagrams) && ListenersExact(p.listeners)
  }

  lemma EmptyInv()
    ensures Inv(EMPTY_PLANE)
  {
  }

  // ----- handles ------------------------------------------------------------

  lemma HandleOfCounter(id: nat)
    requires id <= U64_MAX
    ensures FromBigEndian(HandleOf(id)[..8]) == id
  {
    Pow256Values();
    BigEndianRoundTrip(id, 8);
    assert HandleOf(id)[..8] == BigEndian(id, 8);
  }

  /** While the counter is below its maximum, the next handle is not in use. */
  lemma NextHandleFresh(p: Plane)
    requires HandlesIssued(p.streams, p.nextHandle)
    ensures HandleOf(p.nextHandle) !in p.streams
  {
    HandleOfCounter(p.nextHandle);
  }

  // ----- listeners ----------------------------------------------------------

  lemma {:induction false} ListenersExceptMembers(ls: seq<Listener>, app: bytes, protocol: bytes)
    ensures forall l :: l in ListenersExcept(ls, app, protocol) <==>
              l in ls && !(l.app == app && l.protocol == protocol)
  {
    if ls != [] {
      ListenersExceptMembers(ls[..|ls| - 1], app, protocol);
      assert ls == ls[..|ls| - 1] + [ls[|ls| - 1]];
    }
  }

  lemma {:induction false} ListenersWithoutMembers(ls: seq<Listener>, apps: set<bytes>)
    ensures forall l :: l in ListenersWithout(ls, apps) <==> l in ls && l.app !in apps
  {
    if ls != [] {
      ListenersWithoutMembers(ls[..|ls| - 1], apps);
      assert ls == ls[..|ls| - 1] + [ls[|ls| - 1]];
    }
  }

  lemma ListenersPush(ls: seq<Listener>, l: Listener)
    requires ListenersExact(ls) && 1 <= l.maxPending <= MAX_PENDING_SESSIONS
    requires forall x :: x in ls ==> x.app != l.app || x.protocol != l.protocol
    ensures ListenersExact(ls + [l])
  {
  }

  lemma ListenersFront(ls: seq<Listener>)
    requires ListenersExact(ls) && ls != []
    ensures ListenersExact(ls[..|ls| - 1])
    ensures forall x :: x in ls[..|ls| - 1] ==> x.app != ls[|ls| - 1].app || x.protocol != ls[|ls| - 1].protocol
  {
  }

  lemma {:induction false} ListenersExceptExact(ls: seq<Listener>, app: bytes, protocol: bytes)
    requires ListenersExact(ls)
    ensures ListenersExact(ListenersExcept(ls, app, protocol))
  {
    if ls != [] {
      var front, l := ls[..|ls| - 1], ls[|ls| - 1];
      ListenersFront(ls);
      ListenersExceptExact(front, app, protocol);
      ListenersExceptMembers(front, app, protocol);
      if !(l.app == app && l.protocol == protocol) {
        ListenersPush(ListenersExcept(front, app, protocol), l);
      }
    }
  }

  lemma {:induction false} ListenersWithoutExact(ls: seq<Listener>, apps: set<bytes>)
    requires ListenersExact(ls)
    ensures ListenersExact(ListenersWithout(ls, apps))
  {
    if ls != [] {
      var front, l := ls[..|ls| - 1], ls[|ls| - 1];
      ListenersFront(ls);
      ListenersWithoutExact(front, apps);
      ListenersWithoutMembers(front, apps);
      if l.app !in apps {
        ListenersPush(ListenersWithout(front, apps), l);
      }
    }
  }

  lemma RegisterListenerKeeps(p: Plane, protocol: bytes, app: bytes, principal: nat, conn: bytes, max: nat)
    requires Inv(p)
    ensures Inv(RegisterListener(p, protocol, app, principal, conn, max))
  {
    ListenersExceptExact(p.listeners, app, protocol);
    ListenersExceptMembers(p.listeners, app, protocol);
    ListenersPush(ListenersExcept(p.listeners, app, protocol),
                  Listener(protocol, app, principal, conn, ClampPending(max)));
  }

  // ----- sessions and removal -----------------------------------------------

  lemma AddSessionKeeps(p: Plane, id: nat, s: Session)
    requires Inv(p) && id !in p.sessions
    ensures Inv(AddSession(p, id, s))
  {
  }

  lemma AcceptSessionKeeps(p: Plane, id: nat, principal: nat, conn: bytes)
    requires Inv(p)
    ensures Inv(AcceptSession(p, id, principal, conn).plane)
  {
    WithoutDistinct(p.pendingSessions, {id});
  }

  lemma RemoveSessionsKeeps(p: Plane, ids: set<nat>)
    requires Inv(p)
    ensures Inv(RemoveSessions(p, ids))
  {
    WithoutDistinct(p.pendingSessions, ids);
    KeepDistinct(p.pendingStreams, StreamsOutside(p.streams, ids).Keys);
  }

  lemma RemoveApplicationsKeeps(p: Plane, apps: set<bytes>)
    requires Inv(p)
    ensures Inv(RemoveApplications(p, apps))
  {
    ListenersWithoutExact(p.listeners, apps);
    WithoutDistinct(p.pendingSessions, SessionsOf(p, apps));
    WithoutDistinct(p.pendingStreams, HandlesOf(p, apps));
    var q := RemoveApplications(p, apps);
    assert forall h :: h in q.streams <==> h in p.streams && p.streams[h].app !in apps;
    assert forall id :: id in q.sessions <==> id in p.sessions && p.sessions[id].app !in apps;
  }

  /** Everything the invariant reads of a stream except its queue. */
  predicate SameIdentity(a: Stream, b: Stream) {
    a.session == b.session && a.stream == b.stream && a.app == b.app && a.pending == b.pending
  }

  lemma SameStreamsKeep(
    streams: map<bytes, Stream>, streams': map<bytes, Stream>, index: map<(nat, nat), bytes>,
    sessions: map<nat, Session>, queue: seq<bytes>, next: nat)
    requires streams'.Keys == streams.Keys && (forall h :: h in streams ==> SameIdentity(streams[h], streams'[h]))
    requires IndexExact(streams, index) && StreamsOwned(streams, sessions)
    requires PendingStreamsExact(streams, queue) && HandlesIssued(streams, next)
    ensures IndexExact(streams', index) && StreamsOwned(streams', sessions)
    ensures PendingStreamsExact(streams', queue) && HandlesIssued(streams', next)
  {
    assert forall h :: h in streams' <==> h in streams;
  }

  lemma SameSessionsKeep(
    streams: map<bytes, Stream>, sessions: map<nat, Session>, sessions': map<nat, Session>, queue: seq<nat>)
    requires sessions'.Keys == sessions.Keys
    requires forall id :: id in sessions ==>
               sessions'[id].app == sessions[id].app && sessions'[id].pending == sessions[id].pending
    requires StreamsOwned(streams, sessions) && PendingSessionsExact(sessions, queue)
    ensures StreamsOwned(streams, sessions') && PendingSessionsExact(sessions', queue)
  {
    assert forall id :: id in sessions' <==> id in sessions;
  }

  lemma RebindApplicationsKeeps(p: Plane, apps: set<bytes>, conn: bytes)
    requires Inv(p)
    ensures Inv(RebindApplications(p, apps, conn))
  {
    var q := RebindApplications(p, apps, conn);
    SameSessionsKeep(p.streams, p.sessions, q.sessions, p.pendingSessions);
    SameStreamsKeep(p.streams, q.streams, p.index, q.sessions, p.pendingStreams, p.nextHandle);
    assert QueuesExact(q.streams);
  }

  // ----- streams ------------------------------------------------------------

  lemma AddStreamKeeps(p: Plane, s: Stream)
    requires Inv(p) && p.nextHandle < U64_MAX
    requires s.session in p.sessions && p.sessions[s.session].app == s.app
    requires (s.session, s.stream) !in p.index
    requires s.queued == [] && s.queuedBytes == 0
    ensures Inv(AddStream(p, s))
  {
    NextHandleFresh(p);
    HandleOfCounter(p.nextHandle);
    var h := HandleOf(p.nextHandle);
    AddStreamIndex(p.streams, p.index, h, s);
    AddStreamPending(p.streams, p.pendingStreams, h, s);
    assert QueuesExact(p.streams[h := s]);
    assert StreamsOwned(p.streams[h := s], p.sessions);
  }

  lemma AddStreamIndex(streams: map<bytes, Stream>, index: map<(nat, nat), bytes>, h: bytes, s: Stream)
    requires IndexExact(streams, index) && h !in streams && (s.session, s.stream) !in index
    ensures IndexExact(streams[h := s], index[(s.session, s.stream) := h])
  {
  }

  lemma AddStreamPending(streams: map<bytes, Stream>, queue: seq<bytes>, h: bytes, s: Stream)
    requires PendingStreamsExact(streams, queue) && h !in streams
    ensures PendingStreamsExact(streams[h := s], if s.pending then queue + [h] else queue)
  {
  }

  /** Replacing a stream record by one with the same identity and flag. */
  lemma SetStreamKeeps(p: Plane, h: bytes, s: Stream)
    requires Inv(p) && h in p.streams && QueueExact(s) && SameIdentity(p.streams[h], s)
    ensures Inv(p.(streams := p.streams[h := s]))
  {
    SameStreamsKeep(p.streams, p.streams[h := s], p.index, p.sessions, p.pendingStreams, p.nextHandle);
    assert QueuesExact(p.streams[h := s]);
  }

  lemma AcceptStreamKeeps(p: Plane, h: bytes, principal: nat, conn: bytes)
    requires Inv(p)
    ensures Inv(AcceptStream(p, h, principal, conn).plane)
  {
    if StreamDenied(p, h, principal, conn).None? && p.streams[h].pending {
      AcceptedStream(p.streams, p.index, p.pendingStreams, h);
    }
  }

  lemma AcceptedStream(streams: map<bytes, Stream>, index: map<(nat, nat), bytes>, pending: seq<bytes>, h: bytes)
    requires IndexExact(streams, index) && QueuesExact(streams) && PendingStreamsExact(streams, pending)
    requires h in streams
    ensures var streams' := streams[h := streams[h].(pending := false)];
            IndexExact(streams', index) && QueuesExact(streams')
            && PendingStreamsExact(streams', Without(pending, {h}))
  {
    WithoutDistinct(pending, {h});
    assert QueueExact(streams[h].(pending := false));
  }

  lemma RejectStreamKeeps(p: Plane, h: bytes, principal: nat, conn: bytes)
    requires Inv(p)
    ensures Inv(RejectStream(p, h, principal, conn).plane)
  {
    if StreamDenied(p, h, principal, conn).None? {
      WithoutDistinct(p.pendingStreams, {h});
      RejectStreamIndex(p.streams, p.index, h);
      assert PendingStreamsExact(p.streams - {h}, Without(p.pendingStreams, {h}));
    }
  }

  lemma RejectStreamIndex(streams: map<bytes, Stream>, index: map<(nat, nat), bytes>, h: bytes)
    requires IndexExact(streams, index) && h in streams
    ensures IndexExact(streams - {h}, index - {(streams[h].session, streams[h].stream)})
  {
  }

  lemma PushKeepsQueue(s: Stream, data: bytes, eof: bool)
    requires QueueExact(s) && s.queuedBytes + |data| <= MAX_STREAM_BUFFER_BYTES
    ensures QueueExact(s.(queuedBytes := s.queuedBytes + |data|, eof := eof,
                          queued := if data == [] then s.queued else s.queued + [data]))
  {
    FlattenPush(s.queued, data);
  }

  lemma PushStreamDataKeeps(p: Plane, h: bytes, data: bytes, eof: bool)
    requires Inv(p)
    ensures Inv(PushStreamData(p, h, data, eof).plane)
  {
    if h in p.streams && p.streams[h].queuedBytes + |data| <= MAX_STREAM_BUFFER_BYTES {
      var s := p.streams[h];
      PushKeepsQueue(s, data, s.eof || eof);
      SetStreamKeeps(p, h, PushStreamData(p, h, data, eof).plane.streams[h]);
    }
  }

  lemma ReadKeepsQueue(s: Stream, max: nat)
    requires QueueExact(s) && s.queued != [] && max > 0
    ensures QueueExact(ReadQueue(s, max).0)
  {
    var front, rest := s.queued[0], s.queued[1..];
    if |front| > max {
      assert ([front[max..]] + rest)[1..] == rest;
    }
  }

  lemma ReadStreamKeeps(p: Plane, h: bytes, principal: nat, conn: bytes, max: nat, wait: bool)
    requires Inv(p)
    ensures Inv(ReadStream(p, h, principal, conn, max, wait).plane)
  {
    if ReadStream(p, h, principal, conn, max, wait).plane != p {
      ReadKeepsQueue(p.streams[h], max);
      SetStreamKeeps(p, h, ReadQueue(p.streams[h], max).0);
    }
  }

  lemma ResetKeeps(p: Plane, h: bytes, code: nat)
    requires Inv(p) && h in p.streams
    ensures Inv(p.(streams := p.streams[h := ResetStream(p.streams[h], code)]))
  {
    SetStreamKeeps(p, h, ResetStream(p.streams[h], code));
  }

  lemma CloseStreamSendKeeps(p: Plane, h: bytes, principal: nat, conn: bytes)
    requires Inv(p)
    ensures Inv(CloseStreamSend(p, h, principal, conn).plane)
  {
    if StreamDenied(p, h, principal, conn).None? {
      SetStreamKeeps(p, h, p.streams[h].(sendClosed := true));
    }
  }

  lemma OpenStreamKeeps(
    p: Plane, principal: nat, conn: bytes, app: bytes, session: nat, stream: nat, protocol: bytes)
    requires Inv(p) && p.nextHandle < U64_MAX
    ensures Inv(OpenStream(p, principal, conn, app, session, stream, protocol).plane)
  {
    var bound := BindSession(p, session, conn, app, principal, false);
    if session !in p.sessions {
      AddSessionKeeps(p, session, Session(app, principal, conn, false));
    }
    if bound.result.Ok? && (session, stream) !in bound.plane.index {
      AddStreamKeeps(bound.plane, FreshStream(session, stream, app, principal, conn, protocol, false));
    }
  }

  lemma RouteIncomingStreamKeeps(p: Plane, session: nat, stream: nat, protocol: bytes, data: bytes, eof: bool)
    requires Inv(p) && p.nextHandle < U64_MAX
    ensures Inv(RouteIncomingStream(p, session, stream, protocol, data, eof).plane)
  {
    match FindListener(p.listeners, protocol)
    case None =>
    case Some(l) =>
      var admitted := AdmitSession(p, l, session);
      if session !in p.sessions {
        AddSessionKeeps(p, session, Session(l.app, l.principal, l.conn, true));
      }
      if admitted.result.Ok? && admitted.plane.sessions[session].app == l.app {
        AttachKeeps(admitted.plane, l, session, stream, protocol);
        var attached := AttachStream(admitted.plane, l, session, stream, protocol);
        PushStreamDataKeeps(attached, attached.index[(session, stream)], data, eof);
      }
  }

  lemma AttachKeeps(p: Plane, l: Listener, session: nat, stream: nat, protocol: bytes)
    requires Inv(p) && p.nextHandle < U64_MAX
    requires session in p.sessions && p.sessions[session].app == l.app
    ensures Inv(AttachStream(p, l, session, stream, protocol))
    ensures (session, stream) in AttachStream(p, l, session, stream, protocol).index
  {
    if (session, stream) !in p.index {
      AddStreamKeeps(p, FreshStream(session, stream, l.app, l.principal, l.conn, protocol, true));
    }
  }

  lemma RouteStreamDataKeeps(p: Plane, session: nat, stream: nat, protocol: bytes, data: bytes, eof: bool)
    requires Inv(p) && p.nextHandle < U64_MAX
    ensures Inv(RouteStreamData(p, session, stream, protocol, data, eof).plane)
  {
    if (session, stream) in p.index {
      PushStreamDataKeeps(p, p.index[(session, stream)], data, eof);
    } else {
      RouteIncomingStreamKeeps(p, session, stream, protocol, data, eof);
    }
  }

  // ----- datagrams ----------------------------------------------------------

  lemma {:induction false} DatagramTotalPush(entries: seq<Datagram>, d: Datagram)
    ensures DatagramTotal(entries + [d]) == DatagramTotal(entries) + |d.data|
  {
    if entries == [] {
      assert [d][1..] == [];
      assert [] + [d] == [d];
    } else {
      DatagramTotalPush(entries[1..], d);
      assert (entries + [d])[1..] == entries[1..] + [d];
    }
  }

  lemma SetDatagramsKeeps(p: Plane, id: nat, q: DatagramQueue)
    requires Inv(p) && DatagramQueueExact(q)
    ensures Inv(p.(datagrams := p.datagrams[id := q]))
  {
  }

  lemma PushDatagramKeeps(p: Plane, id: nat, context: nat, data: bytes, expired: bool)
    requires Inv(p)
    ensures Inv(PushDatagram(p, id, context, data, expired).plane)
  {
    PushedDatagrams(p, id, context, data, expired);
    SetDatagramsKeeps(p, id, PushDatagram(p, id, context, data, expired).plane.datagrams[id]);
  }

  lemma PushedDatagrams(p: Plane, id: nat, context: nat, data: bytes, expired: bool)
    requires DatagramsExact(p.datagrams)
    ensures DatagramQueueExact(PushDatagram(p, id, context, data, expired).plane.datagrams[id])
  {
    DatagramTotalPush(DatagramsOf(p, id).entries, Datagram(context, data, expired));
  }

  lemma ReceiveDatagramKeeps(p: Plane, id: nat, conn: bytes, max: nat, wait: bool)
    requires Inv(p)
    ensures Inv(ReceiveDatagram(p, id, conn, max, wait).plane)
  {
    var r := ReceiveDatagram(p, id, conn, max, wait).plane;
    if r != p {
      SetDatagramsKeeps(p, id, r.datagrams[id]);
    }
  }

  // ----- the remaining operations -------------------------------------------

  lemma RemoveListenerKeeps(p: Plane, app: bytes)
    requires Inv(p)
    ensures Inv(RemoveListener(p, app))
  {
    ListenersWithoutExact(p.listeners, {app});
  }

  lemma RemoveConnectionKeeps(p: Plane, conn: bytes)
    requires Inv(p)
    ensures Inv(RemoveConnection(p, conn))
  {
    var apps := ListenerApps(p.listeners, conn);
    RemoveApplicationsKeeps(p, apps);
    var rest := RemoveApplications(p, apps);
    RemoveSessionsKeeps(rest, SessionsOn(rest, conn));
  }

  lemma RebindApplicationKeeps(p: Plane, app: bytes, principal: nat, conn: bytes)
    requires Inv(p)
    ensures Inv(RebindApplication(p, app, principal, conn).plane)
  {
    RebindApplicationsKeeps(p, {app}, conn);
  }

  lemma BindSessionKeeps(p: Plane, id: nat, conn: bytes, app: bytes, principal: nat, pending: bool)
    requires Inv(p)
    ensures Inv(BindSession(p, id, conn, app, principal, pending).plane)
  {
    if id !in p.sessions {
      AddSessionKeeps(p, id, Session(app, principal, conn, pending));
    }
  }

  lemma RejectSessionKeeps(p: Plane, id: nat, principal: nat, conn: bytes)
    requires Inv(p)
    ensures Inv(RejectSession(p, id, principal, conn).plane)
  {
    RemoveSessionsKeeps(p, {id});
  }

  lemma MarkStreamResetKeeps(p: Plane, h: bytes, principal: nat, conn: bytes, code: nat)
    requires Inv(p)
    ensures Inv(MarkStreamReset(p, h, principal, conn, code).plane)
  {
    if h in p.streams {
      ResetKeeps(p, h, code);
    }
  }

  lemma MarkStreamResetForSessionKeeps(p: Plane, session: nat, stream: nat, code: nat)
    requires Inv(p)
    ensures Inv(MarkStreamResetForSession(p, session, stream, code).plane)
  {
    if (session, stream) in p.index {
      ResetKeeps(p, p.index[(session, stream)], code);
    }
  }

  lemma AllocateDatagramIdKeeps(p: Plane)
    requires Inv(p)
    ensures Inv(AllocateDatagramId(p).0)
  {
  }

  // ----- every step, every run ----------------------------------------------

  /** Every operation keeps the invariant while the handle counter is below its maximum. */
  lemma StepKeepsInv(p: Plane, op: Op)
    requires Inv(p) && p.nextHandle < U64_MAX
    ensures Inv(Step(p, op))
  {
    if op.OpRegisterListener? || op.OpRemoveListener? || op.OpRemoveApplication? || op.OpRemoveConnection?
       || op.OpRebindApplication? {
      RegistryStepKeepsInv(p, op);
    } else if op.OpRemoveSession? || op.OpBindSession? || op.OpAcceptSession? || op.OpRejectSession? {
      SessionStepKeepsInv(p, op);
    } else {
      StreamStepKeepsInv(p, op);
    }
  }

  lemma RegistryStepKeepsInv(p: Plane, op: Op)
    requires Inv(p)
    requires op.OpRegisterListener? || op.OpRemoveListener? || op.OpRemoveApplication? || op.OpRemoveConnection?
             || op.OpRebindApplication?
    ensures Inv(Step(p, op))
  {
    if op.OpRegisterListener? {
      RegisterListenerKeeps(p, op.protocol, op.app, op.principal, op.conn, op.max);
    } else if op.OpRemoveListener? {
      RemoveListenerKeeps(p, op.app);
    } else if op.OpRemoveApplication? {
      RemoveApplicationsKeeps(p, {op.app});
    } else if op.OpRemoveConnection? {
      RemoveConnectionKeeps(p, op.conn);
    } else {
      RebindApplicationKeeps(p, op.app, op.principal, op.conn);
    }
  }

  lemma SessionStepKeepsInv(p: Plane, op: Op)
    requires Inv(p) && (op.OpRemoveSession? || op.OpBindSession? || op.OpAcceptSession? || op.OpRejectSession?)
    ensures Inv(Step(p, op))
  {
    if op.OpBindSession? {
      BindSessionKeeps(p, op.id, op.conn, op.app, op.principal, op.pending);
    } else if op.OpAcceptSession? {
      AcceptSessionKeeps(p, op.id, op.principal, op.conn);
    } else if op.OpRejectSession? {
      RejectSessionKeeps(p, op.id, op.principal, op.conn);
    } else {
      RemoveSessionsKeeps(p, {op.id});
    }
  }

  lemma StreamStepKeepsInv(p: Plane, op: Op)
    requires Inv(p) && p.nextHandle < U64_MAX
    requires !op.OpRegisterListener? && !op.OpRemoveListener? && !op.OpRemoveApplication?
    requires !op.OpRemoveConnection? && !op.OpRebindApplication? && !op.OpRemoveSession?
    requires !op.OpBindSession? && !op.OpAcceptSession? && !op.OpRejectSession?
    ensures Inv(Step(p, op))
  {
    if op.OpOpenStream? {
      OpenStreamKeeps(p, op.principal, op.conn, op.app, op.session, op.stream, op.protocol);
    } else if op.OpRouteIncomingStream? {
      RouteIncomingStreamKeeps(p, op.session, op.stream, op.protocol, op.data, op.eof);
    } else if op.OpRouteStreamData? {
      RouteStreamDataKeeps(p, op.session, op.stream, op.protocol, op.data, op.eof);
    } else if op.OpPushDatagram? || op.OpReceiveDatagram? || op.OpAllocateDatagramId? {
      DatagramStepKeepsInv(p, op);
    } else if op.OpMarkStreamReset? {
      MarkStreamResetKeeps(p, op.h, op.principal, op.conn, op.code);
    } else if op.OpMarkStreamResetForSession? {
      MarkStreamResetForSessionKeeps(p, op.session, op.stream, op.code);
    } else {
      OneStreamStepKeepsInv(p, op);
    }
  }

  /** Operations on a stream that exists. */
  lemma OneStreamStepKeepsInv(p: Plane, op: Op)
    requires Inv(p)
    requires op.OpAcceptStream? || op.OpRejectStream? || op.OpPushStreamData? || op.OpReadStream?
             || op.OpCloseStreamSend?
    ensures Inv(Step(p, op))
  {
    if op.OpAcceptStream? {
      AcceptStreamKeeps(p, op.h, op.principal, op.conn);
    } else if op.OpRejectStream? {
      RejectStreamKeeps(p, op.h, op.principal, op.conn);
    } else if op.OpPushStreamData? {
      PushStreamDataKeeps(p, op.h, op.data, op.eof);
    } else if op.OpReadStream? {
      ReadStreamKeeps(p, op.h, op.principal, op.conn, op.max, op.wait);
    } else {
      CloseStreamSendKeeps(p, op.h, op.principal, op.conn);
    }
  }

  lemma DatagramStepKeepsInv(p: Plane, op: Op)
    requires Inv(p) && (op.OpPushDatagram? || op.OpReceiveDatagram? || op.OpAllocateDatagramId?)
    ensures Inv(Step(p, op))
  {
    if op.OpPushDatagram? {
      PushDatagramKeeps(p, op.id, op.context, op.data, op.expired);
    } else if op.OpReceiveDatagram? {
      ReceiveDatagramKeeps(p, op.id, op.conn, op.max, op.wait);
    } else {
      AllocateDatagramIdKeeps(p);
    }
  }
}
