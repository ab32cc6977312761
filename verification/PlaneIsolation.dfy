/**
 Applications do not disturb each other: an operation changes only the records
 of the applications it addresses.
 */
module PlaneIsolation {
  import opened Bytes
  import opened Queues
  import opened DataPlane
  import opened PlaneInvariant
  import opened PlaneRuns

  function ListenersFor(ls: seq<Listener>, app: bytes): seq<Listener> {
    if ls == [] then [] else
    var front, l := ls[..|ls| - 1], ls[|ls| - 1];
    if l.app == app then ListenersFor(front, app) + [l] else ListenersFor(front, app)
  }

  predicate IsSessionOf(p: Plane, id: nat, app: bytes) {
    id in p.sessions && p.sessions[id].app == app
  }

  predicate IsStreamOf(p: Plane, h: bytes, app: bytes) {
    h in p.streams && p.streams[h].app == app
  }

  ghost predicate SameSessions(p: Plane, q: Plane, app: bytes) {
    forall id :: (IsSessionOf(p, id, app) <==> IsSessionOf(q, id, app))
                 && (IsSessionOf(p, id, app) ==>
                       p.sessions[id] == q.sessions[id] && DatagramsOf(p, id) == DatagramsOf(q, id))
  }

  ghost predicate SameStreams(p: Plane, q: Plane, app: bytes) {
    forall h :: (IsStreamOf(p, h, app) <==> IsStreamOf(q, h, app))
                && (IsStreamOf(p, h, app) ==> p.streams[h] == q.streams[h])
  }

  /**
   All that belongs to `app` is the same in both planes: listeners, session and
   stream records with their queues, and its entries of the pending queues in
   their order. The stream index is the inverse of the stream table in every
   reachable state and needs no clause of its own.
   */
  ghost predicate SameView(p: Plane, q: Plane, app: bytes) {
    ListenersFor(p.listeners, app) == ListenersFor(q.listeners, app)
    && SameSessions(p, q, app) && SameStreams(p, q, app)
    && Keep(p.pendingSessions, SessionsOf(p, {app})) == Keep(q.pendingSessions, SessionsOf(q, {app}))
    && Keep(p.pendingStreams, HandlesOf(p, {app})) == Keep(q.pendingStreams, HandlesOf(q, {app}))
  }

  lemma SameViewTransitive(p: Plane, q: Plane, r: Plane, app: bytes)
    requires SameView(p, q, app) && SameView(q, r, app)
    ensures SameView(p, r, app)
  {
    assert forall id :: IsSessionOf(p, id, app) <==> IsSessionOf(q, id, app);
    assert forall h :: IsStreamOf(p, h, app) <==> IsStreamOf(q, h, app);
  }

  lemma SameKeys(p: Plane, q: Plane, app: bytes)
    ensures SameSessions(p, q, app) ==> SessionsOf(p, {app}) == SessionsOf(q, {app})
    ensures SameStreams(p, q, app) ==> HandlesOf(p, {app}) == HandlesOf(q, {app})
  {
    if SameSessions(p, q, app) {
      assert forall id :: id in SessionsOf(p, {app}) <==> IsSessionOf(p, id, app);
      assert forall id :: id in SessionsOf(q, {app}) <==> IsSessionOf(q, id, app);
    }
    if SameStreams(p, q, app) {
      assert forall h :: h in HandlesOf(p, {app}) <==> IsStreamOf(p, h, app);
      assert forall h :: h in HandlesOf(q, {app}) <==> IsStreamOf(q, h, app);
    }
  }

  // ----- the applications an operation addresses ----------------------------

  function AppOfSession(p: Plane, id: nat): set<bytes> {
    if id in p.sessions then {p.sessions[id].app} else {}
  }

  function AppOfStream(p: Plane, h: bytes): set<bytes> {
    if h in p.streams then {p.streams[h].app} else {}
  }

  function AppOfListener(p: Plane, protocol: bytes): set<bytes> {
    var l := FindListener(p.listeners, protocol);
    if l.Some? then {l.value.app} else {}
  }

  function AppOfIndexed(p: Plane, session: nat, stream: nat): set<bytes> {
    if (session, stream) in p.index then AppOfStream(p, p.index[(session, stream)]) else {}
  }

  function Touches(p: Plane, op: Op): set<bytes> {
    match op
    case OpRegisterListener(protocol, app, principal, conn, max) => {app}
    case OpRemoveListener(app) => {app}
    case OpRemoveApplication(app) => {app}
    case OpRemoveConnection(conn) =>
      ListenerApps(p.listeners, conn) + set id | id in SessionsOn(p, conn) :: p.sessions[id].app
    case OpRebindApplication(app, principal, conn) => {app}
    case OpRemoveSession(id) => AppOfSession(p, id)
    case OpBindSession(id, conn, app, principal, pending) => {app}
    case OpAcceptSession(id, principal, conn) => AppOfSession(p, id)
    case OpRejectSession(id, principal, conn) => AppOfSession(p, id)
    case OpOpenStream(principal, conn, app, session, stream, protocol) => {app}
    case OpRouteIncomingStream(session, stream, protocol, data, eof) => AppOfListener(p, protocol)
    case OpRouteStreamData(session, stream, protocol, data, eof) =>
      if (session, stream) in p.index then AppOfIndexed(p, session, stream) else AppOfListener(p, protocol)
    case OpAcceptStream(h, principal, conn) => AppOfStream(p, h)
    case OpRejectStream(h, principal, conn) => AppOfStream(p, h)
    case OpPushStreamData(h, data, eof) => AppOfStream(p, h)
    case OpMarkStreamReset(h, principal, conn, code) => AppOfStream(p, h)
    case OpMarkStreamResetForSession(session, stream, code) => AppOfIndexed(p, session, stream)
    case OpReadStream(h, principal, conn, max, wait) => AppOfStream(p, h)
    case OpCloseStreamSend(h, principal, conn) => AppOfStream(p, h)
    case OpPushDatagram(id, context, data, expired) => AppOfSession(p, id)
    case OpReceiveDatagram(id, conn, max, wait) => AppOfSession(p, id)
    case OpAllocateDatagramId => {}
  }

  // ----- listeners ----------------------------------------------------------

  lemma {:induction false} ListenersExceptFor(ls: seq<Listener>, other: bytes, protocol: bytes, app: bytes)
    requires other != app
    ensures ListenersFor(ListenersExcept(ls, other, protocol), app) == ListenersFor(ls, app)
  {
    if ls != [] {
      var front, l := ls[..|ls| - 1], ls[|ls| - 1];
      ListenersExceptFor(front, other, protocol, app);
      var rest := ListenersExcept(front, other, protocol);
      assert (rest + [l])[..|rest|] == rest;
    }
  }

  /** Registering a listener leaves those of another application alone. */
  lemma RegisteredFor(ls: seq<Listener>, l: Listener, app: bytes)
    requires l.app != app
    ensures ListenersFor(ListenersExcept(ls, l.app, l.protocol) + [l], app) == ListenersFor(ls, app)
  {
    var kept := ListenersExcept(ls, l.app, l.protocol);
    assert (kept + [l])[..|kept|] == kept;
    ListenersExceptFor(ls, l.app, l.protocol, app);
  }

  lemma {:induction false} ListenersWithoutFor(ls: seq<Listener>, apps: set<bytes>, app: bytes)
    requires app !in apps
    ensures ListenersFor(ListenersWithout(ls, apps), app) == ListenersFor(ls, app)
  {
    if ls != [] {
      var front, l := ls[..|ls| - 1], ls[|ls| - 1];
      ListenersWithoutFor(front, apps, app);
      var rest := ListenersWithout(front, apps);
      assert (rest + [l])[..|rest|] == rest;
    }
  }

  lemma {:induction false} RebindListenersFor(ls: seq<Listener>, apps: set<bytes>, conn: bytes, app: bytes)
    requires app !in apps
    ensures ListenersFor(RebindListeners(ls, apps, conn), app) == ListenersFor(ls, app)
  {
    if ls != [] {
      var front := ls[..|ls| - 1];
      RebindListenersFor(front, apps, conn, app);
      var r := RebindListeners(ls, apps, conn);
      assert r[..|r| - 1] == RebindListeners(front, apps, conn);
    }
  }

  lemma RegisterListenerIsolated(
    p: Plane, protocol: bytes, other: bytes, principal: nat, conn: bytes, max: nat, app: bytes)
    requires other != app
    ensures SameView(p, RegisterListener(p, protocol, other, principal, conn, max), app)
  {
    ListenersExceptFor(p.listeners, other, protocol, app);
    var rest := ListenersExcept(p.listeners, other, protocol);
    var l := Listener(protocol, other, principal, conn, ClampPending(max));
    assert (rest + [l])[..|rest|] == rest;
  }

  // ----- removal and rebinding ----------------------------------------------

  lemma {:induction false} KeepAfterWithout<T(!new)>(q: seq<T>, dropped: set<T>, kept: set<T>)
    requires dropped !! kept
    ensures Keep(Without(q, dropped), kept) == Keep(q, kept)
  {
    if q != [] {
      var front, last := q[..|q| - 1], q[|q| - 1];
      KeepAfterWithout(front, dropped, kept);
      if last !in dropped {
        KeepPush(Without(front, dropped), last, kept);
      }
    }
  }

  lemma RemoveSessionsIsolated(p: Plane, ids: set<nat>, app: bytes)
    requires StreamsOwned(p.streams, p.sessions)
    requires forall id :: id in ids && id in p.sessions ==> p.sessions[id].app != app
    ensures SameView(p, RemoveSessions(p, ids), app)
  {
    var q := RemoveSessions(p, ids);
    assert SameSessions(p, q, app);
    forall h | IsStreamOf(p, h, app) ensures h in q.streams && q.streams[h] == p.streams[h] {
      assert p.streams[h].session !in ids;
    }
    assert SameStreams(p, q, app);
    SameKeys(p, q, app);
    KeepAfterWithout(p.pendingSessions, ids, SessionsOf(p, {app}));
    KeepKeep(p.pendingStreams, q.streams.Keys, HandlesOf(p, {app}));
    assert q.streams.Keys * HandlesOf(p, {app}) == HandlesOf(p, {app});
  }

  lemma RemoveApplicationsIsolated(p: Plane, apps: set<bytes>, app: bytes)
    requires app !in apps
    ensures SameView(p, RemoveApplications(p, apps), app)
  {
    var q := RemoveApplications(p, apps);
    ListenersWithoutFor(p.listeners, apps, app);
    assert SameSessions(p, q, app);
    assert SameStreams(p, q, app);
    SameKeys(p, q, app);
    KeepAfterWithout(p.pendingSessions, SessionsOf(p, apps), SessionsOf(p, {app}));
    KeepAfterWithout(p.pendingStreams, HandlesOf(p, apps), HandlesOf(p, {app}));
  }

  lemma RebindApplicationsIsolated(p: Plane, apps: set<bytes>, conn: bytes, app: bytes)
    requires app !in apps
    ensures SameView(p, RebindApplications(p, apps, conn), app)
  {
    var q := RebindApplications(p, apps, conn);
    RebindListenersFor(p.listeners, apps, conn, app);
    assert SameSessions(p, q, app);
    assert SameStreams(p, q, app);
    SameKeys(p, q, app);
  }

  // ----- sessions -----------------------------------------------------------

  lemma AddSessionIsolated(p: Plane, id: nat, s: Session, app: bytes)
    requires id !in p.sessions && s.app != app
    ensures SameView(p, AddSession(p, id, s), app)
  {
    var q := AddSession(p, id, s);
    assert SameSessions(p, q, app);
    assert SameStreams(p, q, app);
    SameKeys(p, q, app);
    KeepPush(p.pendingSessions, id, SessionsOf(p, {app}));
  }

  lemma BindSessionIsolated(
    p: Plane, id: nat, conn: bytes, other: bytes, principal: nat, pending: bool, app: bytes)
    requires other != app
    ensures SameView(p, BindSession(p, id, conn, other, principal, pending).plane, app)
  {
    if id !in p.sessions {
      AddSessionIsolated(p, id, Session(other, principal, conn, pending), app);
    }
  }

  lemma RejectSessionIsolated(p: Plane, id: nat, principal: nat, conn: bytes, app: bytes)
    requires Inv(p) && app !in AppOfSession(p, id)
    ensures SameView(p, RejectSession(p, id, principal, conn).plane, app)
  {
    RemoveSessionsIsolated(p, {id}, app);
  }

  lemma AcceptSessionIsolated(p: Plane, id: nat, principal: nat, conn: bytes, app: bytes)
    requires app !in AppOfSession(p, id)
    ensures SameView(p, AcceptSession(p, id, principal, conn).plane, app)
  {
    var q := AcceptSession(p, id, principal, conn).plane;
    assert SameSessions(p, q, app);
    assert SameStreams(p, q, app);
    SameKeys(p, q, app);
    KeepAfterWithout(p.pendingSessions, {id}, SessionsOf(p, {app}));
  }

  lemma SetDatagramsIsolated(p: Plane, id: nat, queue: DatagramQueue, app: bytes)
    requires app !in AppOfSession(p, id)
    ensures SameView(p, p.(datagrams := p.datagrams[id := queue]), app)
  {
    var q := p.(datagrams := p.datagrams[id := queue]);
    assert SameSessions(p, q, app);
    assert SameStreams(p, q, app);
    SameKeys(p, q, app);
  }

  // ----- streams ------------------------------------------------------------

  lemma AddStreamIsolated(p: Plane, s: Stream, app: bytes)
    requires HandlesIssued(p.streams, p.nextHandle) && s.app != app
    ensures SameView(p, AddStream(p, s), app)
  {
    NextHandleFresh(p);
    var q := AddStream(p, s);
    assert SameSessions(p, q, app);
    assert SameStreams(p, q, app);
    SameKeys(p, q, app);
    KeepPush(p.pendingStreams, HandleOf(p.nextHandle), HandlesOf(p, {app}));
  }

  lemma SetStreamIsolated(p: Plane, h: bytes, s: Stream, app: bytes)
    requires h in p.streams && p.streams[h].app != app && s.app != app
    ensures SameView(p, p.(streams := p.streams[h := s]), app)
  {
    var q := p.(streams := p.streams[h := s]);
    assert SameSessions(p, q, app);
    assert SameStreams(p, q, app);
    SameKeys(p, q, app);
  }

  lemma AcceptStreamIsolated(p: Plane, h: bytes, principal: nat, conn: bytes, app: bytes)
    requires app !in AppOfStream(p, h)
    ensures SameView(p, AcceptStream(p, h, principal, conn).plane, app)
  {
    var q := AcceptStream(p, h, principal, conn).plane;
    assert SameSessions(p, q, app);
    assert SameStreams(p, q, app);
    SameKeys(p, q, app);
    KeepAfterWithout(p.pendingStreams, {h}, HandlesOf(p, {app}));
  }

  lemma RejectStreamIsolated(p: Plane, h: bytes, principal: nat, conn: bytes, app: bytes)
    requires app !in AppOfStream(p, h)
    ensures SameView(p, RejectStream(p, h, principal, conn).plane, app)
  {
    var q := RejectStream(p, h, principal, conn).plane;
    assert SameSessions(p, q, app);
    assert SameStreams(p, q, app);
    SameKeys(p, q, app);
    KeepAfterWithout(p.pendingStreams, {h}, HandlesOf(p, {app}));
  }

  lemma PushIsolated(p: Plane, h: bytes, data: bytes, eof: bool, app: bytes)
    requires app !in AppOfStream(p, h)
    ensures SameView(p, PushStreamData(p, h, data, eof).plane, app)
  {
    var q := PushStreamData(p, h, data, eof).plane;
    if h in p.streams && q != p {
      SetStreamIsolated(p, h, q.streams[h], app);
    }
  }

  lemma OpenStreamIsolated(
    p: Plane, principal: nat, conn: bytes, other: bytes, session: nat, stream: nat, protocol: bytes, app: bytes)
    requires HandlesIssued(p.streams, p.nextHandle) && other != app
    ensures SameView(p, OpenStream(p, principal, conn, other, session, stream, protocol).plane, app)
  {
    var bound := BindSession(p, session, conn, other, principal, false);
    if session !in p.sessions {
      AddSessionIsolated(p, session, Session(other, principal, conn, false), app);
    }
    if bound.result.Ok? && (session, stream) !in bound.plane.index {
      var s := FreshStream(session, stream, other, principal, conn, protocol, false);
      AddStreamIsolated(bound.plane, s, app);
      SameViewTransitive(p, bound.plane, AddStream(bound.plane, s), app);
    }
  }

  lemma RouteIsolated(p: Plane, session: nat, stream: nat, protocol: bytes, data: bytes, eof: bool, app: bytes)
    requires Inv(p) && app !in AppOfListener(p, protocol)
    ensures SameView(p, RouteIncomingStream(p, session, stream, protocol, data, eof).plane, app)
  {
    match FindListener(p.listeners, protocol)
    case None =>
    case Some(l) =>
      var admitted := AdmitSession(p, l, session);
      AdmitIsolated(p, l, session, app);
      if admitted.result.Ok? && admitted.plane.sessions[session].app == l.app {
        AttachPushIsolated(admitted.plane, l, session, stream, protocol, data, eof, app);
        var attached := AttachStream(admitted.plane, l, session, stream, protocol);
        SameViewTransitive(p, admitted.plane,
          PushStreamData(attached, attached.index[(session, stream)], data, eof).plane, app);
      }
  }

  lemma AdmitIsolated(p: Plane, l: Listener, session: nat, app: bytes)
    requires l.app != app && StreamsOwned(p.streams, p.sessions)
    ensures SameView(p, AdmitSession(p, l, session).plane, app)
    ensures StreamsOwned(p.streams, AdmitSession(p, l, session).plane.sessions)
  {
    if session !in p.sessions {
      AddSessionIsolated(p, session, Session(l.app, l.principal, l.conn, true), app);
    }
  }

  lemma AttachPushIsolated(
    p: Plane, l: Listener, session: nat, stream: nat, protocol: bytes, data: bytes, eof: bool, app: bytes)
    requires IndexExact(p.streams, p.index) && StreamsOwned(p.streams, p.sessions)
    requires HandlesIssued(p.streams, p.nextHandle)
    requires l.app != app && session in p.sessions && p.sessions[session].app == l.app
    ensures var attached := AttachStream(p, l, session, stream, protocol);
            SameView(p, PushStreamData(attached, attached.index[(session, stream)], data, eof).plane, app)
  {
    var attached := AttachStream(p, l, session, stream, protocol);
    if (session, stream) !in p.index {
      AddStreamIsolated(p, FreshStream(session, stream, l.app, l.principal, l.conn, protocol, true), app);
    }
    var h := attached.index[(session, stream)];
    PushIsolated(attached, h, data, eof, app);
    SameViewTransitive(p, attached, PushStreamData(attached, h, data, eof).plane, app);
  }

  // ----- every operation ----------------------------------------------------

  lemma RemoveConnectionIsolated(p: Plane, conn: bytes, app: bytes)
    requires Inv(p) && app !in Touches(p, OpRemoveConnection(conn))
    ensures SameView(p, RemoveConnection(p, conn), app)
  {
    var apps := ListenerApps(p.listeners, conn);
    var rest := RemoveApplications(p, apps);
    RemoveApplicationsKeeps(p, apps);
    RemoveApplicationsIsolated(p, apps, app);
    forall id | id in SessionsOn(rest, conn) ensures rest.sessions[id].app != app {
      assert id in SessionsOn(p, conn) && p.sessions[id] == rest.sessions[id];
    }
    RemoveSessionsIsolated(rest, SessionsOn(rest, conn), app);
    SameViewTransitive(p, rest, RemoveConnection(p, conn), app);
  }

  lemma OwnStreamIsolated(p: Plane, op: Op, app: bytes)
    requires Inv(p) && app !in Touches(p, op)
    requires op.OpMarkStreamReset? || op.OpMarkStreamResetForSession? || op.OpReadStream? || op.OpCloseStreamSend?
    ensures SameView(p, Step(p, op), app)
  {
    if op.OpReadStream? || op.OpCloseStreamSend? {
      ReaderIsolated(p, op, app);
    } else {
      ResetIsolated(p, op, app);
    }
  }

  lemma ReaderIsolated(p: Plane, op: Op, app: bytes)
    requires (op.OpReadStream? || op.OpCloseStreamSend?) && app !in Touches(p, op)
    ensures SameView(p, Step(p, op), app)
  {
    var q := Step(p, op);
    if q != p {
      SetStreamIsolated(p, op.h, q.streams[op.h], app);
    }
  }

  lemma ResetIsolated(p: Plane, op: Op, app: bytes)
    requires (op.OpMarkStreamReset? || op.OpMarkStreamResetForSession?) && app !in Touches(p, op)
    ensures SameView(p, Step(p, op), app)
  {
    var h := if op.OpMarkStreamReset? then op.h
             else if (op.session, op.stream) in p.index then p.index[(op.session, op.stream)] else [];
    var q := Step(p, op);
    if q != p {
      SetStreamIsolated(p, h, q.streams[h], app);
    }
  }

  lemma PushDatagramIsolated(p: Plane, id: nat, context: nat, data: bytes, expired: bool, app: bytes)
    requires app !in AppOfSession(p, id)
    ensures SameView(p, PushDatagram(p, id, context, data, expired).plane, app)
  {
    SetDatagramsIsolated(p, id, PushDatagram(p, id, context, data, expired).plane.datagrams[id], app);
  }

  lemma ReceiveDatagramIsolated(p: Plane, id: nat, conn: bytes, max: nat, wait: bool, app: bytes)
    requires app !in AppOfSession(p, id)
    ensures SameView(p, ReceiveDatagram(p, id, conn, max, wait).plane, app)
  {
    var q := ReceiveDatagram(p, id, conn, max, wait).plane;
    if id in p.sessions && p.sessions[id].conn == conn && max != 0 {
      SetDatagramsIsolated(p, id, q.datagrams[id], app);
    }
  }

  lemma RegistryIsolated(p: Plane, op: Op, app: bytes)
    requires Inv(p) && app !in Touches(p, op)
    requires op.OpRegisterListener? || op.OpRemoveListener? || op.OpRemoveApplication? || op.OpRemoveConnection?
             || op.OpRebindApplication? || op.OpRemoveSession?
    ensures SameView(p, Step(p, op), app)
  {
    if op.OpRegisterListener? {
      RegisterListenerIsolated(p, op.protocol, op.app, op.principal, op.conn, op.max, app);
    } else if op.OpRemoveListener? {
      RemoveListenerIsolated(p, op.app, app);
    } else if op.OpRemoveApplication? {
      RemoveApplicationsIsolated(p, {op.app}, app);
    } else if op.OpRemoveConnection? {
      RemoveConnectionIsolated(p, op.conn, app);
    } else if op.OpRebindApplication? {
      RebindApplicationIsolated(p, op.app, op.principal, op.conn, app);
    } else {
      RemoveSessionsIsolated(p, {op.id}, app);
    }
  }

  lemma RemoveListenerIsolated(p: Plane, other: bytes, app: bytes)
    requires other != app
    ensures SameView(p, RemoveListener(p, other), app)
  {
    ListenersWithoutFor(p.listeners, {other}, app);
  }

  lemma RebindApplicationIsolated(p: Plane, other: bytes, principal: nat, conn: bytes, app: bytes)
    requires other != app
    ensures SameView(p, RebindApplication(p, other, principal, conn).plane, app)
  {
    RebindApplicationsIsolated(p, {other}, conn, app);
  }

  lemma SessionIsolated(p: Plane, op: Op, app: bytes)
    requires Inv(p) && app !in Touches(p, op)
    requires op.OpBindSession? || op.OpAcceptSession? || op.OpRejectSession?
    ensures SameView(p, Step(p, op), app)
  {
    if op.OpBindSession? {
      BindSessionIsolated(p, op.id, op.conn, op.app, op.principal, op.pending, app);
    } else if op.OpAcceptSession? {
      AcceptSessionIsolated(p, op.id, op.principal, op.conn, app);
    } else {
      RejectSessionIsolated(p, op.id, op.principal, op.conn, app);
    }
  }

  lemma StreamIsolated(p: Plane, op: Op, app: bytes)
    requires Inv(p) && app !in Touches(p, op)
    requires op.OpOpenStream? || op.OpRouteIncomingStream? || op.OpRouteStreamData?
    ensures SameView(p, Step(p, op), app)
  {
    if op.OpOpenStream? {
      OpenStreamIsolated(p, op.principal, op.conn, op.app, op.session, op.stream, op.protocol, app);
    } else if op.OpRouteIncomingStream? {
      RouteIsolated(p, op.session, op.stream, op.protocol, op.data, op.eof, app);
    } else {
      RouteDataIsolated(p, op.session, op.stream, op.protocol, op.data, op.eof, app);
    }
  }

  lemma ArrivedStreamIsolated(p: Plane, op: Op, app: bytes)
    requires app !in Touches(p, op) && (op.OpAcceptStream? || op.OpRejectStream? || op.OpPushStreamData?)
    ensures SameView(p, Step(p, op), app)
  {
    if op.OpAcceptStream? {
      AcceptStreamIsolated(p, op.h, op.principal, op.conn, app);
    } else if op.OpRejectStream? {
      RejectStreamIsolated(p, op.h, op.principal, op.conn, app);
    } else {
      PushIsolated(p, op.h, op.data, op.eof, app);
    }
  }

  /** An operation leaves the view of every application it does not address as it was. */
  lemma StepIsolated(p: Plane, op: Op, app: bytes)
    requires Inv(p) && app !in Touches(p, op)
    ensures SameView(p, Step(p, op), app)
  {
    if op.OpOpenStream? || op.OpRouteIncomingStream? || op.OpRouteStreamData? {
      StreamIsolated(p, op, app);
    } else if op.OpAcceptStream? || op.OpRejectStream? || op.OpPushStreamData? {
      ArrivedStreamIsolated(p, op, app);
    } else if op.OpPushDatagram? {
      PushDatagramIsolated(p, op.id, op.context, op.data, op.expired, app);
    } else if op.OpReceiveDatagram? {
      ReceiveDatagramIsolated(p, op.id, op.conn, op.max, op.wait, app);
    } else if op.OpMarkStreamReset? || op.OpMarkStreamResetForSession? || op.OpReadStream? || op.OpCloseStreamSend? {
      OwnStreamIsolated(p, op, app);
    } else if op.OpBindSession? || op.OpAcceptSession? || op.OpRejectSession? {
      SessionIsolated(p, op, app);
    } else if !op.OpAllocateDatagramId? {
      RegistryIsolated(p, op, app);
    }
  }

  lemma RouteDataIsolated(p: Plane, session: nat, stream: nat, protocol: bytes, data: bytes, eof: bool, app: bytes)
    requires Inv(p) && app !in Touches(p, OpRouteStreamData(session, stream, protocol, data, eof))
    ensures SameView(p, RouteStreamData(p, session, stream, protocol, data, eof).plane, app)
  {
    if (session, stream) in p.index {
      PushIsolated(p, p.index[(session, stream)], data, eof, app);
    } else {
      RouteIsolated(p, session, stream, protocol, data, eof, app);
    }
  }

  /** No operation of the run addresses `app`. */
  predicate NeverTouched(p: Plane, ops: seq<Op>, app: bytes) {
    ops == []
    || (NeverTouched(p, ops[..|ops| - 1], app) && app !in Touches(Run(p, ops[..|ops| - 1]), ops[|ops| - 1]))
  }

  /** Whatever the other applications do, an application they do not address sees no change. */
  lemma {:induction false} RunIsolated(p: Plane, ops: seq<Op>, app: bytes)
    requires Inv(p) && p.nextHandle + |ops| <= U64_MAX && NeverTouched(p, ops, app)
    ensures SameView(p, Run(p, ops), app)
  {
    if ops != [] {
      var front, last := ops[..|ops| - 1], ops[|ops| - 1];
      RunIsolated(p, front, app);
      RunKeepsInv(p, front);
      StepIsolated(Run(p, front), last, app);
      SameViewTransitive(p, Run(p, front), Run(p, ops), app);
    }
  }
}
