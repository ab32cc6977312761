/** The registration tables stay in step with each other and with the data plane. */
module RegistrationInvariant {
  import opened Bytes
  import opened Queues
  import opened DataPlane
  import opened PlaneInvariant
  import opened PlaneRuns
  import opened Registration

  // ----- the invariant ------------------------------------------------------

  /** The four tables know the same applications, and only they listen. */
  ghost predicate SameKeys(rt: Runtime) {
    rt.protocols.Keys == rt.principals.Keys == rt.connections.Keys == rt.registrations.Keys
    && rt.listening <= rt.principals.Keys
  }

  /** Each list starts with its handle, is the list that was asked for, and is held in the registry. */
  ghost predicate ListsHeld(
    protocols: map<bytes, seq<bytes>>, registrations: map<bytes, Registered>, apps: map<bytes, bytes>)
  {
    forall h :: h in protocols ==>
      protocols[h] != [] && protocols[h][0] == h
      && h in registrations && registrations[h].protocols == protocols[h]
      && (forall p :: p in protocols[h] ==> p in apps)
  }

  /** No protocol id belongs to two applications. */
  ghost predicate ListsDisjoint(protocols: map<bytes, seq<bytes>>) {
    forall a, b, p :: a in protocols && b in protocols && p in protocols[a] && p in protocols[b] ==> a == b
  }

  /** At most one resumable application per principal and instance id. */
  ghost predicate InstancesUnique(principals: map<bytes, nat>, registrations: map<bytes, Registered>) {
    forall a, b ::
      a in registrations && b in registrations && a in principals && b in principals
      && registrations[a].resumable && registrations[b].resumable
      && principals[a] == principals[b] && registrations[a].instance == registrations[b].instance
      ==> a == b
  }

  /** The application is registered to exactly this principal and connection. */
  predicate Belongs(
    app: bytes, principal: nat, conn: bytes, principals: map<bytes, nat>, connections: map<bytes, bytes>)
  {
    app in principals && principals[app] == principal && app in connections && connections[app] == conn
  }

  /** Every data-plane record belongs to a registered application and its one owner. */
  ghost predicate Owners(p: Plane, principals: map<bytes, nat>, connections: map<bytes, bytes>) {
    (forall l :: l in p.listeners ==> Belongs(l.app, l.principal, l.conn, principals, connections))
    && (forall id :: id in p.sessions ==>
          Belongs(p.sessions[id].app, p.sessions[id].principal, p.sessions[id].conn, principals, connections))
    && (forall h :: h in p.streams ==>
          Belongs(p.streams[h].app, p.streams[h].principal, p.streams[h].conn, principals, connections))
  }

  ghost predicate Tables(rt: Runtime) {
    SameKeys(rt) && ListsHeld(rt.protocols, rt.registrations, rt.apps) && ListsDisjoint(rt.protocols)
    && InstancesUnique(rt.principals, rt.registrations)
  }

  ghost predicate RtInv(rt: Runtime) {
    Tables(rt) && Owners(rt.plane, rt.principals, rt.connections) && Inv(rt.plane)
  }

  lemma InitialInv(apps: map<bytes, bytes>, channels: set<bytes>)
    ensures RtInv(Initial(apps, channels))
  {
    EmptyInv();
  }

  // ----- data operations keep the owners ------------------------------------

  /** Every record of `q` was in `p` with the same owner. */
  ghost predicate OwnersFrom(p: Plane, q: Plane) {
    (forall l :: l in q.listeners ==> l in p.listeners)
    && (forall id :: id in q.sessions ==>
          id in p.sessions && SameOwner(q.sessions[id], p.sessions[id]))
    && (forall h :: h in q.streams ==>
          h in p.streams && SameStreamOwner(q.streams[h], p.streams[h]))
  }

  lemma OwnersFromKeeps(p: Plane, q: Plane, principals: map<bytes, nat>, connections: map<bytes, bytes>)
    requires OwnersFrom(p, q) && Owners(p, principals, connections)
    ensures Owners(q, principals, connections)
  {
  }

  predicate SameOwner(a: Session, b: Session) {
    a.app == b.app && a.principal == b.principal && a.conn == b.conn
  }

  predicate SameStreamOwner(a: Stream, b: Stream) {
    a.app == b.app && a.principal == b.principal && a.conn == b.conn
  }

  lemma SessionOpOwner(p: Plane, op: Op, id: nat, h: bytes)
    requires op.OpRemoveSession? || op.OpAcceptSession? || op.OpRejectSession?
             || op.OpPushDatagram? || op.OpReceiveDatagram? || op.OpAllocateDatagramId?
    ensures Step(p, op).listeners == p.listeners
    ensures id in Step(p, op).sessions ==> id in p.sessions && SameOwner(Step(p, op).sessions[id], p.sessions[id])
    ensures h in Step(p, op).streams ==> h in p.streams && SameStreamOwner(Step(p, op).streams[h], p.streams[h])
  {
    if op.OpRemoveSession? || op.OpAcceptSession? || op.OpRejectSession? {
      SessionChangeOwner(p, op, id, h);
    }
  }

  lemma SessionChangeOwner(p: Plane, op: Op, id: nat, h: bytes)
    requires op.OpRemoveSession? || op.OpAcceptSession? || op.OpRejectSession?
    ensures Step(p, op).listeners == p.listeners
    ensures id in Step(p, op).sessions ==> id in p.sessions && SameOwner(Step(p, op).sessions[id], p.sessions[id])
    ensures h in Step(p, op).streams ==> h in p.streams && SameStreamOwner(Step(p, op).streams[h], p.streams[h])
  {
  }

  lemma StreamOpOwner(p: Plane, op: Op, h: bytes)
    requires op.OpAcceptStream? || op.OpRejectStream? || op.OpPushStreamData? || op.OpMarkStreamReset?
             || op.OpMarkStreamResetForSession? || op.OpReadStream? || op.OpCloseStreamSend?
    ensures Step(p, op).listeners == p.listeners && Step(p, op).sessions == p.sessions
    ensures h in Step(p, op).streams ==> h in p.streams && SameStreamOwner(Step(p, op).streams[h], p.streams[h])
  {
    if op.OpMarkStreamReset? || op.OpMarkStreamResetForSession? {
      ResetOwner(p, op, h);
    } else if op.OpReadStream? || op.OpCloseStreamSend? {
      StreamChangeOwner(p, op, h);
    }
  }

  lemma ResetOwner(p: Plane, op: Op, h: bytes)
    requires op.OpMarkStreamReset? || op.OpMarkStreamResetForSession?
    ensures Step(p, op).listeners == p.listeners && Step(p, op).sessions == p.sessions
    ensures h in Step(p, op).streams ==> h in p.streams && SameStreamOwner(Step(p, op).streams[h], p.streams[h])
  {
  }

  lemma StreamChangeOwner(p: Plane, op: Op, h: bytes)
    requires op.OpReadStream? || op.OpCloseStreamSend?
    ensures Step(p, op).listeners == p.listeners && Step(p, op).sessions == p.sessions
    ensures h in Step(p, op).streams ==> h in p.streams && SameStreamOwner(Step(p, op).streams[h], p.streams[h])
  {
  }

  lemma QuietOwners(p: Plane, op: Op)
    requires IsDataOp(op) && !op.OpRouteIncomingStream? && !op.OpRouteStreamData?
    ensures OwnersFrom(p, Step(p, op))
  {
    var q := Step(p, op);
    if op.OpRemoveSession? || op.OpAcceptSession? || op.OpRejectSession?
       || op.OpPushDatagram? || op.OpReceiveDatagram? || op.OpAllocateDatagramId? {
      SessionOpOwner(p, op, 0, []);
      forall id | id in q.sessions ensures id in p.sessions && SameOwner(q.sessions[id], p.sessions[id]) {
        SessionOpOwner(p, op, id, []);
      }
      forall h | h in q.streams ensures h in p.streams && SameStreamOwner(q.streams[h], p.streams[h]) {
        SessionOpOwner(p, op, 0, h);
      }
    } else {
      StreamOpOwner(p, op, []);
      forall h | h in q.streams ensures h in p.streams && SameStreamOwner(q.streams[h], p.streams[h]) {
        StreamOpOwner(p, op, h);
      }
    }
  }

  lemma AttachOwners(p: Plane, l: Listener, session: nat, stream: nat, protocol: bytes,
                     principals: map<bytes, nat>, connections: map<bytes, bytes>)
    requires Owners(p, principals, connections) && Belongs(l.app, l.principal, l.conn, principals, connections)
    ensures Owners(AttachStream(p, l, session, stream, protocol), principals, connections)
  {
  }

  lemma PushOwners(p: Plane, h: bytes, data: bytes, eof: bool)
    ensures OwnersFrom(p, PushStreamData(p, h, data, eof).plane)
  {
  }

  lemma RouteOwners(p: Plane, session: nat, stream: nat, protocol: bytes, data: bytes, eof: bool,
                    principals: map<bytes, nat>, connections: map<bytes, bytes>)
    requires Owners(p, principals, connections)
    ensures Owners(RouteIncomingStream(p, session, stream, protocol, data, eof).plane, principals, connections)
  {
    match FindListener(p.listeners, protocol)
    case None =>
    case Some(l) =>
      FoundListener(p.listeners, protocol);
      var admitted := AdmitSession(p, l, session);
      assert Owners(admitted.plane, principals, connections);
      if admitted.result.Ok? && admitted.plane.sessions[session].app == l.app {
        AttachOwners(admitted.plane, l, session, stream, protocol, principals, connections);
        var attached := AttachStream(admitted.plane, l, session, stream, protocol);
        PushOwners(attached, attached.index[(session, stream)], data, eof);
        OwnersFromKeeps(attached, PushStreamData(attached, attached.index[(session, stream)], data, eof).plane,
                        principals, connections);
      }
  }

  lemma DataKeepsOwners(p: Plane, op: Op, principals: map<bytes, nat>, connections: map<bytes, bytes>)
    requires IsDataOp(op) && Owners(p, principals, connections)
    ensures Owners(Step(p, op), principals, connections)
  {
    if op.OpRouteIncomingStream? {
      RouteOwners(p, op.session, op.stream, op.protocol, op.data, op.eof, principals, connections);
    } else if op.OpRouteStreamData? {
      if (op.session, op.stream) in p.index {
        PushOwners(p, p.index[(op.session, op.stream)], op.data, op.eof);
        OwnersFromKeeps(p, PushStreamData(p, p.index[(op.session, op.stream)], op.data, op.eof).plane,
                        principals, connections);
      } else {
        RouteOwners(p, op.session, op.stream, op.protocol, op.data, op.eof, principals, connections);
      }
    } else {
      QuietOwners(p, op);
      OwnersFromKeeps(p, Step(p, op), principals, connections);
    }
  }

  // ----- claiming protocol ids ----------------------------------------------

  /** A successful claim takes distinct ids that nobody held. */
  lemma {:induction false} ClaimFresh(apps: set<bytes>, ps: seq<bytes>)
    requires ClaimStatus(apps, ps) == StatusOk
    ensures Distinct(ps) && (forall p :: p in ps ==> p !in apps && |p| <= MAX_PROTOCOL_ID_LEN)
    decreases |ps|
  {
    if ps != [] {
      ClaimFresh(apps + {ps[0]}, ps[1..]);
      forall p | p in ps ensures p !in apps && |p| <= MAX_PROTOCOL_ID_LEN {
        if p != ps[0] { assert p in ps[1..]; }
      }
      assert forall j :: 0 < j < |ps| ==> ps[j] in ps[1..];
      forall i, j | 0 <= i < j < |ps| ensures ps[i] != ps[j] {
        if i > 0 { assert ps[i] == ps[1..][i - 1] && ps[j] == ps[1..][j - 1]; }
      }
    }
  }

  // ----- register -----------------------------------------------------------

  lemma EnrollKeepsTables(rt: Runtime, req: Request, principal: nat, conn: bytes, entropy: bytes)
    requires Tables(rt)
    requires req.protocols != [] && req.capabilities.Passed? && req.grants.Passed?
    requires ClaimStatus(rt.apps.Keys, req.protocols) == StatusOk
    requires req.resumable ==> Resumable(rt, principal, req.instance) == {}
    ensures Tables(Enroll(rt, req, principal, conn, entropy).runtime)
    ensures req.protocols[0] !in rt.protocols
  {
    ClaimFresh(rt.apps.Keys, req.protocols);
    HandleHeld(rt.protocols, rt.registrations, rt.apps, req.protocols[0]);
    var rt' := Enroll(rt, req, principal, conn, entropy).runtime;
    EnteredTables(rt, rt', req, principal, conn, rt'.registrations[req.protocols[0]]);
  }

  /** One more application in the tables. */
  lemma EnteredTables(rt: Runtime, rt': Runtime, req: Request, principal: nat, conn: bytes, m: Registered)
    requires Tables(rt) && req.protocols != [] && req.protocols[0] !in rt.protocols
    requires forall p :: p in req.protocols ==> p !in rt.apps
    requires m.protocols == req.protocols && (m.resumable ==> Resumable(rt, principal, m.instance) == {})
    requires var h := req.protocols[0];
             rt'.protocols == rt.protocols[h := req.protocols] && rt'.principals == rt.principals[h := principal]
             && rt'.connections == rt.connections[h := conn] && rt'.registrations == rt.registrations[h := m]
             && rt'.apps == Claimed(rt.apps, req.protocols, req.name) && rt'.listening == rt.listening
    ensures Tables(rt')
  {
    EnrollLists(rt.protocols, rt.registrations, rt.apps, req.protocols[0], req, m);
    EnrollUnique(rt, req.protocols[0], m, principal);
  }

  lemma HandleHeld(
    protocols: map<bytes, seq<bytes>>, registrations: map<bytes, Registered>, apps: map<bytes, bytes>, h: bytes)
    requires ListsHeld(protocols, registrations, apps)
    ensures h in protocols ==> h in apps
  {
    if h in protocols {
      assert protocols[h][0] in protocols[h];
    }
  }

  lemma EnrollLists(
    protocols: map<bytes, seq<bytes>>, registrations: map<bytes, Registered>, apps: map<bytes, bytes>,
    h: bytes, req: Request, m: Registered)
    requires ListsHeld(protocols, registrations, apps) && ListsDisjoint(protocols)
    requires req.protocols != [] && h == req.protocols[0] && m.protocols == req.protocols
    requires forall p :: p in req.protocols ==> p !in apps
    requires h !in protocols
    ensures ListsHeld(protocols[h := req.protocols], registrations[h := m], Claimed(apps, req.protocols, req.name))
    ensures ListsDisjoint(protocols[h := req.protocols])
  {
    var after := protocols[h := req.protocols];
    forall a, b, p | a in after && b in after && p in after[a] && p in after[b] ensures a == b {
      if a != h && b == h { assert p in apps; }
      if a == h && b != h { assert p in apps; }
    }
  }

  lemma EnrollUnique(rt: Runtime, h: bytes, m: Registered, principal: nat)
    requires InstancesUnique(rt.principals, rt.registrations)
    requires rt.registrations.Keys == rt.principals.Keys
    requires m.resumable ==> Resumable(rt, principal, m.instance) == {}
    ensures InstancesUnique(rt.principals[h := principal], rt.registrations[h := m])
  {
    if m.resumable {
      forall a | a in rt.registrations && rt.registrations[a].resumable
        ensures !(rt.principals[a] == principal && rt.registrations[a].instance == m.instance)
      {
        assert a !in Resumable(rt, principal, m.instance);
      }
    }
  }

  /** New tables entries for a handle that owns nothing yet. */
  lemma OwnersExtend(p: Plane, principals: map<bytes, nat>, connections: map<bytes, bytes>,
                     h: bytes, principal: nat, conn: bytes)
    requires Owners(p, principals, connections) && h !in principals
    ensures Owners(p, principals[h := principal], connections[h := conn])
  {
  }

  lemma EnrollKeeps(rt: Runtime, req: Request, principal: nat, conn: bytes, entropy: bytes)
    requires RtInv(rt)
    requires req.protocols != [] && req.capabilities.Passed? && req.grants.Passed?
    requires req.resumable ==> Resumable(rt, principal, req.instance) == {}
    ensures RtInv(Enroll(rt, req, principal, conn, entropy).runtime)
  {
    if ClaimStatus(rt.apps.Keys, req.protocols) == StatusOk {
      EnrollKeepsTables(rt, req, principal, conn, entropy);
      OwnersExtend(rt.plane, rt.principals, rt.connections, req.protocols[0], principal, conn);
    }
  }

  /** The one owner of an application is accepted by the rebind check. */
  lemma OwnedByOwner(rt: Runtime, h: bytes)
    requires Owners(rt.plane, rt.principals, rt.connections) && h in rt.principals
    ensures OwnedBy(rt.plane, h, rt.principals[h])
  {
    forall i | 0 <= i < |rt.plane.listeners| && rt.plane.listeners[i].app == h
      ensures rt.plane.listeners[i].principal == rt.principals[h]
    {
      assert rt.plane.listeners[i] in rt.plane.listeners;
    }
  }

  /** Moving applications to `conn` in the plane and in the table keeps them together. */
  lemma RebindOwners(p: Plane, principals: map<bytes, nat>, connections: map<bytes, bytes>,
                     connections': map<bytes, bytes>, apps: set<bytes>, conn: bytes)
    requires Owners(p, principals, connections) && connections'.Keys == connections.Keys
    requires forall h :: h in connections ==> connections'[h] == if h in apps then conn else connections[h]
    ensures Owners(RebindApplications(p, apps, conn), principals, connections')
  {
    var q := RebindApplications(p, apps, conn);
    forall l | l in q.listeners ensures Belongs(l.app, l.principal, l.conn, principals, connections') {
      var i :| 0 <= i < |q.listeners| && q.listeners[i] == l;
      assert p.listeners[i] in p.listeners;
    }
  }

  /** A resumption is not stopped by the data plane, and one that is refused changes nothing. */
  lemma ResumeAllOrNothing(rt: Runtime, h: bytes, req: Request, principal: nat, conn: bytes)
    requires Owners(rt.plane, rt.principals, rt.connections) && h in rt.principals && rt.principals[h] == principal
    requires h in rt.registrations && req.grants.Passed?
    ensures var a := Resume(rt, h, req, principal, conn);
            a.reply.status != StatusPermissionDenied
            && (a.reply.status != StatusOk ==> a.runtime == rt)
            && (a.reply.status == StatusOk ==>
                  a.runtime == rt.(connections := rt.connections[h := conn],
                                   plane := RebindApplications(rt.plane, {h}, conn),
                                   registrations := rt.registrations[
                                     h := rt.registrations[h].(grants := req.grants.value)]))
  {
    OwnedByOwner(rt, h);
  }

  lemma ResumeKeeps(rt: Runtime, h: bytes, req: Request, principal: nat, conn: bytes)
    requires RtInv(rt) && h in rt.registrations && req.grants.Passed? && rt.principals[h] == principal
    ensures RtInv(Resume(rt, h, req, principal, conn).runtime)
    ensures Resume(rt, h, req, principal, conn).reply.status != StatusPermissionDenied
    ensures Resume(rt, h, req, principal, conn).reply.status != StatusOk ==>
              Resume(rt, h, req, principal, conn).runtime == rt
  {
    ResumeAllOrNothing(rt, h, req, principal, conn);
    if Resume(rt, h, req, principal, conn).reply.status == StatusOk {
      ResumedInv(rt, h, conn, req.grants.value);
    }
  }

  lemma ResumedInv(rt: Runtime, h: bytes, conn: bytes, grants: Grants)
    requires RtInv(rt) && h in rt.registrations
    ensures RtInv(rt.(connections := rt.connections[h := conn],
                      plane := RebindApplications(rt.plane, {h}, conn),
                      registrations := rt.registrations[h := rt.registrations[h].(grants := grants)]))
  {
    RebindOwners(rt.plane, rt.principals, rt.connections, rt.connections[h := conn], {h}, conn);
    RebindApplicationsKeeps(rt.plane, {h}, conn);
    NewGrants(rt.protocols, rt.principals, rt.registrations, rt.apps, h, grants);
  }

  lemma NewGrants(protocols: map<bytes, seq<bytes>>, principals: map<bytes, nat>,
                  registrations: map<bytes, Registered>, apps: map<bytes, bytes>, h: bytes, grants: Grants)
    requires h in registrations
    requires ListsHeld(protocols, registrations, apps) && InstancesUnique(principals, registrations)
    ensures ListsHeld(protocols, registrations[h := registrations[h].(grants := grants)], apps)
    ensures InstancesUnique(principals, registrations[h := registrations[h].(grants := grants)])
  {
  }

  lemma RegisterKeeps(rt: Runtime, req: Request, principal: nat, conn: bytes, entropy: bytes)
    requires RtInv(rt)
    ensures RtInv(Register(rt, req, principal, conn, entropy).runtime)
  {
    if Screen(req, principal).None? {
      if req.resumable && Resumable(rt, principal, req.instance) != {} {
        var h :| h in Resumable(rt, principal, req.instance)
                 && Register(rt, req, principal, conn, entropy) == Resume(rt, h, req, principal, conn);
        ResumeKeeps(rt, h, req, principal, conn);
      } else {
        EnrollKeeps(rt, req, principal, conn, entropy);
      }
    }
  }

  // ----- leaving ------------------------------------------------------------

  /** Removing whole applications from the plane and the tables. */
  lemma ForgetOwners(p: Plane, principals: map<bytes, nat>, connections: map<bytes, bytes>, gone: set<bytes>)
    requires Owners(p, principals, connections)
    ensures Owners(RemoveApplications(p, gone), principals - gone, connections - gone)
  {
    ListenersWithoutMembers(p.listeners, gone);
  }

  lemma ForgetTables(rt: Runtime, gone: set<bytes>, ids: set<bytes>)
    requires Tables(rt)
    requires forall h, p :: h in rt.protocols && h !in gone && p in rt.protocols[h] ==> p !in ids
    ensures Tables(Forget(rt, gone, ids))
  {
    var rt' := Forget(rt, gone, ids);
    forall h | h in rt'.protocols
      ensures forall p :: p in rt'.protocols[h] ==> p in rt'.apps
    {
      assert rt'.protocols[h] == rt.protocols[h];
    }
  }

  lemma ForgetKeeps(rt: Runtime, gone: set<bytes>)
    requires RtInv(rt) && gone <= rt.protocols.Keys
    ensures RtInv(Forget(rt, gone, ProtocolIds(rt.protocols, gone)))
  {
    ForgetTables(rt, gone, ProtocolIds(rt.protocols, gone));
    ForgetOwners(rt.plane, rt.principals, rt.connections, gone);
    RemoveApplicationsKeeps(rt.plane, gone);
  }

  lemma UnregisterKeeps(rt: Runtime, h: bytes, principal: nat, conn: bytes)
    requires RtInv(rt)
    ensures RtInv(Unregister(rt, h, principal, conn).runtime)
  {
    if h in rt.protocols {
      ForgetKeeps(rt, {h});
      assert ProtocolIds(rt.protocols, {h}) == AsSet(ProtocolsOf(rt, h));
    }
  }

  lemma SuspendKeeps(rt: Runtime, handles: set<bytes>)
    requires RtInv(rt)
    ensures RtInv(Suspend(rt, handles))
  {
    RebindOwners(rt.plane, rt.principals, rt.connections, Suspend(rt, handles).connections, handles, []);
    RebindApplicationsKeeps(rt.plane, handles, []);
  }

  lemma CloseConnectionKeeps(rt: Runtime, conn: bytes)
    requires RtInv(rt)
    ensures RtInv(CloseConnection(rt, conn))
  {
    if conn != [] {
      var handles := HandlesOn(rt, conn);
      SuspendKeeps(rt, Suspended(rt, handles));
      ForgetKeeps(Suspend(rt, Suspended(rt, handles)), Dropped(rt, handles));
    }
  }

  // ----- listeners, sessions and streams ------------------------------------

  lemma OpenListenerKeeps(
    rt: Runtime, h: bytes, principal: nat, conn: bytes, protocol: bytes, early: bool, max: nat)
    requires RtInv(rt) && conn != []
    ensures RtInv(OpenListener(rt, h, principal, conn, protocol, early, max).runtime)
  {
    if OpenListener(rt, h, principal, conn, protocol, early, max).reply.status == StatusOk {
      RegisterListenerKeeps(rt.plane, h, h, principal, conn, max);
      ListenersExceptMembers(rt.plane.listeners, h, h);
    }
  }

  lemma CloseListenerKeeps(rt: Runtime, h: bytes, principal: nat, conn: bytes)
    requires RtInv(rt)
    ensures RtInv(CloseListener(rt, h, principal, conn).runtime)
  {
    ListenersWithoutExact(rt.plane.listeners, {h});
    ListenersWithoutMembers(rt.plane.listeners, {h});
  }

  lemma ConnectKeeps(rt: Runtime, h: bytes, principal: nat, conn: bytes, session: nat)
    requires RtInv(rt) && conn != []
    ensures RtInv(Connect(rt, h, principal, conn, session))
  {
    if OwnedApplication(rt, h, principal, conn) == StatusOk && session !in rt.plane.sessions {
      AddSessionKeeps(rt.plane, session, Session(h, principal, conn, false));
    }
  }

  lemma OpenStreamOwners(p: Plane, principal: nat, conn: bytes, h: bytes, session: nat, stream: nat,
                         protocol: bytes, principals: map<bytes, nat>, connections: map<bytes, bytes>)
    requires Owners(p, principals, connections) && Belongs(h, principal, conn, principals, connections)
    ensures Owners(OpenStream(p, principal, conn, h, session, stream, protocol).plane, principals, connections)
  {
    assert Owners(BindSession(p, session, conn, h, principal, false).plane, principals, connections);
  }

  lemma StartStreamKeeps(rt: Runtime, h: bytes, principal: nat, conn: bytes, session: nat, stream: nat)
    requires RtInv(rt) && conn != [] && rt.plane.nextHandle < U64_MAX
    ensures RtInv(StartStream(rt, h, principal, conn, session, stream))
  {
    if OwnedApplication(rt, h, principal, conn) == StatusOk {
      var protocol := rt.protocols[h][0];
      OpenStreamKeeps(rt.plane, principal, conn, h, session, stream, protocol);
      OpenStreamOwners(rt.plane, principal, conn, h, session, stream, protocol, rt.principals, rt.connections);
    }
  }

  // ----- every event, every history -----------------------------------------

  /** Every event of a live daemon keeps the tables, their owners and the data plane in step. */
  lemma NextKeeps(rt: Runtime, ev: Event)
    requires RtInv(rt) && Live(ev) && rt.plane.nextHandle < U64_MAX
    ensures RtInv(Next(rt, ev))
  {
    if ev.EvRegister? {
      RegisterKeeps(rt, ev.req, ev.principal, ev.conn, ev.entropy);
    } else if ev.EvUnregister? {
      UnregisterKeeps(rt, ev.h, ev.principal, ev.conn);
    } else if ev.EvOpenListener? {
      OpenListenerKeeps(rt, ev.h, ev.principal, ev.conn, ev.protocol, ev.early, ev.max);
    } else if ev.EvCloseListener? {
      CloseListenerKeeps(rt, ev.h, ev.principal, ev.conn);
    } else if ev.EvCloseConnection? {
      CloseConnectionKeeps(rt, ev.conn);
    } else if ev.EvConnect? {
      ConnectKeeps(rt, ev.h, ev.principal, ev.conn, ev.session);
    } else if ev.EvStartStream? {
      StartStreamKeeps(rt, ev.h, ev.principal, ev.conn, ev.session, ev.stream);
    } else {
      DataKeepsOwners(rt.plane, ev.op, rt.principals, rt.connections);
      StepKeepsInv(rt.plane, ev.op);
    }
  }

  lemma NextCounter(rt: Runtime, ev: Event)
    ensures rt.plane.nextHandle <= Next(rt, ev).plane.nextHandle <= rt.plane.nextHandle + 1
  {
    if ev.EvData? {
      StepCounter(rt.plane, ev.op);
    } else if ev.EvRegister? {
      RegisterCounter(rt, ev.req, ev.principal, ev.conn, ev.entropy);
    } else {
      OtherCounter(rt, ev);
    }
  }

  lemma OtherCounter(rt: Runtime, ev: Event)
    requires !ev.EvData? && !ev.EvRegister?
    ensures rt.plane.nextHandle <= Next(rt, ev).plane.nextHandle <= rt.plane.nextHandle + 1
  {
  }

  lemma RegisterCounter(rt: Runtime, req: Request, principal: nat, conn: bytes, entropy: bytes)
    ensures Register(rt, req, principal, conn, entropy).runtime.plane.nextHandle == rt.plane.nextHandle
  {
  }

  ghost predicate AllLive(evs: seq<Event>) {
    forall i :: 0 <= i < |evs| ==> Live(evs[i])
  }

  /** The registration invariant holds after every history of a daemon. */
  lemma {:induction false} HistoryInv(apps: map<bytes, bytes>, channels: set<bytes>, evs: seq<Event>)
    requires AllLive(evs) && |evs| < U64_MAX
    ensures RtInv(History(Initial(apps, channels), evs))
    ensures History(Initial(apps, channels), evs).plane.nextHandle <= 1 + |evs|
  {
    if evs == [] {
      InitialInv(apps, channels);
    } else {
      var before := History(Initial(apps, channels), evs[..|evs| - 1]);
      HistoryInv(apps, channels, evs[..|evs| - 1]);
      NextKeeps(before, evs[|evs| - 1]);
      NextCounter(before, evs[|evs| - 1]);
    }
  }
}
