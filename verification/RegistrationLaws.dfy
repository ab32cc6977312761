/**
 What a registration records, when it is granted and what it is told otherwise, and that registering and leaving undo
 each other: of the fields of the request and the tables alone.
 */
module RegistrationLaws {
  import opened Bytes
  import opened Queues
  import opened DataPlane
  import opened PlaneInvariant
  import opened PlaneIsolation
  import opened PlaneRemovals
  import opened PlaneAnswers
  import opened Registration
  import opened RegistrationInvariant
  import opened SuspendResume

  // ----- when a registration is granted -------------------------------------

  /** A name and a protocol, and for a resumable application a principal and an instance id of 16 octets. */
  predicate Formed(req: Request, principal: nat) {
    |req.name| > 0 && |req.protocols| > 0 && (req.resumable ==> principal != 0 && |req.instance| == 16)
    && req.capabilities.Passed? && req.grants.Passed?
  }

  /** What a malformed request is told. */
  function Complaint(req: Request, principal: nat): Status {
    if |req.name| == 0 || |req.protocols| == 0 then StatusInvalidArgument
    else if req.resumable && principal == 0 then StatusPermissionDenied
    else if req.resumable && |req.instance| != 16 then StatusInvalidArgument
    else if req.capabilities.Refused? then req.capabilities.status
    else if req.grants.Refused? then req.grants.status
    else StatusOk
  }

  /** `h` is a resumable application of this principal with the request's instance id. */
  predicate Matches(rt: Runtime, h: bytes, req: Request, principal: nat) {
    req.resumable && h in rt.registrations && rt.registrations[h].resumable
    && rt.registrations[h].instance == req.instance && h in rt.principals && rt.principals[h] == principal
  }

  /** The request repeats what was recorded, and the application is on no other connection. */
  predicate Agrees(rt: Runtime, h: bytes, req: Request, conn: bytes)
    requires h in rt.registrations && h in rt.connections
  {
    var m := rt.registrations[h];
    (rt.connections[h] == [] || rt.connections[h] == conn)
    && m.name == req.name && m.endpoints == req.endpoints && m.protocols == req.protocols
    && req.capabilities == Passed(m.capabilities)
  }

  /** All protocol ids are short, different and free. */
  ghost predicate Free(rt: Runtime, ps: seq<bytes>) {
    Distinct(ps) && forall p :: p in ps ==> p !in rt.apps && |p| <= 64
  }

  /** A registration is granted exactly when it is well formed and agrees with the one it repeats or claims free ids. */
  lemma GrantedExactly(rt: Runtime, req: Request, principal: nat, conn: bytes, entropy: bytes)
    requires RtInv(rt)
    ensures var status := Register(rt, req, principal, conn, entropy).reply.status;
            (!Formed(req, principal) ==> status == Complaint(req, principal))
            && (forall h :: Formed(req, principal) && Matches(rt, h, req, principal) ==>
                  status == if Agrees(rt, h, req, conn) then StatusOk else StatusAlreadyExists)
            && ((Formed(req, principal) && forall h :: !Matches(rt, h, req, principal)) ==>
                  (status == StatusOk <==> Free(rt, req.protocols)))
  {
    MatchesExactly(rt, req, principal);
    if Formed(req, principal) {
      if req.resumable && Resumable(rt, principal, req.instance) != {} {
        var h :| h in Resumable(rt, principal, req.instance);
        OneMatch(rt, principal, req.instance, h);
        ResumeStatus(rt, h, req, principal, conn);
      } else {
        ClaimExact(rt.apps.Keys, req.protocols);
      }
    }
  }

  lemma MatchesExactly(rt: Runtime, req: Request, principal: nat)
    ensures forall h :: Matches(rt, h, req, principal) <==> req.resumable && h in Resumable(rt, principal, req.instance)
  {
  }

  lemma ResumeStatus(rt: Runtime, h: bytes, req: Request, principal: nat, conn: bytes)
    requires RtInv(rt) && h in rt.registrations && req.grants.Passed? && req.capabilities.Passed?
    requires rt.principals[h] == principal
    ensures Resume(rt, h, req, principal, conn).reply.status
            == if Agrees(rt, h, req, conn) then StatusOk else StatusAlreadyExists
  {
    OwnedByOwner(rt, h);
  }

  // ----- what a registration records ----------------------------------------

  /** Everything that is recorded of a granted request, and the reply that tells so. */
  ghost predicate Recorded(req: Request, principal: nat, conn: bytes, a: Answer) {
    req.protocols != [] && req.capabilities.Passed? && req.grants.Passed?
    && var h := req.protocols[0];
       a.reply == Reply(StatusOk, h, req.grants.value, a.reply.token)
       && h in a.runtime.registrations
       && a.runtime.registrations[h] == Registered(
            req.name, req.instance, req.endpoints, req.protocols, req.capabilities.value, req.resumable,
            req.grants.value, a.reply.token)
       && h in a.runtime.protocols && a.runtime.protocols[h] == req.protocols
       && Belongs(h, principal, conn, a.runtime.principals, a.runtime.connections)
       && (forall p :: p in req.protocols ==> p in a.runtime.apps)
  }

  /** With nothing to resume, registering is enrolling. */
  lemma RegisterEnrolls(rt: Runtime, req: Request, principal: nat, conn: bytes, entropy: bytes)
    requires Formed(req, principal) && forall h :: !Matches(rt, h, req, principal)
    ensures Register(rt, req, principal, conn, entropy) == Enroll(rt, req, principal, conn, entropy)
  {
    MatchesExactly(rt, req, principal);
  }

  lemma RegisterResumes(rt: Runtime, req: Request, principal: nat, conn: bytes, entropy: bytes, h: bytes)
    requires Tables(rt) && Formed(req, principal) && Matches(rt, h, req, principal)
    ensures Register(rt, req, principal, conn, entropy) == Resume(rt, h, req, principal, conn)
  {
    OneMatch(rt, principal, req.instance, h);
  }

  lemma EnrollRecorded(rt: Runtime, req: Request, principal: nat, conn: bytes, entropy: bytes)
    requires req.protocols != [] && req.capabilities.Passed? && req.grants.Passed?
    requires Enroll(rt, req, principal, conn, entropy).reply.status == StatusOk
    ensures Recorded(req, principal, conn, Enroll(rt, req, principal, conn, entropy))
  {
  }

  lemma ResumeRecorded(rt: Runtime, h: bytes, req: Request, principal: nat, conn: bytes)
    requires RtInv(rt) && Matches(rt, h, req, principal) && req.grants.Passed?
    requires Resume(rt, h, req, principal, conn).reply.status == StatusOk
    ensures Recorded(req, principal, conn, Resume(rt, h, req, principal, conn))
  {
    OwnedByOwner(rt, h);
    assert h in rt.protocols && rt.protocols[h][0] == h;
  }

  /** A granted registration records exactly what was asked for. */
  lemma RecordedExactly(rt: Runtime, req: Request, principal: nat, conn: bytes, entropy: bytes)
    requires RtInv(rt) && Register(rt, req, principal, conn, entropy).reply.status == StatusOk && Formed(req, principal)
    ensures Recorded(req, principal, conn, Register(rt, req, principal, conn, entropy))
  {
    if h :| Matches(rt, h, req, principal) {
      RegisterResumes(rt, req, principal, conn, entropy, h);
      ResumeRecorded(rt, h, req, principal, conn);
    } else {
      RegisterEnrolls(rt, req, principal, conn, entropy);
      EnrollRecorded(rt, req, principal, conn, entropy);
    }
  }

  lemma EnrollAdds(rt: Runtime, req: Request, principal: nat, conn: bytes, entropy: bytes)
    requires req.protocols != [] && req.capabilities.Passed? && req.grants.Passed?
    requires ClaimStatus(rt.apps.Keys, req.protocols) == StatusOk && forall p :: p in req.protocols ==> p !in rt.apps
    ensures var a := Enroll(rt, req, principal, conn, entropy);
            a.reply.token == (if req.resumable then entropy else [])
            && (forall p :: p in a.runtime.apps <==> p in rt.apps || p in req.protocols)
            && (forall p :: p in req.protocols ==> a.runtime.apps[p] == req.name)
            && (forall p :: p in rt.apps ==> a.runtime.apps[p] == rt.apps[p])
            && a.runtime.plane == rt.plane && a.runtime.listening == rt.listening
            && a.runtime.channels == rt.channels + AsSet(req.protocols)
            && a.runtime.registrations.Keys == rt.registrations.Keys + {req.protocols[0]}
  {
  }

  /** A new application gets its own token; its protocols carry its name, and everything else stays. */
  lemma EnrolledExactly(rt: Runtime, req: Request, principal: nat, conn: bytes, entropy: bytes)
    requires RtInv(rt) && Formed(req, principal) && Free(rt, req.protocols)
    requires forall h :: !Matches(rt, h, req, principal)
    ensures var a := Register(rt, req, principal, conn, entropy);
            a.reply.token == (if req.resumable then entropy else [])
            && (forall p :: p in a.runtime.apps <==> p in rt.apps || p in req.protocols)
            && (forall p :: p in req.protocols ==> a.runtime.apps[p] == req.name)
            && (forall p :: p in rt.apps ==> a.runtime.apps[p] == rt.apps[p])
            && a.runtime.plane == rt.plane && a.runtime.listening == rt.listening
            && a.runtime.channels == rt.channels + AsSet(req.protocols)
            && a.runtime.registrations.Keys == rt.registrations.Keys + {req.protocols[0]}
  {
    RegisterEnrolls(rt, req, principal, conn, entropy);
    ClaimExact(rt.apps.Keys, req.protocols);
    EnrollAdds(rt, req, principal, conn, entropy);
  }

  // ----- registering, losing the connection and registering again -----------

  /**
   From any state: a resumable application that is granted a registration on `c1`, loses that connection and registers
   by the same request on `c2` gets its handle and its token back.
   */
  lemma RegisterCloseRegister(
    rt: Runtime, req: Request, principal: nat, c1: bytes, c2: bytes, entropy: bytes, entropy': bytes)
    requires RtInv(rt) && Formed(req, principal) && req.resumable && c1 != []
    requires Register(rt, req, principal, c1, entropy).reply.status == StatusOk
    ensures var first := Register(rt, req, principal, c1, entropy);
            var again := Register(CloseConnection(first.runtime, c1), req, principal, c2, entropy');
            again.reply == first.reply && Recorded(req, principal, c2, again)
            && SameView(RebindApplications(first.runtime.plane, {req.protocols[0]}, c2), again.runtime.plane,
                        req.protocols[0])
  {
    var first := Register(rt, req, principal, c1, entropy);
    RecordedExactly(rt, req, principal, c1, entropy);
    RegisterKeeps(rt, req, principal, c1, entropy);
    ClosedAndBack(first, req, principal, c1, c2, entropy');
  }

  lemma ClosedAndBack(first: Answer, req: Request, principal: nat, c1: bytes, c2: bytes, entropy: bytes)
    requires RtInv(first.runtime) && Recorded(req, principal, c1, first) && Formed(req, principal)
    requires req.resumable && c1 != []
    ensures var again := Register(CloseConnection(first.runtime, c1), req, principal, c2, entropy);
            again.reply == first.reply && Recorded(req, principal, c2, again)
            && SameView(RebindApplications(first.runtime.plane, {req.protocols[0]}, c2), again.runtime.plane,
                        req.protocols[0])
  {
    var h := req.protocols[0];
    SuspendThenResume(first.runtime, h, principal, first.runtime.registrations[h], c1, c2, req, entropy);
    CloseConnectionKeeps(first.runtime, c1);
    RecordedExactly(CloseConnection(first.runtime, c1), req, principal, c2, entropy);
  }

  // ----- leaving ------------------------------------------------------------

  /** The caller registered `h`, and calls on its connection or on none. */
  predicate Registrant(rt: Runtime, h: bytes, principal: nat, conn: bytes) {
    h in rt.principals && rt.principals[h] == principal
    && (conn == [] || (h in rt.connections && rt.connections[h] == conn))
  }

  /** No table, protocol id or record of the data plane knows `h` any more. */
  ghost predicate Gone(rt: Runtime, h: bytes, ps: seq<bytes>) {
    h !in rt.protocols && h !in rt.principals && h !in rt.connections && h !in rt.registrations && h !in rt.listening
    && (forall p :: p in ps ==> p !in rt.apps && p !in rt.channels)
    && (forall l :: l in rt.plane.listeners ==> l.app != h)
    && (forall id :: id in rt.plane.sessions ==> rt.plane.sessions[id].app != h)
    && (forall x :: x in rt.plane.streams ==> rt.plane.streams[x].app != h)
  }

  lemma RemovedGone(p: Plane, h: bytes)
    ensures var q := RemoveApplications(p, {h});
            (forall l :: l in q.listeners ==> l.app != h)
            && (forall id :: id in q.sessions ==> q.sessions[id].app != h)
            && (forall x :: x in q.streams ==> q.streams[x].app != h)
  {
    ListenersWithoutMembers(p.listeners, {h});
  }

  /** An application leaves exactly at the word of its registrant, and then nothing of it remains. */
  lemma LeavesExactly(rt: Runtime, h: bytes, principal: nat, conn: bytes)
    requires RtInv(rt)
    ensures var a := Unregister(rt, h, principal, conn);
            a.reply.status == (if h !in rt.protocols && h !in rt.apps then StatusNotFound
                               else if Registrant(rt, h, principal, conn) then StatusOk else StatusPermissionDenied)
            && (a.reply.status != StatusOk ==> a.runtime == rt)
            && (a.reply.status == StatusOk ==> h in rt.protocols && Gone(a.runtime, h, rt.protocols[h]))
            && forall other :: other != h && other in rt.registrations ==>
                 other in a.runtime.registrations && a.runtime.registrations[other] == rt.registrations[other]
                 && a.runtime.principals[other] == rt.principals[other]
                 && a.runtime.connections[other] == rt.connections[other]
                 && a.runtime.protocols[other] == rt.protocols[other]
                 && (forall p :: p in rt.protocols[other] ==> p in a.runtime.apps && a.runtime.apps[p] == rt.apps[p])
                 && SameView(rt.plane, a.runtime.plane, other)
  {
    UnregisterKeeps(rt, h, principal, conn);
    RemovedGone(rt.plane, h);
    forall other | other != h && other in rt.registrations
      ensures SameView(rt.plane, Unregister(rt, h, principal, conn).runtime.plane, other)
    {
      if Unregister(rt, h, principal, conn).reply.status == StatusOk {
        RemoveApplicationsIsolated(rt.plane, {h}, other);
      } else {
        SameViewReflexive(rt.plane, other);
      }
    }
  }

  lemma SameViewReflexive(p: Plane, h: bytes)
    ensures SameView(p, p, h)
  {
  }

  lemma {:induction false} NoListeners(ls: seq<Listener>, h: bytes)
    requires forall i :: 0 <= i < |ls| ==> ls[i].app != h
    ensures ListenersWithout(ls, {h}) == ls
  {
    if ls != [] {
      NoListeners(ls[..|ls| - 1], h);
    }
  }

  /** An application without records leaves the data plane as it was. */
  lemma RemoveStranger(p: Plane, h: bytes)
    requires forall l :: l in p.listeners ==> l.app != h
    requires forall id :: id in p.sessions ==> p.sessions[id].app != h
    requires forall x :: x in p.streams ==> p.streams[x].app != h
    ensures RemoveApplications(p, {h}) == p
  {
    NoListeners(p.listeners, h);
    assert SessionsOf(p, {h}) == {} && HandlesOf(p, {h}) == {};
    WithoutNone(p.pendingSessions, {});
    WithoutNone(p.pendingStreams, {});
    assert p.sessions - {} == p.sessions && p.datagrams - {} == p.datagrams && p.streams - {} == p.streams;
    assert IndexWithout(p.index, {}) == p.index;
  }

  /** Registering anew and leaving again restores every table, the protocol ids and the data plane. */
  lemma RegisterThenLeave(rt: Runtime, req: Request, principal: nat, conn: bytes, entropy: bytes)
    requires RtInv(rt) && Formed(req, principal) && Free(rt, req.protocols)
    requires forall h :: !Matches(rt, h, req, principal)
    ensures var a := Register(rt, req, principal, conn, entropy);
            var left := Unregister(a.runtime, a.reply.handle, principal, conn);
            left.reply.status == StatusOk
            && left.runtime == rt.(channels := rt.channels - AsSet(req.protocols))
  {
    RegisterEnrolls(rt, req, principal, conn, entropy);
    ClaimExact(rt.apps.Keys, req.protocols);
    HandleHeld(rt.protocols, rt.registrations, rt.apps, req.protocols[0]);
    EnrollRecorded(rt, req, principal, conn, entropy);
    EnrollThenForget(rt, req, principal, conn, entropy);
  }

  lemma EnrollThenForget(rt: Runtime, req: Request, principal: nat, conn: bytes, entropy: bytes)
    requires RegistrationInvariant.SameKeys(rt) && Owners(rt.plane, rt.principals, rt.connections)
    requires req.protocols != [] && req.capabilities.Passed? && req.grants.Passed?
    requires ClaimStatus(rt.apps.Keys, req.protocols) == StatusOk && forall p :: p in req.protocols ==> p !in rt.apps
    requires req.protocols[0] !in rt.protocols
    ensures Forget(Enroll(rt, req, principal, conn, entropy).runtime, {req.protocols[0]}, AsSet(req.protocols))
            == rt.(channels := rt.channels - AsSet(req.protocols))
  {
    var h := req.protocols[0];
    RemoveStranger(rt.plane, h);
    TablesUndone(rt, req, principal, conn, entropy);
    var left := Forget(Enroll(rt, req, principal, conn, entropy).runtime, {h}, AsSet(req.protocols));
    assert left.channels == rt.channels - AsSet(req.protocols);
  }

  lemma TablesUndone(rt: Runtime, req: Request, principal: nat, conn: bytes, entropy: bytes)
    requires RegistrationInvariant.SameKeys(rt) && req.protocols != [] && req.capabilities.Passed? && req.grants.Passed?
    requires ClaimStatus(rt.apps.Keys, req.protocols) == StatusOk && forall p :: p in req.protocols ==> p !in rt.apps
    requires req.protocols[0] !in rt.protocols
    ensures var h, a := req.protocols[0], Enroll(rt, req, principal, conn, entropy).runtime;
            a.apps - AsSet(req.protocols) == rt.apps && a.protocols - {h} == rt.protocols
            && a.principals - {h} == rt.principals && a.connections - {h} == rt.connections
            && a.registrations - {h} == rt.registrations && a.listening - {h} == rt.listening
  {
    var h := req.protocols[0];
    assert h !in rt.listening;
    ClaimUndone(rt.apps, req.protocols, req.name);
    Undone(rt.protocols, h, req.protocols);
    Undone(rt.principals, h, principal);
    Undone(rt.connections, h, conn);
    var token := if req.resumable then entropy else [];
    Undone(rt.registrations, h, Registered(req.name, req.instance, req.endpoints, req.protocols,
                                           req.capabilities.value, req.resumable, req.grants.value, token));
  }

  lemma Undone<V>(m: map<bytes, V>, h: bytes, v: V)
    requires h !in m
    ensures m[h := v] - {h} == m
  {
  }

  lemma ClaimUndone(apps: map<bytes, bytes>, ps: seq<bytes>, name: bytes)
    requires forall p :: p in ps ==> p !in apps
    ensures Claimed(apps, ps, name) - AsSet(ps) == apps
  {
  }

  // ----- a lost connection --------------------------------------------------

  /** Nothing of `h` has changed. */
  ghost predicate Untouched(rt: Runtime, rt': Runtime, h: bytes)
    requires h in rt.registrations && h in rt.principals && h in rt.connections && h in rt.protocols
  {
    h in rt'.registrations && rt'.registrations[h] == rt.registrations[h]
    && Belongs(h, rt.principals[h], rt.connections[h], rt'.principals, rt'.connections)
    && h in rt'.protocols && rt'.protocols[h] == rt.protocols[h]
    && (forall p :: p in rt.protocols[h] ==> p in rt'.apps && p in rt.apps && rt'.apps[p] == rt.apps[p])
    && SameView(rt.plane, rt'.plane, h)
  }

  /**
   A lost connection suspends the resumable applications on it, ends the others, and leaves applications on other
   connections alone.
   */
  lemma LostExactly(rt: Runtime, conn: bytes, h: bytes)
    requires RtInv(rt) && conn != [] && h in rt.registrations
    ensures var closed := CloseConnection(rt, conn);
            (rt.connections[h] != conn ==> Untouched(rt, closed, h))
            && (rt.connections[h] == conn && rt.registrations[h].resumable ==>
                  Belongs(h, rt.principals[h], [], closed.principals, closed.connections)
                  && h in closed.registrations && closed.registrations[h] == rt.registrations[h])
            && (rt.connections[h] == conn && !rt.registrations[h].resumable ==> Gone(closed, h, rt.protocols[h]))
  {
    if rt.connections[h] != conn {
      OtherUntouched(rt, conn, h);
    } else if rt.registrations[h].resumable {
      CloseSuspends(rt, h, conn);
    } else {
      EndedGone(rt, conn, h);
    }
  }

  lemma OtherView(rt: Runtime, suspended: set<bytes>, dropped: set<bytes>, h: bytes)
    requires Inv(rt.plane) && h !in suspended && h !in dropped
    ensures SameView(rt.plane, RemoveApplications(RebindApplications(rt.plane, suspended, []), dropped), h)
  {
    var moved := RebindApplications(rt.plane, suspended, []);
    RebindApplicationsIsolated(rt.plane, suspended, [], h);
    RebindApplicationsKeeps(rt.plane, suspended, []);
    RemoveApplicationsIsolated(moved, dropped, h);
    SameViewTransitive(rt.plane, moved, RemoveApplications(moved, dropped), h);
  }

  lemma OtherProtocols(rt: Runtime, dropped: set<bytes>, h: bytes)
    requires Tables(rt) && h in rt.protocols && h !in dropped
    ensures forall p :: p in rt.protocols[h] ==> p in rt.apps && p !in ProtocolIds(rt.protocols, dropped)
  {
  }

  lemma OtherTables(rt: Runtime, conn: bytes, h: bytes)
    requires RegistrationInvariant.SameKeys(rt) && conn != [] && h in rt.registrations && rt.connections[h] != conn
    ensures var closed := CloseConnection(rt, conn);
            h in closed.registrations && closed.registrations[h] == rt.registrations[h]
            && Belongs(h, rt.principals[h], rt.connections[h], closed.principals, closed.connections)
            && h in closed.protocols && closed.protocols[h] == rt.protocols[h]
  {
  }

  lemma OtherUntouched(rt: Runtime, conn: bytes, h: bytes)
    requires RtInv(rt) && conn != [] && h in rt.registrations && rt.connections[h] != conn
    ensures Untouched(rt, CloseConnection(rt, conn), h)
  {
    var handles := HandlesOn(rt, conn);
    assert h !in handles;
    OtherTables(rt, conn, h);
    OtherView(rt, Suspended(rt, handles), Dropped(rt, handles), h);
    OtherApps(rt, conn, h);
  }

  lemma OtherApps(rt: Runtime, conn: bytes, h: bytes)
    requires Tables(rt) && conn != [] && h in rt.protocols && rt.connections[h] != conn
    ensures var closed := CloseConnection(rt, conn);
            forall p :: p in rt.protocols[h] ==> p in closed.apps && p in rt.apps && closed.apps[p] == rt.apps[p]
  {
    OtherProtocols(rt, Dropped(rt, HandlesOn(rt, conn)), h);
  }

  lemma EndedGone(rt: Runtime, conn: bytes, h: bytes)
    requires RtInv(rt) && conn != [] && h in rt.registrations && rt.connections[h] == conn
    requires !rt.registrations[h].resumable
    ensures Gone(CloseConnection(rt, conn), h, rt.protocols[h])
  {
    var handles := HandlesOn(rt, conn);
    var moved := RebindApplications(rt.plane, Suspended(rt, handles), []);
    var dropped := Dropped(rt, handles);
    ListenersWithoutMembers(moved.listeners, dropped);
    forall p | p in rt.protocols[h] ensures p in ProtocolIds(rt.protocols, dropped) {
    }
  }

  // ----- listeners, sessions and streams ------------------------------------

  /** A registrant listens once, for its own handle and with room for a session; it is then the last listener. */
  lemma ListensExactly(
    rt: Runtime, h: bytes, principal: nat, conn: bytes, protocol: bytes, early: bool, max: nat)
    ensures var a := OpenListener(rt, h, principal, conn, protocol, early, max);
            a.reply.status
            == (if h !in rt.apps then StatusNotFound
                else if !Registrant(rt, h, principal, conn) then StatusPermissionDenied
                else if protocol != [] && protocol != h then StatusInvalidArgument
                else if early then StatusUnimplemented
                else if max == 0 then StatusInvalidArgument
                else if h in rt.listening then StatusAlreadyExists else StatusOk)
            && (a.reply.status != StatusOk ==> a.runtime == rt)
            && (a.reply.status == StatusOk ==>
                  a.runtime == rt.(listening := rt.listening + {h}, plane := rt.plane.(
                    listeners := Filter(rt.plane.listeners, (l: Listener) => !(l.app == h && l.protocol == h))
                                 + [Listener(h, h, principal, conn, if max > 256 then 256 else max)])))
  {
    RegisteredListeners(rt.plane, h, h, principal, conn, max);
  }

  /** A registrant that listens can stop, and then has no listener. */
  lemma StopsExactly(rt: Runtime, h: bytes, principal: nat, conn: bytes)
    ensures var a := CloseListener(rt, h, principal, conn);
            a.reply.status == (if h !in rt.listening then StatusNotFound
                               else if !Registrant(rt, h, principal, conn) then StatusPermissionDenied else StatusOk)
            && a.runtime == if a.reply.status != StatusOk then rt
                            else rt.(listening := rt.listening - {h}, plane := rt.plane.(
                                   listeners := Filter(rt.plane.listeners, (l: Listener) => l.app != h)))
  {
    RemovedListeners(rt.plane, h);
  }

  /** A registrant's connect gives it the session, unless somebody has it; others change nothing. */
  lemma ConnectsExactly(rt: Runtime, h: bytes, principal: nat, conn: bytes, session: nat)
    ensures Connect(rt, h, principal, conn, session)
            == if h in rt.apps && Registrant(rt, h, principal, conn) && session !in rt.plane.sessions
               then rt.(plane := rt.plane.(
                      sessions := rt.plane.sessions[session := Session(h, principal, conn, false)]))
               else rt
  {
  }

  /** A registrant starts streams of its first protocol, which is its handle; others change nothing. */
  lemma StartsExactly(rt: Runtime, h: bytes, principal: nat, conn: bytes, session: nat, stream: nat)
    requires RtInv(rt)
    ensures var started := StartStream(rt, h, principal, conn, session, stream);
            if h in rt.apps && Registrant(rt, h, principal, conn)
            then started == rt.(plane := Step(rt.plane, OpOpenStream(principal, conn, h, session, stream, h)))
            else started == rt
  {
    assert h in rt.protocols ==> rt.protocols[h] != [] && rt.protocols[h][0] == h;
  }
}
