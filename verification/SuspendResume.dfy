/** What registration promises: all-or-nothing updates, and resumption without loss. */
module SuspendResume {
  import opened Bytes
  import opened Queues
  import opened DataPlane
  import opened PlaneInvariant
  import opened PlaneIsolation
  import opened Registration
  import opened RegistrationInvariant

  // ----- registration is all or nothing -------------------------------------

  /** A list of protocol ids can be claimed exactly when its ids are short, free and distinct. */
  lemma ClaimExact(apps: set<bytes>, ps: seq<bytes>)
    ensures ClaimStatus(apps, ps) == StatusOk
            <==> Distinct(ps) && (forall p :: p in ps ==> p !in apps && |p| <= MAX_PROTOCOL_ID_LEN)
  {
    if ClaimStatus(apps, ps) == StatusOk {
      ClaimFresh(apps, ps);
    }
    if Distinct(ps) && (forall p :: p in ps ==> p !in apps && |p| <= MAX_PROTOCOL_ID_LEN) {
      ClaimWorks(apps, ps);
    }
  }

  lemma {:induction false} ClaimWorks(apps: set<bytes>, ps: seq<bytes>)
    requires Distinct(ps) && forall p :: p in ps ==> p !in apps && |p| <= MAX_PROTOCOL_ID_LEN
    ensures ClaimStatus(apps, ps) == StatusOk
    decreases |ps|
  {
    if ps != [] {
      assert forall j :: 0 < j < |ps| ==> ps[j] != ps[0];
      assert forall p :: p in ps[1..] ==> p in ps && p != ps[0];
      ClaimWorks(apps + {ps[0]}, ps[1..]);
    }
  }

  /** The choice among matching applications is no choice. */
  lemma OneMatch(rt: Runtime, principal: nat, instance: bytes, h: bytes)
    requires Tables(rt) && h in Resumable(rt, principal, instance)
    ensures Resumable(rt, principal, instance) == {h}
  {
    forall a | a in Resumable(rt, principal, instance) ensures a == h {
    }
  }

  /** A refused registration changes nothing: no table, no protocol id, no record. */
  lemma RefusedRegistrationChangesNothing(rt: Runtime, req: Request, principal: nat, conn: bytes, entropy: bytes)
    requires RtInv(rt) && Register(rt, req, principal, conn, entropy).reply.status != StatusOk
    ensures Register(rt, req, principal, conn, entropy).runtime == rt
  {
    if Screen(req, principal).None? && req.resumable && Resumable(rt, principal, req.instance) != {} {
      var h :| h in Resumable(rt, principal, req.instance);
      OneMatch(rt, principal, req.instance, h);
      ResumeKeeps(rt, h, req, principal, conn);
    }
  }

  /** A registration never takes over a handle: what was recorded stays, up to fresh grants. */
  lemma RegistrationNeverOverwrites(
    rt: Runtime, req: Request, principal: nat, conn: bytes, entropy: bytes, h: bytes)
    requires RtInv(rt) && h in rt.registrations
    ensures var rt' := Register(rt, req, principal, conn, entropy).runtime;
            h in rt'.registrations && h in rt'.principals && h in rt'.protocols && h in rt'.connections
            && rt'.principals[h] == rt.principals[h] && rt'.protocols[h] == rt.protocols[h]
            && rt'.registrations[h] == rt.registrations[h].(grants := rt'.registrations[h].grants)
            && (rt'.connections[h] != rt.connections[h] ==>
                  rt.connections[h] == [] && rt'.connections[h] == conn
                  && rt.registrations[h].resumable && principal == rt.principals[h]
                  && req.instance == rt.registrations[h].instance)
  {
    if Screen(req, principal).None? {
      if req.resumable && Resumable(rt, principal, req.instance) != {} {
        var m :| m in Resumable(rt, principal, req.instance);
        OneMatch(rt, principal, req.instance, m);
        ResumeNeverOverwrites(rt, m, req, principal, conn, h);
      } else {
        EnrollNeverOverwrites(rt, req, principal, conn, entropy, h);
      }
    }
  }

  ghost predicate Same(rt: Runtime, rt': Runtime, h: bytes) {
    h in rt.registrations && h in rt.principals && h in rt.protocols && h in rt.connections
    && h in rt'.registrations && h in rt'.principals && h in rt'.protocols && h in rt'.connections
    && rt'.principals[h] == rt.principals[h] && rt'.protocols[h] == rt.protocols[h]
    && rt'.registrations[h] == rt.registrations[h].(grants := rt'.registrations[h].grants)
  }

  lemma EnrollNeverOverwrites(rt: Runtime, req: Request, principal: nat, conn: bytes, entropy: bytes, h: bytes)
    requires RegistrationInvariant.SameKeys(rt) && h in rt.registrations
    requires ListsHeld(rt.protocols, rt.registrations, rt.apps)
    requires req.protocols != [] && req.capabilities.Passed? && req.grants.Passed?
    ensures var rt' := Enroll(rt, req, principal, conn, entropy).runtime;
            Same(rt, rt', h) && rt'.connections[h] == rt.connections[h]
  {
    if ClaimStatus(rt.apps.Keys, req.protocols) == StatusOk {
      ClaimFresh(rt.apps.Keys, req.protocols);
      HandleHeld(rt.protocols, rt.registrations, rt.apps, req.protocols[0]);
    }
  }

  lemma ResumeNeverOverwrites(rt: Runtime, m: bytes, req: Request, principal: nat, conn: bytes, h: bytes)
    requires RegistrationInvariant.SameKeys(rt) && h in rt.registrations && m in rt.registrations && req.grants.Passed?
    ensures var rt' := Resume(rt, m, req, principal, conn).runtime;
            Same(rt, rt', h)
            && (rt'.connections[h] != rt.connections[h] ==>
                  h == m && rt.connections[h] == [] && rt'.connections[h] == conn)
  {
  }

  /** A granted registration makes its caller the owner of the handle it is given. */
  lemma GrantedRegistrationOwns(rt: Runtime, req: Request, principal: nat, conn: bytes, entropy: bytes)
    requires RtInv(rt) && Screen(req, principal).None?
    requires Register(rt, req, principal, conn, entropy).reply.status == StatusOk
    ensures var a := Register(rt, req, principal, conn, entropy);
            OwnsHandle(a.runtime, a.reply.handle, principal, conn)
            && a.reply.handle in a.runtime.connections && a.runtime.connections[a.reply.handle] == conn
            && a.reply.handle in a.runtime.registrations
            && a.runtime.registrations[a.reply.handle].token == a.reply.token
            && (forall p :: p in req.protocols ==> p in a.runtime.apps)
  {
    if req.resumable && Resumable(rt, principal, req.instance) != {} {
      var h :| h in Resumable(rt, principal, req.instance);
      OneMatch(rt, principal, req.instance, h);
    }
  }

  // ----- rebinding and views ------------------------------------------------

  lemma {:induction false} RebindTwiceListeners(
    ls: seq<Listener>, apps: set<bytes>, first: bytes, h: bytes, conn: bytes)
    requires h in apps
    ensures ListenersFor(RebindListeners(RebindListeners(ls, apps, first), {h}, conn), h)
            == ListenersFor(RebindListeners(ls, {h}, conn), h)
  {
    if ls != [] {
      var front := ls[..|ls| - 1];
      RebindTwiceListeners(front, apps, first, h, conn);
      var once := RebindListeners(ls, apps, first);
      var twice := RebindListeners(once, {h}, conn);
      var direct := RebindListeners(ls, {h}, conn);
      assert once[..|ls| - 1] == RebindListeners(front, apps, first);
      assert twice[..|ls| - 1] == RebindListeners(once[..|ls| - 1], {h}, conn);
      assert direct[..|ls| - 1] == RebindListeners(front, {h}, conn);
    }
  }

  /** A second move of `h` hides the first. */
  lemma RebindTwice(p: Plane, apps: set<bytes>, first: bytes, h: bytes, conn: bytes)
    requires h in apps
    ensures SameView(RebindApplications(RebindApplications(p, apps, first), {h}, conn),
                     RebindApplications(p, {h}, conn), h)
  {
    var a := RebindApplications(RebindApplications(p, apps, first), {h}, conn);
    var b := RebindApplications(p, {h}, conn);
    RebindTwiceListeners(p.listeners, apps, first, h, conn);
    assert SameSessions(a, b, h);
    assert SameStreams(a, b, h);
    PlaneIsolation.SameKeys(a, b, h);
  }

  /** The listeners of `h` after a move depend only on the listeners of `h` before it. */
  lemma {:induction false} RebindListenersView(ls: seq<Listener>, h: bytes, conn: bytes)
    ensures ListenersFor(RebindListeners(ls, {h}, conn), h) == RebindListeners(ListenersFor(ls, h), {h}, conn)
  {
    if ls != [] {
      var front, l := ls[..|ls| - 1], ls[|ls| - 1];
      RebindListenersView(front, h, conn);
      var r := RebindListeners(ls, {h}, conn);
      assert r[..|ls| - 1] == RebindListeners(front, {h}, conn);
      if l.app == h {
        var own := ListenersFor(front, h);
        assert RebindListeners(own + [l], {h}, conn) == RebindListeners(own, {h}, conn) + [l.(conn := conn)];
      }
    }
  }

  lemma RebindView(p: Plane, q: Plane, h: bytes, conn: bytes)
    requires SameView(p, q, h)
    ensures SameView(RebindApplications(p, {h}, conn), RebindApplications(q, {h}, conn), h)
  {
    RebindListenersView(p.listeners, h, conn);
    RebindListenersView(q.listeners, h, conn);
    RebindSessionsView(p, q, h, conn);
    RebindStreamsView(p, q, h, conn);
    RebindKeys(p, h, conn);
    RebindKeys(q, h, conn);
  }

  lemma RebindSessionsView(p: Plane, q: Plane, h: bytes, conn: bytes)
    requires SameSessions(p, q, h)
    ensures SameSessions(RebindApplications(p, {h}, conn), RebindApplications(q, {h}, conn), h)
  {
    var a, b := RebindApplications(p, {h}, conn), RebindApplications(q, {h}, conn);
    assert forall id :: IsSessionOf(a, id, h) <==> IsSessionOf(p, id, h);
    assert forall id :: IsSessionOf(b, id, h) <==> IsSessionOf(q, id, h);
  }

  lemma RebindStreamsView(p: Plane, q: Plane, h: bytes, conn: bytes)
    requires SameStreams(p, q, h)
    ensures SameStreams(RebindApplications(p, {h}, conn), RebindApplications(q, {h}, conn), h)
  {
    var a, b := RebindApplications(p, {h}, conn), RebindApplications(q, {h}, conn);
    assert forall x :: IsStreamOf(a, x, h) <==> IsStreamOf(p, x, h);
    assert forall x :: IsStreamOf(b, x, h) <==> IsStreamOf(q, x, h);
  }

  lemma RebindKeys(p: Plane, h: bytes, conn: bytes)
    ensures SessionsOf(RebindApplications(p, {h}, conn), {h}) == SessionsOf(p, {h})
    ensures HandlesOf(RebindApplications(p, {h}, conn), {h}) == HandlesOf(p, {h})
  {
  }

  // ----- suspend, then resume -----------------------------------------------

  /** The request repeats the registration it resumes. */
  predicate Repeats(m: Registered, req: Request) {
    req.resumable && m.resumable && req.instance == m.instance && SameRequest(m, req)
  }

  /** Closing its connection suspends a resumable application and leaves its records alone. */
  lemma CloseSuspends(rt: Runtime, h: bytes, conn: bytes)
    requires RtInv(rt) && conn != [] && h in rt.connections && rt.connections[h] == conn && IsResumable(rt, h)
    ensures var closed := CloseConnection(rt, conn);
            h in closed.connections && closed.connections[h] == []
            && closed.principals[h] == rt.principals[h] && closed.registrations[h] == rt.registrations[h]
            && closed.protocols[h] == rt.protocols[h]
            && SameView(RebindApplications(rt.plane, {h}, []), closed.plane, h)
  {
    var handles := HandlesOn(rt, conn);
    var suspended, dropped := Suspended(rt, handles), Dropped(rt, handles);
    var moved := RebindApplications(rt.plane, suspended, []);
    RemoveApplicationsIsolated(moved, dropped, h);
    var once := RebindApplications(rt.plane, {h}, []);
    SameMove(rt.plane, suspended, h, []);
    SameViewTransitive(once, moved, RemoveApplications(moved, dropped), h);
  }

  /** Moving several applications moves `h` as moving it alone does. */
  lemma SameMove(p: Plane, apps: set<bytes>, h: bytes, conn: bytes)
    requires h in apps
    ensures SameView(RebindApplications(p, {h}, conn), RebindApplications(p, apps, conn), h)
  {
    var a, b := RebindApplications(p, {h}, conn), RebindApplications(p, apps, conn);
    SameMoveListeners(p.listeners, apps, h, conn);
    assert SameSessions(a, b, h);
    assert SameStreams(a, b, h);
    PlaneIsolation.SameKeys(a, b, h);
  }

  lemma {:induction false} SameMoveListeners(ls: seq<Listener>, apps: set<bytes>, h: bytes, conn: bytes)
    requires h in apps
    ensures ListenersFor(RebindListeners(ls, {h}, conn), h) == ListenersFor(RebindListeners(ls, apps, conn), h)
  {
    if ls != [] {
      var front := ls[..|ls| - 1];
      SameMoveListeners(front, apps, h, conn);
      assert RebindListeners(ls, {h}, conn)[..|ls| - 1] == RebindListeners(front, {h}, conn);
      assert RebindListeners(ls, apps, conn)[..|ls| - 1] == RebindListeners(front, apps, conn);
    }
  }

  /** Re-registering a suspended application moves it to the new connection and returns its handle and token. */
  lemma ResumeMoves(rt: Runtime, h: bytes, conn: bytes, req: Request, entropy: bytes)
    requires RtInv(rt) && h in rt.registrations && Repeats(rt.registrations[h], req)
    requires rt.connections[h] == [] && Screen(req, rt.principals[h]).None?
    ensures var a := Register(rt, req, rt.principals[h], conn, entropy);
            a.reply == Reply(StatusOk, h, req.grants.value, rt.registrations[h].token)
            && a.runtime.plane == RebindApplications(rt.plane, {h}, conn)
            && a.runtime.connections == rt.connections[h := conn] && a.runtime.principals == rt.principals
  {
    OneMatch(rt, rt.principals[h], req.instance, h);
    OwnedByOwner(rt, h);
  }

  /** The answer gives `h` its token back and all it owned in the plane `p`, now on `conn`. */
  ghost predicate Resumed(p: Plane, a: Answer, h: bytes, principal: nat, m: Registered, req: Request, conn: bytes) {
    req.grants.Passed? && a.reply == Reply(StatusOk, h, req.grants.value, m.token)
    && Belongs(h, principal, conn, a.runtime.principals, a.runtime.connections)
    && SameView(RebindApplications(p, {h}, conn), a.runtime.plane, h)
  }

  /**
   Suspend then resume loses nothing: the application gets its handle and token
   back and has the listeners, sessions, streams, queues and pending entries it
   had, all on the new connection.
   */
  lemma SuspendThenResume(
    rt: Runtime, h: bytes, principal: nat, m: Registered, c1: bytes, c2: bytes, req: Request, entropy: bytes)
    requires h in rt.registrations && rt.registrations[h] == m && Repeats(m, req)
    requires Belongs(h, principal, c1, rt.principals, rt.connections) && c1 != []
    requires Screen(req, principal).None? && RtInv(rt)
    ensures Resumed(rt.plane, Register(CloseConnection(rt, c1), req, principal, c2, entropy), h, principal, m, req, c2)
  {
    CloseSuspends(rt, h, c1);
    CloseConnectionKeeps(rt, c1);
    ResumeAfterClose(rt.plane, CloseConnection(rt, c1), h, principal, m, c2, req, entropy);
  }

  /** The suspended application `h` still shows what it owned in the plane `p`. */
  ghost predicate SuspendedFrom(p: Plane, closed: Runtime, h: bytes, principal: nat, m: Registered) {
    Belongs(h, principal, [], closed.principals, closed.connections)
    && h in closed.registrations && closed.registrations[h] == m
    && SameView(RebindApplications(p, {h}, []), closed.plane, h)
  }

  lemma ResumeAfterClose(
    p: Plane, closed: Runtime, h: bytes, principal: nat, m: Registered, conn: bytes, req: Request, entropy: bytes)
    requires RtInv(closed) && SuspendedFrom(p, closed, h, principal, m)
    requires Repeats(m, req) && Screen(req, principal).None?
    ensures Resumed(p, Register(closed, req, principal, conn, entropy), h, principal, m, req, conn)
  {
    ResumeMoves(closed, h, conn, req, entropy);
    MovedBack(p, closed.plane, h, conn);
  }

  /** What was suspended as it was resumes as it was. */
  lemma MovedBack(p: Plane, closed: Plane, h: bytes, conn: bytes)
    requires SameView(RebindApplications(p, {h}, []), closed, h)
    ensures SameView(RebindApplications(p, {h}, conn), RebindApplications(closed, {h}, conn), h)
  {
    var suspended := RebindApplications(p, {h}, []);
    RebindView(suspended, closed, h, conn);
    RebindTwice(p, {h}, [], h, conn);
    SameViewSymmetric(RebindApplications(suspended, {h}, conn), RebindApplications(p, {h}, conn), h);
    SameViewTransitive(RebindApplications(p, {h}, conn), RebindApplications(suspended, {h}, conn),
                       RebindApplications(closed, {h}, conn), h);
  }

  lemma SameViewSymmetric(p: Plane, q: Plane, h: bytes)
    requires SameView(p, q, h)
    ensures SameView(q, p, h)
  {
  }

  /** Once the application has moved, every call with the old connection is denied. */
  lemma OldConnectionDenied(
    rt: Runtime, h: bytes, stale: bytes, principal: nat, id: nat, x: bytes, max: nat, wait: bool)
    requires RtInv(rt) && h in rt.connections && rt.connections[h] != stale && stale != []
    ensures !OwnsHandle(rt, h, principal, stale)
    ensures IsStreamOf(rt.plane, x, h) ==> StreamDenied(rt.plane, x, principal, stale) == Some(PermissionDenied)
    ensures IsSessionOf(rt.plane, id, h) ==>
              AcceptSession(rt.plane, id, principal, stale) == Outcome(rt.plane, Err(PermissionDenied))
              && RejectSession(rt.plane, id, principal, stale) == Outcome(rt.plane, Err(PermissionDenied))
              && ReceiveDatagram(rt.plane, id, stale, max, wait) == Outcome(rt.plane, Err(PermissionDenied))
  {
  }
}
