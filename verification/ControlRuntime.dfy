/**
 Registration as the control service performs it: table by table, with a
 rollback of claimed protocol ids and a loop over the handles of a closing
 connection. Each method ends in the state that `Registration` describes.
 */
module ControlRuntime {
  import opened Bytes
  import opened DataPlane
  import opened PlaneInvariant
  import opened PlaneRemovals
  import opened Registration
  import opened RegistrationInvariant
  import opened SuspendResume

  // ----- closing in steps ---------------------------------------------------

  lemma {:induction false} RebindWithoutListeners(ls: seq<Listener>, apps: set<bytes>, gone: set<bytes>, conn: bytes)
    ensures RebindListeners(ListenersWithout(ls, gone), apps, conn)
            == ListenersWithout(RebindListeners(ls, apps, conn), gone)
  {
    if ls != [] {
      var front, l := ls[..|ls| - 1], ls[|ls| - 1];
      RebindWithoutListeners(front, apps, gone, conn);
      var r := RebindListeners(ls, apps, conn);
      assert r[..|ls| - 1] == RebindListeners(front, apps, conn);
      if l.app !in gone {
        var rest := ListenersWithout(front, gone);
        assert RebindListeners(rest + [l], apps, conn) == RebindListeners(rest, apps, conn) + [r[|ls| - 1]];
      }
    }
  }

  /** Moving and removing applications commute. */
  lemma RebindRemove(p: Plane, apps: set<bytes>, gone: set<bytes>, conn: bytes)
    ensures RebindApplications(RemoveApplications(p, gone), apps, conn)
            == RemoveApplications(RebindApplications(p, apps, conn), gone)
  {
    var q := RebindApplications(p, apps, conn);
    RebindWithoutListeners(p.listeners, apps, gone, conn);
    RebindKeepsKeys(p, apps, gone, conn);
    RebindFewer(p.sessions, p.streams, SessionsOf(p, gone), HandlesOf(p, gone), apps, conn);
  }

  lemma RebindKeepsKeys(p: Plane, apps: set<bytes>, gone: set<bytes>, conn: bytes)
    ensures SessionsOf(RebindApplications(p, apps, conn), gone) == SessionsOf(p, gone)
    ensures HandlesOf(RebindApplications(p, apps, conn), gone) == HandlesOf(p, gone)
  {
  }

  lemma RebindFewer(sessions: map<nat, Session>, streams: map<bytes, Stream>, ids: set<nat>, hs: set<bytes>,
                    apps: set<bytes>, conn: bytes)
    ensures RebindSessions(sessions - ids, apps, conn) == RebindSessions(sessions, apps, conn) - ids
    ensures RebindStreams(streams - hs, apps, conn) == RebindStreams(streams, apps, conn) - hs
  {
  }

  lemma RebindCompose(p: Plane, a: set<bytes>, b: set<bytes>, conn: bytes)
    ensures RebindApplications(RebindApplications(p, a, conn), b, conn) == RebindApplications(p, a + b, conn)
  {
    var x := RebindApplications(RebindApplications(p, a, conn), b, conn);
    var y := RebindApplications(p, a + b, conn);
    assert x.listeners == y.listeners;
    assert x.sessions == y.sessions;
    assert x.streams == y.streams;
  }

  /** The tables when the handles `done` of a closing connection have been dealt with. */
  function Closing(rt: Runtime, done: set<bytes>): Runtime {
    Forget(Suspend(rt, Suspended(rt, done)), Dropped(rt, done), ProtocolIds(rt.protocols, Dropped(rt, done)))
  }

  lemma ClosingNothing(rt: Runtime)
    ensures Closing(rt, {}) == rt
  {
    assert Suspended(rt, {}) == {} && Dropped(rt, {}) == {};
    assert ProtocolIds(rt.protocols, {}) == {};
    SuspendNothing(rt);
    ForgetNothing(rt);
  }

  lemma SuspendNothing(rt: Runtime)
    ensures Suspend(rt, {}) == rt
  {
    var moved := RebindApplications(rt.plane, {}, []);
    assert moved.listeners == rt.plane.listeners;
    assert moved.sessions == rt.plane.sessions && moved.streams == rt.plane.streams;
    assert Suspend(rt, {}).connections == rt.connections;
  }

  lemma ForgetNothing(rt: Runtime)
    ensures Forget(rt, {}, {}) == rt
  {
    RemoveNoApplications(rt.plane);
    assert rt.protocols - {} == rt.protocols && rt.principals - {} == rt.principals;
    assert rt.connections - {} == rt.connections && rt.registrations - {} == rt.registrations;
    assert rt.apps - {} == rt.apps && rt.listening - {} == rt.listening && rt.channels - {} == rt.channels;
  }

  lemma ClosingKeeps(rt: Runtime, done: set<bytes>)
    requires RtInv(rt) && done <= rt.protocols.Keys
    ensures RtInv(Closing(rt, done))
  {
    SuspendKeeps(rt, Suspended(rt, done));
    ForgetKeeps(Suspend(rt, Suspended(rt, done)), Dropped(rt, done));
  }

  /** One more resumable handle. */
  lemma ClosingSuspends(rt: Runtime, done: set<bytes>, h: bytes)
    requires IsResumable(rt, h) && h !in done && h in rt.connections
    ensures var c := Closing(rt, done);
            Closing(rt, done + {h})
            == c.(connections := c.connections[h := []], plane := RebindApplications(c.plane, {h}, []))
  {
    var suspended, dropped := Suspended(rt, done), Dropped(rt, done);
    assert Suspended(rt, done + {h}) == suspended + {h};
    assert Dropped(rt, done + {h}) == dropped;
    RebindCompose(rt.plane, suspended, {h}, []);
    RebindRemove(RebindApplications(rt.plane, suspended, []), {h}, dropped, []);
    assert Closing(rt, done + {h}).connections == Closing(rt, done).connections[h := []];
  }

  /** One more handle that is not resumable. */
  lemma ClosingDrops(rt: Runtime, done: set<bytes>, h: bytes)
    requires !IsResumable(rt, h) && h in rt.protocols
    ensures Closing(rt, done + {h}) == Forget(Closing(rt, done), {h}, AsSet(rt.protocols[h]))
  {
    var suspended, dropped := Suspended(rt, done), Dropped(rt, done);
    assert Suspended(rt, done + {h}) == suspended;
    assert Dropped(rt, done + {h}) == dropped + {h};
    assert ProtocolIds(rt.protocols, dropped + {h}) == ProtocolIds(rt.protocols, dropped) + AsSet(rt.protocols[h]);
    ForgetCompose(Suspend(rt, suspended), dropped, ProtocolIds(rt.protocols, dropped), {h}, AsSet(rt.protocols[h]));
  }

  lemma ForgetCompose(rt: Runtime, a: set<bytes>, aIds: set<bytes>, b: set<bytes>, bIds: set<bytes>)
    ensures Forget(Forget(rt, a, aIds), b, bIds) == Forget(rt, a + b, aIds + bIds)
  {
    RemoveApplicationsCompose(rt.plane, a, b);
    assert (rt.protocols - a) - b == rt.protocols - (a + b);
    assert (rt.principals - a) - b == rt.principals - (a + b);
    assert (rt.connections - a) - b == rt.connections - (a + b);
    assert (rt.registrations - a) - b == rt.registrations - (a + b);
    assert (rt.apps - aIds) - bIds == rt.apps - (aIds + bIds);
  }

  /** When no application is on a connection, removing the connection removes nothing. */
  lemma NothingOnConnection(rt: Runtime, conn: bytes)
    requires RtInv(rt) && (forall h :: h in rt.connections ==> rt.connections[h] != conn)
    ensures RemoveConnection(rt.plane, conn) == rt.plane
  {
    forall i | 0 <= i < |rt.plane.listeners| ensures rt.plane.listeners[i].conn != conn {
      assert rt.plane.listeners[i] in rt.plane.listeners;
    }
    assert ListenerApps(rt.plane.listeners, conn) == {};
    RemoveNoApplications(rt.plane);
    assert SessionsOn(rt.plane, conn) == {};
    RemoveNoSessions(rt.plane);
  }

  /** What dealing with one more handle `h` of a closing connection relies on. */
  ghost predicate Ready(rt: Runtime, done: set<bytes>, h: bytes) {
    var c := Closing(rt, done);
    h !in done && h in rt.connections && h in rt.protocols && h in rt.registrations
    && h in c.registrations && c.registrations[h] == rt.registrations[h]
    && h in c.protocols && c.protocols[h] == rt.protocols[h]
    && h in c.principals && OwnedBy(c.plane, h, c.principals[h])
  }

  ghost predicate AllReady(rt: Runtime, handles: set<bytes>) {
    forall done, h {:trigger Ready(rt, done, h)} :: done <= handles && h in handles && h !in done ==> Ready(rt, done, h)
  }

  lemma ReadyToClose(rt: Runtime, done: set<bytes>, h: bytes)
    requires RtInv(rt) && done <= rt.protocols.Keys && h in rt.protocols && h !in done
    ensures Ready(rt, done, h)
  {
    ClosingKeeps(rt, done);
    OwnedByOwner(Closing(rt, done), h);
  }

  /** The loop can deal with the handles in any order, and then nothing is left on the connection. */
  lemma CloseReady(rt: Runtime, conn: bytes)
    requires RtInv(rt) && conn != []
    ensures var handles := HandlesOn(rt, conn);
            AllReady(rt, handles) && RemoveConnection(Closing(rt, handles).plane, conn) == Closing(rt, handles).plane
  {
    var handles := HandlesOn(rt, conn);
    forall done, h | done <= handles && h in handles && h !in done ensures Ready(rt, done, h) {
      ReadyToClose(rt, done, h);
    }
    ClosingKeeps(rt, handles);
    ClosedLeavesNothing(rt, conn);
    NothingOnConnection(Closing(rt, handles), conn);
  }

  lemma ClosedLeavesNothing(rt: Runtime, conn: bytes)
    requires conn != []
    ensures var c := Closing(rt, HandlesOn(rt, conn)); forall h :: h in c.connections ==> c.connections[h] != conn
  {
  }

  // ----- the tables ---------------------------------------------------------

  /** Claiming one more id. */
  lemma ClaimOneMore(before: map<bytes, bytes>, ps: seq<bytes>, i: nat, name: bytes)
    requires i < |ps|
    ensures var apps := Claimed(before, ps[..i], name);
            apps[ps[i] := name] == Claimed(before, ps[..i + 1], name)
            && (|ps[i]| <= MAX_PROTOCOL_ID_LEN && ps[i] !in apps ==>
                  ClaimStatus(apps.Keys, ps[i..]) == ClaimStatus(apps[ps[i] := name].Keys, ps[i + 1..]))
  {
    var apps := Claimed(before, ps[..i], name);
    assert ps[i..][1..] == ps[i + 1..];
    assert apps[ps[i] := name].Keys == apps.Keys + {ps[i]};
    assert ps[..i + 1] == ps[..i] + [ps[i]];
    assert AsSet(ps[..i + 1]) == AsSet(ps[..i]) + {ps[i]};
  }

  class ControlTables {
    var protocols: map<bytes, seq<bytes>>
    var principals: map<bytes, nat>
    var connections: map<bytes, bytes>
    var registrations: map<bytes, Registered>
    var listening: set<bytes>
    var apps: map<bytes, bytes>
    var channels: set<bytes>
    var plane: Plane

    ghost function Snapshot(): Runtime
      reads this
    {
      Runtime(protocols, principals, connections, registrations, listening, apps, channels, plane)
    }

    ghost predicate Valid()
      reads this
    {
      RtInv(Snapshot())
    }

    constructor (builtin: map<bytes, bytes>, open: set<bytes>)
      ensures Valid() && Snapshot() == Initial(builtin, open)
    {
      protocols, principals, connections, registrations := map[], map[], map[], map[];
      listening, apps, channels, plane := {}, builtin, open, EMPTY_PLANE;
      new;
      InitialInv(builtin, open);
    }

    /** Claim the ids one by one; a failure gives the claimed ones back. */
    method ClaimProtocols(ps: seq<bytes>, name: bytes) returns (status: Status)
      modifies this`apps
      ensures status == ClaimStatus(old(apps).Keys, ps)
      ensures apps == if status == StatusOk then Claimed(old(apps), ps, name) else old(apps)
    {
      var i := 0;
      while i < |ps|
        invariant 0 <= i <= |ps|
        invariant apps == Claimed(old(apps), ps[..i], name)
        invariant forall p :: p in ps[..i] ==> p !in old(apps)
        invariant ClaimStatus(old(apps).Keys, ps) == ClaimStatus(apps.Keys, ps[i..])
      {
        if |ps[i]| > MAX_PROTOCOL_ID_LEN {
          GiveBack(ps[..i], old(apps), name);
          return StatusInvalidArgument;
        }
        if ps[i] in apps {
          GiveBack(ps[..i], old(apps), name);
          return StatusAlreadyExists;
        }
        ClaimOneMore(old(apps), ps, i, name);
        apps := apps[ps[i] := name];
        i := i + 1;
      }
      assert ps[..i] == ps;
      status := StatusOk;
    }

    method GiveBack(claimed: seq<bytes>, ghost before: map<bytes, bytes>, ghost name: bytes)
      requires apps == Claimed(before, claimed, name)
      requires forall p :: p in claimed ==> p !in before
      modifies this`apps
      ensures apps == before
    {
      var i := 0;
      while i < |claimed|
        invariant 0 <= i <= |claimed|
        invariant apps.Keys == before.Keys + (AsSet(claimed) - AsSet(claimed[..i]))
        invariant forall p :: p in before ==> p in apps && apps[p] == before[p]
      {
        assert AsSet(claimed[..i + 1]) == AsSet(claimed[..i]) + {claimed[i]};
        apps := apps - {claimed[i]};
        i := i + 1;
      }
      assert claimed[..i] == claimed;
      assert apps.Keys == before.Keys;
    }

    method Register(req: Request, principal: nat, conn: bytes, entropy: bytes) returns (r: Reply)
      requires Valid()
      modifies this
      ensures Answer(Snapshot(), r) == Registration.Register(old(Snapshot()), req, principal, conn, entropy)
      ensures Valid()
    {
      RegisterKeeps(Snapshot(), req, principal, conn, entropy);
      var screened := Screen(req, principal);
      if screened.Some? {
        return Plain(screened.value);
      }
      if req.resumable {
        var existing := set h | h in registrations && registrations[h].resumable
                                && registrations[h].instance == req.instance
                                && h in principals && principals[h] == principal;
        assert existing == Resumable(Snapshot(), principal, req.instance);
        if existing != {} {
          var h :| h in existing;
          OneMatch(Snapshot(), principal, req.instance, h);
          r := ResumeApplication(h, req, principal, conn);
          return;
        }
      }
      r := EnrollApplication(req, principal, conn, entropy);
    }

    method ResumeApplication(h: bytes, req: Request, principal: nat, conn: bytes) returns (r: Reply)
      requires h in registrations && req.grants.Passed?
      modifies this
      ensures Answer(Snapshot(), r) == Resume(old(Snapshot()), h, req, principal, conn)
    {
      var m := registrations[h];
      if h in connections && connections[h] != [] && connections[h] != conn {
        return Plain(StatusAlreadyExists);
      }
      if !SameRequest(m, req) {
        return Plain(StatusAlreadyExists);
      }
      connections := connections[h := conn];
      var moved := RebindApplication(plane, h, principal, conn);
      plane := moved.plane;
      if moved.result.Err? {
        return Plain(StatusPermissionDenied);
      }
      registrations := registrations[h := m.(grants := req.grants.value)];
      r := Reply(StatusOk, h, req.grants.value, m.token);
    }

    method EnrollApplication(req: Request, principal: nat, conn: bytes, entropy: bytes) returns (r: Reply)
      requires req.protocols != [] && req.capabilities.Passed? && req.grants.Passed?
      modifies this
      ensures Answer(Snapshot(), r) == Enroll(old(Snapshot()), req, principal, conn, entropy)
    {
      var status := ClaimProtocols(req.protocols, req.name);
      if status != StatusOk {
        return Plain(status);
      }
      OpenChannels(req.protocols);
      var token := if req.resumable then entropy else [];
      Record(req, principal, conn, token);
      r := Reply(StatusOk, req.protocols[0], req.grants.value, token);
    }

    /** Enter the application into the four registration tables. */
    method Record(req: Request, principal: nat, conn: bytes, token: bytes)
      requires req.protocols != [] && req.capabilities.Passed? && req.grants.Passed?
      modifies this`protocols, this`principals, this`connections, this`registrations
      ensures protocols == old(protocols)[req.protocols[0] := req.protocols]
      ensures principals == old(principals)[req.protocols[0] := principal]
      ensures connections == old(connections)[req.protocols[0] := conn]
      ensures registrations == old(registrations)[req.protocols[0] := Registered(
                req.name, req.instance, req.endpoints, req.protocols,
                req.capabilities.value, req.resumable, req.grants.value, token)]
    {
      var h := req.protocols[0];
      protocols := protocols[h := req.protocols];
      principals := principals[h := principal];
      connections := connections[h := conn];
      registrations := registrations[h := Registered(
        req.name, req.instance, req.endpoints, req.protocols,
        req.capabilities.value, req.resumable, req.grants.value, token)];
    }

    method OpenChannels(ids: seq<bytes>)
      modifies this`channels
      ensures channels == old(channels) + AsSet(ids)
    {
      var i := 0;
      while i < |ids|
        invariant 0 <= i <= |ids|
        invariant channels == old(channels) + AsSet(ids[..i])
      {
        assert AsSet(ids[..i + 1]) == AsSet(ids[..i]) + {ids[i]};
        channels := channels + {ids[i]};
        i := i + 1;
      }
      assert ids[..i] == ids;
    }

    /** Release protocol ids and their channels. */
    method Release(ids: seq<bytes>)
      modifies this`apps, this`channels
      ensures apps == old(apps) - AsSet(ids) && channels == old(channels) - AsSet(ids)
    {
      var i := 0;
      while i < |ids|
        invariant 0 <= i <= |ids|
        invariant apps == old(apps) - AsSet(ids[..i]) && channels == old(channels) - AsSet(ids[..i])
      {
        assert AsSet(ids[..i + 1]) == AsSet(ids[..i]) + {ids[i]};
        apps := apps - {ids[i]};
        channels := channels - {ids[i]};
        i := i + 1;
      }
      assert ids[..i] == ids;
    }

    method Drop(h: bytes)
      modifies this
      ensures Snapshot() == Forget(old(Snapshot()), {h}, AsSet(ProtocolsOf(old(Snapshot()), h)))
    {
      var ids := if h in protocols then protocols[h] else [h];
      protocols := protocols - {h};
      principals := principals - {h};
      connections := connections - {h};
      registrations := registrations - {h};
      listening := listening - {h};
      plane := RemoveApplication(plane, h);
      Release(ids);
    }

    method Unregister(h: bytes, principal: nat, conn: bytes) returns (r: Reply)
      modifies this
      ensures Answer(Snapshot(), r) == Registration.Unregister(old(Snapshot()), h, principal, conn)
      ensures old(Valid()) ==> Valid()
    {
      if Valid() { UnregisterKeeps(Snapshot(), h, principal, conn); }
      if h !in protocols && h !in apps {
        return Plain(StatusNotFound);
      }
      if !(h in principals && principals[h] == principal
           && (conn == [] || (h in connections && connections[h] == conn))) {
        return Plain(StatusPermissionDenied);
      }
      Drop(h);
      r := Plain(StatusOk);
    }

    method CloseConnection(conn: bytes)
      requires Valid()
      modifies this
      ensures Snapshot() == Registration.CloseConnection(old(Snapshot()), conn)
      ensures Valid()
    {
      CloseConnectionKeeps(Snapshot(), conn);
      if conn == [] {
        return;
      }
      var handles := set h | h in connections && connections[h] == conn;
      assert handles == HandlesOn(Snapshot(), conn);
      CloseReady(Snapshot(), conn);
      CloseHandles(handles);
      plane := RemoveConnection(plane, conn);
    }

    /** The loop over the handles of the connection, in any order. */
    method CloseHandles(handles: set<bytes>)
      requires AllReady(Snapshot(), handles)
      modifies this
      ensures Snapshot() == Closing(old(Snapshot()), handles)
    {
      ghost var before := Snapshot();
      var left := handles;
      ghost var done: set<bytes> := {};
      assert Snapshot() == Closing(before, done) by { ClosingNothing(before); }
      while left != {}
        invariant done <= handles && left == handles - done
        invariant Snapshot() == Closing(before, done)
        decreases left
      {
        var h :| h in left;
        assert Ready(before, done, h);
        CloseHandle(h, before, done);
        done := done + {h};
        left := left - {h};
      }
      assert done == handles;
    }

    method CloseHandle(h: bytes, ghost before: Runtime, ghost done: set<bytes>)
      requires Ready(before, done, h) && Snapshot() == Closing(before, done)
      modifies this
      ensures Snapshot() == Closing(before, done + {h})
    {
      if h in registrations && registrations[h].resumable {
        ClosingSuspends(before, done, h);
        connections := connections[h := []];
        if h in principals {
          plane := RebindApplication(plane, h, principals[h], []).plane;
        }
        return;
      }
      ClosingDrops(before, done, h);
      Drop(h);
    }
  }
}
