/**
 What each operation answers, said of the records and of what waits: who is refused and why, and what the others get.
 With the stories of sessions and streams this fixes every answer from the operations that came before.
 */
module PlaneAnswers {
  import opened Bytes
  import opened Queues
  import opened DataPlane
  import opened PlaneInvariant
  import opened PlaneRuns
  import opened PlaneFifo
  import opened PlaneDatagrams
  import opened PlaneStreams
  import opened PlaneSessions

  // ----- calls on one stream ------------------------------------------------

  predicate OwnStream(p: Plane, h: bytes, principal: nat, conn: bytes) {
    h in p.streams && p.streams[h].principal == principal && p.streams[h].conn == conn
  }

  /** Only the owner of a stream is served; the others learn whether it exists. */
  function Stranger(p: Plane, h: bytes): Error {
    if h in p.streams then PermissionDenied else NotFound
  }

  /** A stream is accepted once, by its owner; rejecting, resetting and closing it is the owner's at any time. */
  lemma OwnersAnswered(p: Plane, h: bytes, principal: nat, conn: bytes, code: nat)
    ensures AcceptStream(p, h, principal, conn).result
            == if !OwnStream(p, h, principal, conn) then Err(Stranger(p, h))
               else if p.streams[h].pending then Ok(()) else Err(AlreadyAccepted)
    ensures var owned: Result<()> := if OwnStream(p, h, principal, conn) then Ok(()) else Err(Stranger(p, h));
            RejectStream(p, h, principal, conn).result == owned
            && MarkStreamReset(p, h, principal, conn, code).result == owned
            && CloseStreamSend(p, h, principal, conn).result == owned
  {
  }

  /** What the owner of an accepted stream reads: a reset, the next octets of the first chunk, or that nothing waits. */
  function Read(p: Plane, h: bytes, max: nat, wait: bool): Result<Option<StreamRead>>
    requires h in p.streams
  {
    var s := p.streams[h];
    if s.reset.Some? then Ok(Some(StreamRead([], false, true, s.reset.value)))
    else if max == 0 then Err(InvalidArgument)
    else if Content(p, h) != [] && s.queued != [] then
      var n := if |s.queued[0]| < max then |s.queued[0]| else max;
      if n <= |Content(p, h)| then Ok(Some(StreamRead(Content(p, h)[..n], s.eof && |s.queued| == 1, false, 0)))
      else Err(InvalidArgument)
    else if s.eof then Ok(Some(StreamRead([], true, false, 0)))
    else if wait then Err(WouldBlock) else Ok(None)
  }

  lemma FirstChunk(queued: seq<bytes>)
    requires queued != []
    ensures queued[0] <= Flatten(queued)
  {
  }

  lemma ReadAnswered(p: Plane, h: bytes, principal: nat, conn: bytes, max: nat, wait: bool)
    requires Inv(p)
    ensures ReadStream(p, h, principal, conn, max, wait).result
            == if !OwnStream(p, h, principal, conn) then Err(Stranger(p, h))
               else if p.streams[h].pending then Err(Pending)
               else Read(p, h, max, wait)
  {
    if OwnStream(p, h, principal, conn) && p.streams[h].queued != [] {
      OwnReadAnswered(p, h, principal, conn, max, wait);
    }
  }

  lemma OwnReadAnswered(p: Plane, h: bytes, principal: nat, conn: bytes, max: nat, wait: bool)
    requires OwnStream(p, h, principal, conn) && QueueExact(p.streams[h]) && p.streams[h].queued != []
    ensures ReadStream(p, h, principal, conn, max, wait).result
            == if p.streams[h].pending then Err(Pending) else Read(p, h, max, wait)
  {
    var s := p.streams[h];
    FirstChunk(s.queued);
    assert s.queued[0] != [];
    var n := if |s.queued[0]| < max then |s.queued[0]| else max;
    assert Content(p, h)[..n] == s.queued[0][..n];
    assert s.queued[0][..|s.queued[0]|] == s.queued[0];
    assert s.queued[1..] == [] <==> |s.queued| == 1;
  }

  /** Data is accepted for a stream exactly while what waits and the data together fit 2 MiB. */
  lemma PushAnswered(p: Plane, h: bytes, data: bytes, eof: bool)
    requires Inv(p)
    ensures PushStreamData(p, h, data, eof).result
            == if h !in p.streams then Err(NotFound)
               else if |Content(p, h)| + |data| <= 2_097_152 then Ok(()) else Err(QueueFull)
  {
    if h in p.streams {
      assert QueueExact(p.streams[h]);
    }
  }

  /** So over a whole run: exactly while accepted, less delivered, and the data together fit 2 MiB. */
  lemma AcceptedExactly(ops: seq<Op>, h: bytes, data: bytes, eof: bool)
    requires |ops| < U64_MAX && Flowing(Run(EMPTY_PLANE, ops), h)
    ensures PushStreamData(Run(EMPTY_PLANE, ops), h, data, eof).result.Ok?
            <==> |Accepted(ops, h)| - |Delivered(ops, h)| + |data| <= 2_097_152
  {
    ReachableInv(ops);
    PushAnswered(Run(EMPTY_PLANE, ops), h, data, eof);
    FifoFromEmpty(ops, h);
  }

  function Accepted(ops: seq<Op>, h: bytes): bytes {
    PlaneFifo.Accepted(EMPTY_PLANE, ops, h)
  }

  function Delivered(ops: seq<Op>, h: bytes): bytes {
    PlaneFifo.Delivered(EMPTY_PLANE, ops, h)
  }

  // ----- calls on one session -----------------------------------------------

  /** A session is bound anew or by exactly its owner. */
  lemma BindAnswered(p: Plane, id: nat, conn: bytes, app: bytes, principal: nat, pending: bool)
    ensures BindSession(p, id, conn, app, principal, pending).result
            == if id in p.sessions
                  && (p.sessions[id].app != app || p.sessions[id].principal != principal || p.sessions[id].conn != conn)
               then Err(PermissionDenied) else Ok(())
  {
  }

  /** A session is accepted once, by its owner, and rejected by its owner at any time. */
  lemma SessionAnswered(p: Plane, id: nat, principal: nat, conn: bytes)
    ensures var own := id in p.sessions && p.sessions[id].principal == principal && p.sessions[id].conn == conn;
            var stranger := if id in p.sessions then PermissionDenied else NotFound;
            AcceptSession(p, id, principal, conn).result
            == (if !own then Err(stranger) else if p.sessions[id].pending then Ok(()) else Err(AlreadyAccepted))
            && RejectSession(p, id, principal, conn).result == if own then Ok(()) else Err(stranger)
  {
  }

  // ----- arrivals -----------------------------------------------------------

  /** Whether session `id` is, or can become, a session of the listener's application. */
  function Admission(p: Plane, l: Listener, id: nat): Option<Error> {
    if id in p.sessions then (if p.sessions[id].app == l.app then None else Some(PermissionDenied))
    else if |WaitingOf(p, l.app)| < l.maxPending then None else Some(QueueFull)
  }

  /** The octets that wait on stream (session, stream), if there is one. */
  ghost function PairContent(p: Plane, session: nat, stream: nat): bytes {
    if exists h :: HasPair(p, h, session, stream) then
      var h :| HasPair(p, h, session, stream);
      Content(p, h)
    else []
  }

  lemma PairContentIndexed(p: Plane, session: nat, stream: nat)
    requires IndexExact(p.streams, p.index)
    ensures PairContent(p, session, stream)
            == if (session, stream) in p.index then Content(p, p.index[(session, stream)]) else []
    ensures (session, stream) in p.index <==> exists h :: HasPair(p, h, session, stream)
  {
    forall h ensures HasPair(p, h, session, stream)
                     <==> (session, stream) in p.index && p.index[(session, stream)] == h
    {
      PairIndexed(p, h, session, stream);
    }
    if (session, stream) in p.index {
      assert HasPair(p, p.index[(session, stream)], session, stream);
    }
  }

  /** A stream is routed to the listener that registered first, if its session is admitted and the data fit. */
  lemma RouteAnswered(p: Plane, session: nat, stream: nat, protocol: bytes, data: bytes, eof: bool)
    requires Inv(p)
    ensures var r := RouteIncomingStream(p, session, stream, protocol, data, eof).result;
            ((forall l :: !FirstListener(p.listeners, protocol, l)) ==> r == Err(NotFound))
            && forall l :: FirstListener(p.listeners, protocol, l) ==>
                 if Admission(p, l, session).Some? then r == Err(Admission(p, l, session).value)
                 else if |PairContent(p, session, stream)| + |data| <= 2_097_152 then r.Ok?
                 else r == Err(QueueFull)
  {
    FirstFound(p, protocol);
    forall l | FirstListener(p.listeners, protocol, l)
      ensures var r := RouteIncomingStream(p, session, stream, protocol, data, eof).result;
              if Admission(p, l, session).Some? then r == Err(Admission(p, l, session).value)
              else if |PairContent(p, session, stream)| + |data| <= 2_097_152 then r.Ok?
              else r == Err(QueueFull)
    {
      RouteToAnswered(p, l, session, stream, protocol, data, eof);
    }
  }

  lemma AttachedContent(p: Plane, l: Listener, session: nat, stream: nat, protocol: bytes)
    requires HandlesIssued(p.streams, p.nextHandle) && IndexExact(p.streams, p.index) && QueuesExact(p.streams)
    ensures var q := AttachStream(p, l, session, stream, protocol);
            var h := q.index[(session, stream)];
            h in q.streams
            && q.streams[h].queuedBytes
               == if (session, stream) in p.index then |Content(p, p.index[(session, stream)])| else 0
  {
    if (session, stream) in p.index {
      assert QueueExact(p.streams[p.index[(session, stream)]]);
    }
  }

  lemma RouteToAnswered(
    p: Plane, l: Listener, session: nat, stream: nat, protocol: bytes, data: bytes, eof: bool)
    requires Inv(p) && FindListener(p.listeners, protocol) == Some(l)
    ensures var r := RouteIncomingStream(p, session, stream, protocol, data, eof).result;
            if Admission(p, l, session).Some? then r == Err(Admission(p, l, session).value)
            else if |PairContent(p, session, stream)| + |data| <= 2_097_152 then r.Ok?
            else r == Err(QueueFull)
  {
    assert WaitingOf(p, l.app) == PendingOf(p.sessions, l.app);
    PairContentIndexed(p, session, stream);
    var admitted := AdmitSession(p, l, session);
    if admitted.result.Ok? && admitted.plane.sessions[session].app == l.app {
      AttachedContent(admitted.plane, l, session, stream, protocol);
    }
  }

  /** Data for a known stream needs its protocol; for an unknown one somebody must listen. */
  lemma RouteDataAnswered(p: Plane, session: nat, stream: nat, protocol: bytes, data: bytes, eof: bool)
    requires Inv(p)
    ensures var r := RouteStreamData(p, session, stream, protocol, data, eof).result;
            (forall h :: HasPair(p, h, session, stream) ==>
               r == if p.streams[h].protocol != protocol then Err(PermissionDenied)
                    else if |Content(p, h)| + |data| <= 2_097_152 then Ok(true) else Err(QueueFull))
            && ((forall h :: !HasPair(p, h, session, stream)) ==>
                  var routed := RouteIncomingStream(p, session, stream, protocol, data, eof).result;
                  r == if forall l :: !FirstListener(p.listeners, protocol, l) then Ok(false)
                       else if routed.Ok? then Ok(true) else Err(routed.error))
  {
    FirstFound(p, protocol);
    PairContentIndexed(p, session, stream);
    forall h | HasPair(p, h, session, stream)
      ensures (session, stream) in p.index && p.index[(session, stream)] == h
    {
      PairIndexed(p, h, session, stream);
    }
    if (session, stream) in p.index {
      PushAnswered(p, p.index[(session, stream)], data, eof);
      assert HasPair(p, p.index[(session, stream)], session, stream);
    }
  }

  // ----- listeners ----------------------------------------------------------

  /** Registering replaces the application's listener for the protocol and puts the new one last. */
  lemma RegisteredListeners(p: Plane, protocol: bytes, app: bytes, principal: nat, conn: bytes, max: nat)
    ensures RegisterListener(p, protocol, app, principal, conn, max).listeners
            == Filter(p.listeners, (l: Listener) => !(l.app == app && l.protocol == protocol))
               + [Listener(protocol, app, principal, conn, if max == 0 then 1 else if max > 256 then 256 else max)]
  {
    ExceptFilters(p.listeners, app, protocol);
  }

  lemma {:induction false} ExceptFilters(ls: seq<Listener>, app: bytes, protocol: bytes)
    ensures ListenersExcept(ls, app, protocol)
            == Filter(ls, (l: Listener) => !(l.app == app && l.protocol == protocol))
  {
    if ls != [] {
      ExceptFilters(ls[..|ls| - 1], app, protocol);
    }
  }

  lemma {:induction false} WithoutFilters(ls: seq<Listener>, apps: set<bytes>)
    ensures ListenersWithout(ls, apps) == Filter(ls, (l: Listener) => l.app !in apps)
  {
    if ls != [] {
      WithoutFilters(ls[..|ls| - 1], apps);
    }
  }

  /** Removing drops every listener of the application, and nothing else. */
  lemma RemovedListeners(p: Plane, app: bytes)
    ensures RemoveListener(p, app).listeners == Filter(p.listeners, (l: Listener) => l.app != app)
    ensures RemoveApplication(p, app).listeners == Filter(p.listeners, (l: Listener) => l.app != app)
  {
    var apps := {app};
    WithoutFilters(p.listeners, apps);
    FilterAgrees(p.listeners, (l: Listener) => l.app !in apps, (l: Listener) => l.app != app);
  }

  /** A lost connection takes every listener of the applications that listen on it. */
  lemma LostListeners(p: Plane, conn: bytes)
    ensures RemoveConnection(p, conn).listeners == Filter(p.listeners, (l: Listener) => !Listens(p, l.app, conn))
  {
    var apps := ListenerApps(p.listeners, conn);
    WithoutFilters(p.listeners, apps);
    forall i | 0 <= i < |p.listeners| ensures p.listeners[i].app in apps <==> Listens(p, p.listeners[i].app, conn) {
      ListenerAppsExactly(p, p.listeners[i].app, conn);
    }
    FilterAgrees(p.listeners, (l: Listener) => l.app !in apps, (l: Listener) => !Listens(p, l.app, conn));
  }

  // ----- moving an application ----------------------------------------------

  /** An application moves exactly if all its records belong to the principal; then all of them and no others move. */
  lemma RebindAnswered(p: Plane, app: bytes, principal: nat, conn: bytes)
    ensures var r := RebindApplication(p, app, principal, conn);
            var owned := (forall l :: l in p.listeners && l.app == app ==> l.principal == principal)
                         && (forall id :: id in p.sessions && p.sessions[id].app == app ==>
                               p.sessions[id].principal == principal)
                         && (forall h :: h in p.streams && p.streams[h].app == app ==>
                               p.streams[h].principal == principal);
            r.result == (if owned then Ok(()) else Err(PermissionDenied))
            && r.plane == p.(listeners := r.plane.listeners, sessions := r.plane.sessions, streams := r.plane.streams)
            && |r.plane.listeners| == |p.listeners|
            && (forall i :: 0 <= i < |p.listeners| ==>
                  r.plane.listeners[i] == if owned && p.listeners[i].app == app then p.listeners[i].(conn := conn)
                                          else p.listeners[i])
            && (!owned ==> r.plane == p)
  {
    if forall l :: l in p.listeners && l.app == app ==> l.principal == principal {
      assert forall i :: 0 <= i < |p.listeners| && p.listeners[i].app == app ==>
        p.listeners[i] in p.listeners && p.listeners[i].principal == principal;
    }
  }
}
