/** What holds of the data plane over whole runs, and what each failure leaves behind. */
module PlaneRuns {
  import opened Bytes
  import opened Queues
  import opened DataPlane
  import opened PlaneInvariant

  // ----- the handle counter -------------------------------------------------

  /** An operation takes at most one handle and never gives one back. */
  lemma StepCounter(p: Plane, op: Op)
    ensures p.nextHandle <= Step(p, op).nextHandle <= p.nextHandle + 1
  {
    if op.OpRouteIncomingStream? || op.OpRouteStreamData? {
      RouteCounter(p, op.session, op.stream, op.protocol, op.data, op.eof);
    }
  }

  lemma RouteCounter(p: Plane, session: nat, stream: nat, protocol: bytes, data: bytes, eof: bool)
    ensures var r := RouteIncomingStream(p, session, stream, protocol, data, eof).plane;
            p.nextHandle <= r.nextHandle <= p.nextHandle + 1
  {
  }

  lemma {:induction false} RunCounter(p: Plane, ops: seq<Op>)
    ensures p.nextHandle <= Run(p, ops).nextHandle <= p.nextHandle + |ops|
  {
    if ops != [] {
      RunCounter(p, ops[..|ops| - 1]);
      StepCounter(Run(p, ops[..|ops| - 1]), ops[|ops| - 1]);
    }
  }

  /** Every state reached from a good one while the counter stays below its maximum is good. */
  lemma {:induction false} RunKeepsInv(p: Plane, ops: seq<Op>)
    requires Inv(p) && p.nextHandle + |ops| <= U64_MAX
    ensures Inv(Run(p, ops))
  {
    if ops != [] {
      var before := Run(p, ops[..|ops| - 1]);
      RunKeepsInv(p, ops[..|ops| - 1]);
      RunCounter(p, ops[..|ops| - 1]);
      StepKeepsInv(before, ops[|ops| - 1]);
    }
  }

  /** Every state reachable from a new plane in fewer than 2^64 - 1 operations is good. */
  lemma ReachableInv(ops: seq<Op>)
    requires |ops| < U64_MAX
    ensures Inv(Run(EMPTY_PLANE, ops))
  {
    EmptyInv();
    RunKeepsInv(EMPTY_PLANE, ops);
  }

  /**
   At the maximum the counter no longer moves: the second of two streams opened
   there gets the handle of the first, which loses its record while its index
   row stays.
   */
  lemma SaturatedCounterReusesHandle(
    p: Plane, principal: nat, conn: bytes, app: bytes, session: nat, one: nat, two: nat, protocol: bytes)
    requires p.nextHandle == U64_MAX && one != two && session !in p.sessions
    requires (session, one) !in p.index && (session, two) !in p.index
    ensures var first := OpenStream(p, principal, conn, app, session, one, protocol);
            var second := OpenStream(first.plane, principal, conn, app, session, two, protocol);
            first.result.Ok? && second.result == first.result
            && !IndexExact(second.plane.streams, second.plane.index)
  {
    var first := OpenStream(p, principal, conn, app, session, one, protocol);
    var second := OpenStream(first.plane, principal, conn, app, session, two, protocol);
    assert second.plane.index[(session, one)] == second.plane.index[(session, two)];
    assert (session, one) in second.plane.index && (session, two) in second.plane.index;
  }

  // ----- lookups that cannot fail -------------------------------------------

  /** Routing data never answers "not found": an indexed stream always has a record. */
  lemma RouteStreamDataFindsStream(p: Plane, session: nat, stream: nat, protocol: bytes, data: bytes, eof: bool)
    requires Inv(p)
    ensures RouteStreamData(p, session, stream, protocol, data, eof).result != Err(NotFound)
  {
    if (session, stream) !in p.index && FindListener(p.listeners, protocol).Some? {
      var l := FindListener(p.listeners, protocol).value;
      var admitted := AdmitSession(p, l, session);
      assert admitted.plane.index == p.index;
      var attached := AttachStream(admitted.plane, l, session, stream, protocol);
      assert attached.index[(session, stream)] in attached.streams;
    }
  }

  /** A transport reset finds the record of every indexed stream. */
  lemma ResetForSessionFindsStream(p: Plane, session: nat, stream: nat, code: nat)
    requires Inv(p)
    ensures MarkStreamResetForSession(p, session, stream, code).result == Ok((session, stream) in p.index)
  {
  }

  // ----- what failures leave behind -----------------------------------------

  /** The session `id` is owned by exactly this application, principal and connection. */
  predicate SessionOwnedBy(p: Plane, id: nat, app: bytes, principal: nat, conn: bytes) {
    id in p.sessions
    && p.sessions[id].app == app && p.sessions[id].principal == principal && p.sessions[id].conn == conn
  }

  /** Opening fails exactly on a foreign session or a taken stream id, and then changes nothing. */
  lemma OpenStreamFailsClean(
    p: Plane, principal: nat, conn: bytes, app: bytes, session: nat, stream: nat, protocol: bytes)
    requires Inv(p)
    ensures var r := OpenStream(p, principal, conn, app, session, stream, protocol);
            (r.result.Err? <==>
               session in p.sessions
               && (!SessionOwnedBy(p, session, app, principal, conn) || (session, stream) in p.index))
            && (r.result.Err? ==> r.plane == p)
            && (r.result.Ok? ==> r.result.value !in p.streams && r.result.value in r.plane.streams
                                 && SessionOwnedBy(r.plane, session, app, principal, conn))
  {
    NextHandleFresh(p);
    assert (session, stream) in p.index ==> p.index[(session, stream)] in p.streams;
  }

  /**
   A refused route leaves the plane alone, or, when only the data did not fit,
   leaves what routing an empty chunk would have left.
   */
  lemma RouteFailure(p: Plane, session: nat, stream: nat, protocol: bytes, data: bytes, eof: bool)
    requires Inv(p)
    ensures var r := RouteIncomingStream(p, session, stream, protocol, data, eof);
            r.result.Err? ==>
              r.plane == p
              || (r.result.error == QueueFull
                  && r.plane == RouteIncomingStream(p, session, stream, protocol, [], false).plane)
  {
    match FindListener(p.listeners, protocol)
    case None =>
    case Some(l) =>
      var admitted := AdmitSession(p, l, session);
      if admitted.result.Ok? && admitted.plane.sessions[session].app == l.app {
        var attached := AttachStream(admitted.plane, l, session, stream, protocol);
        var h := attached.index[(session, stream)];
        AttachedFits(admitted.plane, l, session, stream, protocol);
        EmptyPush(attached, h);
      }
  }

  lemma AttachedFits(p: Plane, l: Listener, session: nat, stream: nat, protocol: bytes)
    requires IndexExact(p.streams, p.index) && QueuesExact(p.streams)
    ensures var q := AttachStream(p, l, session, stream, protocol);
            var h := q.index[(session, stream)];
            h in q.streams && q.streams[h].queuedBytes <= MAX_STREAM_BUFFER_BYTES
  {
    if (session, stream) in p.index {
      assert QueueExact(p.streams[p.index[(session, stream)]]);
    }
  }

  lemma EmptyPush(p: Plane, h: bytes)
    requires h in p.streams && p.streams[h].queuedBytes <= MAX_STREAM_BUFFER_BYTES
    ensures PushStreamData(p, h, [], false).plane == p
  {
    assert p.streams[h := p.streams[h]] == p.streams;
  }

  /** The datagram queues of two planes answer alike; an absent queue is an empty one. */
  ghost predicate SameDatagrams(p: Plane, q: Plane) {
    forall id :: DatagramsOf(p, id) == DatagramsOf(q, id)
  }

  /** A refused datagram or a fruitless receive changes no queue. */
  lemma DatagramFailure(p: Plane, id: nat, context: nat, data: bytes, expired: bool, conn: bytes, max: nat, wait: bool)
    ensures var r := PushDatagram(p, id, context, data, expired);
            r.result.Err? ==> r.plane == p.(datagrams := r.plane.datagrams) && SameDatagrams(p, r.plane)
    ensures var r := ReceiveDatagram(p, id, conn, max, wait);
            r.result.Err? || r.result.value.None? ==>
              r.plane == p.(datagrams := r.plane.datagrams) && SameDatagrams(p, r.plane)
  {
  }

  // ----- owner checks -------------------------------------------------------

  /** The stream a caller addresses by handle, if `op` is such a call. */
  function AddressedStream(op: Op): Option<(bytes, nat, bytes)> {
    match op
    case OpAcceptStream(h, principal, conn) => Some((h, principal, conn))
    case OpRejectStream(h, principal, conn) => Some((h, principal, conn))
    case OpMarkStreamReset(h, principal, conn, code) => Some((h, principal, conn))
    case OpReadStream(h, principal, conn, max, wait) => Some((h, principal, conn))
    case OpCloseStreamSend(h, principal, conn) => Some((h, principal, conn))
    case _ => None
  }

  function AddressedSession(op: Op): Option<(nat, nat, bytes)> {
    match op
    case OpAcceptSession(id, principal, conn) => Some((id, principal, conn))
    case OpRejectSession(id, principal, conn) => Some((id, principal, conn))
    case _ => None
  }

  /** A call on a handle or session that its caller does not own changes nothing. */
  lemma OnlyOwnersAct(p: Plane, op: Op)
    ensures AddressedStream(op).Some? && Step(p, op) != p ==>
              var (h, principal, conn) := AddressedStream(op).value;
              h in p.streams && p.streams[h].principal == principal && p.streams[h].conn == conn
    ensures AddressedSession(op).Some? && Step(p, op) != p ==>
              var (id, principal, conn) := AddressedSession(op).value;
              id in p.sessions && p.sessions[id].principal == principal && p.sessions[id].conn == conn
  {
  }

  // ----- pending sessions are bounded ---------------------------------------

  function PendingBinds(ops: seq<Op>): nat {
    if ops == [] then 0
    else PendingBinds(ops[..|ops| - 1])
         + if ops[|ops| - 1].OpBindSession? && ops[|ops| - 1].pending then 1 else 0
  }

  lemma AddedPending(p: Plane, id: nat, s: Session, app: bytes)
    requires id !in p.sessions
    ensures PendingOf(AddSession(p, id, s).sessions, app)
            == PendingOf(p.sessions, app) + if s.pending && s.app == app then {id} else {}
  {
  }

  /** What one operation may do to the pending sessions of an application. */
  ghost predicate PendingGrowth(before: set<nat>, after: set<nat>, pendingBind: bool) {
    after <= before || (|after| == |before| + 1 && (pendingBind || |before| < MAX_PENDING_SESSIONS))
  }

  /** Only a pending bind or an admitted route adds a pending session. */
  lemma StepPending(p: Plane, op: Op, app: bytes)
    requires ListenersExact(p.listeners)
    ensures PendingGrowth(PendingOf(p.sessions, app), PendingOf(Step(p, op).sessions, app),
                          op.OpBindSession? && op.pending)
  {
    if op.OpBindSession? {
      BindPending(p, op.id, op.conn, op.app, op.principal, op.pending, app);
    } else if op.OpOpenStream? {
      BindPending(p, op.session, op.conn, op.app, op.principal, false, app);
    } else if op.OpRouteIncomingStream? || op.OpRouteStreamData? {
      RoutePending(p, op.session, op.stream, op.protocol, op.data, op.eof, app);
    } else if op.OpRemoveConnection? {
      RemoveConnectionPending(p, op.conn, app);
    } else {
      OtherStepsPending(p, op, app);
    }
  }

  lemma BindPending(p: Plane, id: nat, conn: bytes, a: bytes, principal: nat, pending: bool, app: bytes)
    ensures var after := PendingOf(BindSession(p, id, conn, a, principal, pending).plane.sessions, app);
            after <= PendingOf(p.sessions, app) || (|after| == |PendingOf(p.sessions, app)| + 1 && pending)
  {
    if id !in p.sessions {
      AddedPending(p, id, Session(a, principal, conn, pending), app);
    }
  }

  lemma OtherStepsPending(p: Plane, op: Op, app: bytes)
    requires !op.OpBindSession? && !op.OpOpenStream? && !op.OpRouteIncomingStream? && !op.OpRouteStreamData?
    requires !op.OpRemoveConnection?
    ensures PendingOf(Step(p, op).sessions, app) <= PendingOf(p.sessions, app)
  {
  }

  lemma RemoveConnectionPending(p: Plane, conn: bytes, app: bytes)
    ensures PendingOf(RemoveConnection(p, conn).sessions, app) <= PendingOf(p.sessions, app)
  {
    var rest := RemoveApplications(p, ListenerApps(p.listeners, conn));
    assert PendingOf(rest.sessions, app) <= PendingOf(p.sessions, app);
  }

  lemma {:induction false} FoundListener(ls: seq<Listener>, protocol: bytes)
    requires FindListener(ls, protocol).Some?
    ensures FindListener(ls, protocol).value in ls && FindListener(ls, protocol).value.protocol == protocol
  {
    if ls[0].protocol != protocol {
      FoundListener(ls[1..], protocol);
    }
  }

  lemma RouteSessions(p: Plane, session: nat, stream: nat, protocol: bytes, data: bytes, eof: bool)
    ensures var r := RouteIncomingStream(p, session, stream, protocol, data, eof).plane;
            match FindListener(p.listeners, protocol)
            case None => r.sessions == p.sessions
            case Some(l) => r.sessions == AdmitSession(p, l, session).plane.sessions
  {
  }

  lemma RoutePending(p: Plane, session: nat, stream: nat, protocol: bytes, data: bytes, eof: bool, app: bytes)
    requires ListenersExact(p.listeners)
    ensures var before := PendingOf(p.sessions, app);
            var after := PendingOf(RouteIncomingStream(p, session, stream, protocol, data, eof).plane.sessions, app);
            PendingGrowth(before, after, false)
  {
    RouteSessions(p, session, stream, protocol, data, eof);
    if FindListener(p.listeners, protocol).Some? && session !in p.sessions {
      var l := FindListener(p.listeners, protocol).value;
      FoundListener(p.listeners, protocol);
      AddedPending(p, session, Session(l.app, l.principal, l.conn, true), app);
    }
  }

  /** An application never has more than 256 pending sessions besides those bound as pending. */
  lemma {:induction false} PendingBounded(ops: seq<Op>, app: bytes)
    requires |ops| < U64_MAX
    ensures |PendingOf(Run(EMPTY_PLANE, ops).sessions, app)| <= MAX_PENDING_SESSIONS + PendingBinds(ops)
  {
    if ops != [] {
      var front := ops[..|ops| - 1];
      PendingBounded(front, app);
      ReachableInv(front);
      var before := Run(EMPTY_PLANE, front);
      StepPending(before, ops[|ops| - 1], app);
      if PendingOf(Run(EMPTY_PLANE, ops).sessions, app) <= PendingOf(before.sessions, app) {
        SubsetSize(PendingOf(Run(EMPTY_PLANE, ops).sessions, app), PendingOf(before.sessions, app));
      }
    }
  }
}
