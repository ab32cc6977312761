/** Datagrams are received in the order in which they were accepted, each as it was, until their session goes. */
module PlaneDatagrams {
  import opened Bytes
  import opened DataPlane
  import opened PlaneInvariant
  import opened PlaneRuns

  /** The datagrams waiting for a session. */
  function Waiting(p: Plane, id: nat): seq<Datagram> {
    DatagramsOf(p, id).entries
  }

  /** The datagram an operation made the plane accept for session `id`. */
  function AcceptedBy(p: Plane, op: Op, id: nat): seq<Datagram> {
    if op.OpPushDatagram? && op.id == id && PushDatagram(p, op.id, op.context, op.data, op.expired).result.Ok?
    then [Datagram(op.context, op.data, op.expired)] else []
  }

  /** The datagram an operation handed to the receiver of session `id`. */
  function ReceivedBy(p: Plane, op: Op, id: nat): seq<Datagram> {
    if op.OpReceiveDatagram? then
      var r := ReceiveDatagram(p, op.id, op.conn, op.max, op.wait).result;
      if op.id == id && r.Ok? && r.value.Some? then [r.value.value] else []
    else []
  }

  predicate Listens(p: Plane, app: bytes, conn: bytes) {
    exists i :: 0 <= i < |p.listeners| && p.listeners[i].app == app && p.listeners[i].conn == conn
  }

  /** The operation takes session `id` away with everything that waits for it. */
  predicate Clears(p: Plane, op: Op, id: nat) {
    (op.OpRemoveSession? && op.id == id)
    || (id in p.sessions
        && ((op.OpRejectSession? && op.id == id && p.sessions[id].principal == op.principal
             && p.sessions[id].conn == op.conn)
            || (op.OpRemoveApplication? && op.app == p.sessions[id].app)
            || (op.OpRemoveConnection?
                && (p.sessions[id].conn == op.conn || Listens(p, p.sessions[id].app, op.conn)))))
  }

  // ----- one step -----------------------------------------------------------

  lemma ListenerAppsExactly(p: Plane, app: bytes, conn: bytes)
    ensures app in ListenerApps(p.listeners, conn) <==> Listens(p, app, conn)
  {
  }

  lemma RemoveConnectionClears(p: Plane, conn: bytes, id: nat)
    ensures var gone := id in p.sessions && (p.sessions[id].conn == conn || Listens(p, p.sessions[id].app, conn));
            var q := RemoveConnection(p, conn);
            (gone ==> id !in q.sessions && Waiting(q, id) == [])
            && (!gone ==> (id in q.sessions <==> id in p.sessions) && Waiting(q, id) == Waiting(p, id))
  {
    if id in p.sessions {
      ListenerAppsExactly(p, p.sessions[id].app, conn);
    }
  }

  /** What waited and was accepted is what was received and waits. */
  ghost predicate Moved(before: seq<Datagram>, accepted: seq<Datagram>, received: seq<Datagram>, after: seq<Datagram>) {
    before + accepted == received + after
  }

  lemma NothingMoved(waiting: seq<Datagram>)
    ensures Moved(waiting, [], [], waiting)
  {
  }

  /** Only a push adds, only a receive takes, and what clears the session leaves nothing. */
  lemma StepWaiting(p: Plane, op: Op, id: nat)
    ensures if Clears(p, op, id) then Waiting(Step(p, op), id) == [] && id !in Step(p, op).sessions
            else Moved(Waiting(p, id), AcceptedBy(p, op, id), ReceivedBy(p, op, id), Waiting(Step(p, op), id))
  {
    NothingMoved(Waiting(p, id));
    if op.OpRemoveConnection? {
      RemoveConnectionClears(p, op.conn, id);
    } else if op.OpPushDatagram? {
      PushWaits(p, op.id, op.context, op.data, op.expired, id);
    } else if op.OpReceiveDatagram? {
      ReceiveWaits(p, op.id, op.conn, op.max, op.wait, id);
    } else if op.OpRouteIncomingStream? || op.OpRouteStreamData? {
      RouteWaits(p, op.session, op.stream, op.protocol, op.data, op.eof);
    } else if op.OpRemoveSession? || op.OpRejectSession? || op.OpRemoveApplication? {
      SessionStepWaits(p, op, id);
    } else {
      QuietStepWaits(p, op);
    }
  }

  lemma RouteWaits(p: Plane, session: nat, stream: nat, protocol: bytes, data: bytes, eof: bool)
    ensures RouteIncomingStream(p, session, stream, protocol, data, eof).plane.datagrams == p.datagrams
    ensures RouteStreamData(p, session, stream, protocol, data, eof).plane.datagrams == p.datagrams
  {
  }

  lemma PushWaits(p: Plane, target: nat, context: nat, data: bytes, expired: bool, id: nat)
    ensures var op := OpPushDatagram(target, context, data, expired);
            Moved(Waiting(p, id), AcceptedBy(p, op, id), [],
                  Waiting(PushDatagram(p, target, context, data, expired).plane, id))
  {
    var added := Waiting(p, id) + [Datagram(context, data, expired)];
    assert [] + added == added;
    NothingMoved(Waiting(p, id));
  }

  lemma ReceiveWaits(p: Plane, target: nat, conn: bytes, max: nat, wait: bool, id: nat)
    ensures var op := OpReceiveDatagram(target, conn, max, wait);
            Moved(Waiting(p, id), [], ReceivedBy(p, op, id),
                  Waiting(ReceiveDatagram(p, target, conn, max, wait).plane, id))
  {
    var waiting := Waiting(p, id);
    if ReceivedBy(p, OpReceiveDatagram(target, conn, max, wait), id) != [] {
      assert waiting + [] == [waiting[0]] + waiting[1..];
    }
    NothingMoved(waiting);
  }

  lemma SessionStepWaits(p: Plane, op: Op, id: nat)
    requires op.OpRemoveSession? || op.OpRejectSession? || op.OpRemoveApplication?
    ensures if Clears(p, op, id) then Waiting(Step(p, op), id) == [] && id !in Step(p, op).sessions
            else Waiting(Step(p, op), id) == Waiting(p, id)
  {
  }

  lemma QuietStepWaits(p: Plane, op: Op)
    requires !op.OpRemoveConnection? && !op.OpPushDatagram? && !op.OpReceiveDatagram?
    requires !op.OpRouteIncomingStream? && !op.OpRouteStreamData?
    requires !op.OpRemoveSession? && !op.OpRejectSession? && !op.OpRemoveApplication?
    ensures Step(p, op).datagrams == p.datagrams
  {
  }

  // ----- whole runs ---------------------------------------------------------

  /** What waited at the start and was accepted since, if the session was not cleared in between. */
  function Accepted(p: Plane, ops: seq<Op>, id: nat): seq<Datagram> {
    if ops == [] then Waiting(p, id) else
    var front, last := ops[..|ops| - 1], ops[|ops| - 1];
    if Clears(Run(p, front), last, id) then [] else Accepted(p, front, id) + AcceptedBy(Run(p, front), last, id)
  }

  function Received(p: Plane, ops: seq<Op>, id: nat): seq<Datagram> {
    if ops == [] then [] else
    var front, last := ops[..|ops| - 1], ops[|ops| - 1];
    if Clears(Run(p, front), last, id) then [] else Received(p, front, id) + ReceivedBy(Run(p, front), last, id)
  }

  /**
   For every run and every session: the datagrams accepted since the session was last cleared are those received
   followed by those that wait, with context, octets and expiry flag.
   */
  lemma {:induction false} DatagramsConserved(p: Plane, ops: seq<Op>, id: nat)
    ensures Accepted(p, ops, id) == Received(p, ops, id) + Waiting(Run(p, ops), id)
  {
    if ops == [] {
      assert [] + Waiting(p, id) == Waiting(p, id);
    } else {
      var front, last := ops[..|ops| - 1], ops[|ops| - 1];
      var q := Run(p, front);
      DatagramsConserved(p, front, id);
      StepWaiting(q, last, id);
      Compose(Accepted(p, front, id), Received(p, front, id), Waiting(q, id),
              AcceptedBy(q, last, id), ReceivedBy(q, last, id), Waiting(Step(q, last), id));
      assert Clears(q, last, id) ==> [] + Waiting(Run(p, ops), id) == [];
    }
  }

  lemma Compose(
    accepted: seq<Datagram>, received: seq<Datagram>, before: seq<Datagram>,
    more: seq<Datagram>, taken: seq<Datagram>, after: seq<Datagram>)
    requires accepted == received + before
    ensures Moved(before, more, taken, after) ==> accepted + more == (received + taken) + after
  {
    if Moved(before, more, taken, after) {
      assert accepted + more == received + (before + more);
      assert received + (taken + after) == (received + taken) + after;
    }
  }

  /** A session that was never cleared: receivers got exactly a prefix of what was accepted, within the bounds. */
  lemma DatagramsFromEmpty(ops: seq<Op>, id: nat)
    requires |ops| < U64_MAX
    ensures Received(EMPTY_PLANE, ops, id) <= Accepted(EMPTY_PLANE, ops, id)
    ensures |Accepted(EMPTY_PLANE, ops, id)| - |Received(EMPTY_PLANE, ops, id)| <= 256
    ensures DatagramTotal(Waiting(Run(EMPTY_PLANE, ops), id)) <= 2_097_152
  {
    DatagramsConserved(EMPTY_PLANE, ops, id);
    ReachableInv(ops);
    QueueBounds(Run(EMPTY_PLANE, ops), id);
  }

  lemma QueueBounds(p: Plane, id: nat)
    requires DatagramsExact(p.datagrams)
    ensures |Waiting(p, id)| <= 256 && DatagramTotal(Waiting(p, id)) <= 2_097_152
    ensures DatagramsOf(p, id).bytes == DatagramTotal(Waiting(p, id))
  {
  }

  // ----- answers ------------------------------------------------------------

  /** A datagram is accepted exactly while fewer than 256 wait and the octets fit 2 MiB. */
  lemma PushAnswered(p: Plane, id: nat, context: nat, data: bytes, expired: bool)
    requires DatagramsExact(p.datagrams)
    ensures PushDatagram(p, id, context, data, expired).result
            == if |Waiting(p, id)| < 256 && DatagramTotal(Waiting(p, id)) + |data| <= 2_097_152 then Ok(())
               else Err(QueueFull)
  {
    QueueBounds(p, id);
  }

  /** The session's own connection gets the first datagram that waits, if it fits; others are refused. */
  lemma ReceiveAnswered(p: Plane, id: nat, conn: bytes, max: nat, wait: bool)
    ensures ReceiveDatagram(p, id, conn, max, wait).result
            == if id !in p.sessions then Err(NotFound)
               else if p.sessions[id].conn != conn then Err(PermissionDenied)
               else if max == 0 then Err(InvalidArgument)
               else if Waiting(p, id) == [] then (if wait then Err(WouldBlock) else Ok(None))
               else if |Waiting(p, id)[0].data| > max then Err(InvalidArgument)
               else Ok(Some(Waiting(p, id)[0]))
  {
  }

  // ----- datagram numbers ---------------------------------------------------

  lemma RoutesKeepNumbers(p: Plane, op: Op)
    requires op.OpRouteIncomingStream? || op.OpRouteStreamData?
    ensures Step(p, op).nextDatagram == p.nextDatagram
  {
  }

  lemma StepNumbers(p: Plane, op: Op)
    ensures Step(p, op).nextDatagram
            == if op.OpAllocateDatagramId? && p.nextDatagram < U64_MAX then p.nextDatagram + 1 else p.nextDatagram
  {
    if op.OpRouteIncomingStream? || op.OpRouteStreamData? {
      RoutesKeepNumbers(p, op);
    }
  }

  /** The numbers handed out over a run, in order. */
  function Numbers(p: Plane, ops: seq<Op>): seq<nat> {
    if ops == [] then [] else
    var front, op := ops[..|ops| - 1], ops[|ops| - 1];
    Numbers(p, front) + if op.OpAllocateDatagramId? then [AllocateDatagramId(Run(p, front)).1] else []
  }

  /** Over every run of a new plane the datagram numbers are 1, 2, 3 and so on, each given once. */
  lemma {:induction false} NumbersExactly(ops: seq<Op>)
    requires |ops| < U64_MAX
    ensures forall i :: 0 <= i < |Numbers(EMPTY_PLANE, ops)| ==> Numbers(EMPTY_PLANE, ops)[i] == i + 1
    ensures |Numbers(EMPTY_PLANE, ops)| <= |ops|
    ensures Run(EMPTY_PLANE, ops).nextDatagram == |Numbers(EMPTY_PLANE, ops)| + 1
  {
    if ops != [] {
      NumbersExactly(ops[..|ops| - 1]);
      StepNumbers(Run(EMPTY_PLANE, ops[..|ops| - 1]), ops[|ops| - 1]);
    }
  }
}
