/** Streams deliver exactly the bytes they accepted, in order, until they are reset. */
module PlaneFifo {
  import opened Bytes
  import opened Queues
  import opened DataPlane
  import opened PlaneInvariant
  import opened PlaneRuns

  /** The bytes waiting on a stream. */
  function Content(p: Plane, h: bytes): bytes {
    if h in p.streams then Flatten(p.streams[h].queued) else []
  }

  /** The bytes an operation made the plane accept for stream `h`. */
  function AcceptedBy(p: Plane, op: Op, h: bytes): bytes {
    if op.OpPushStreamData? then
      if op.h == h && PushStreamData(p, op.h, op.data, op.eof).result.Ok? then op.data else []
    else if op.OpRouteIncomingStream? then
      if RouteIncomingStream(p, op.session, op.stream, op.protocol, op.data, op.eof).result == Ok(h)
      then op.data else []
    else if op.OpRouteStreamData? then
      var r := RouteStreamData(p, op.session, op.stream, op.protocol, op.data, op.eof);
      if r.result == Ok(true) && (op.session, op.stream) in r.plane.index && r.plane.index[(op.session, op.stream)] == h
      then op.data else []
    else []
  }

  /** The bytes an operation handed to the reader of stream `h`. */
  function DeliveredBy(p: Plane, op: Op, h: bytes): bytes {
    if op.OpReadStream? then
      var r := ReadStream(p, op.h, op.principal, op.conn, op.max, op.wait);
      if op.h == h && r.result.Ok? && r.result.value.Some? then r.result.value.value.data else []
    else []
  }

  function Accepted(p: Plane, ops: seq<Op>, h: bytes): bytes {
    if ops == [] then []
    else Accepted(p, ops[..|ops| - 1], h) + AcceptedBy(Run(p, ops[..|ops| - 1]), ops[|ops| - 1], h)
  }

  function Delivered(p: Plane, ops: seq<Op>, h: bytes): bytes {
    if ops == [] then []
    else Delivered(p, ops[..|ops| - 1], h) + DeliveredBy(Run(p, ops[..|ops| - 1]), ops[|ops| - 1], h)
  }

  // ----- one step -----------------------------------------------------------

  /** A live stream that has not been reset. */
  predicate Flowing(p: Plane, h: bytes) {
    h in p.streams && p.streams[h].reset.None?
  }

  lemma PushFlow(p: Plane, target: bytes, data: bytes, eof: bool, h: bytes)
    ensures var r := PushStreamData(p, target, data, eof);
            Content(r.plane, h) == Content(p, h) + if target == h && r.result.Ok? then data else []
  {
    if target == h && h in p.streams {
      FlattenPush(p.streams[h].queued, data);
    }
  }

  lemma ReadQueueFlow(s: Stream, max: nat)
    requires s.queued != []
    ensures Flatten(s.queued) == ReadQueue(s, max).1.data + Flatten(ReadQueue(s, max).0.queued)
  {
    var front, rest := s.queued[0], s.queued[1..];
    if |front| > max {
      assert ([front[max..]] + rest)[1..] == rest;
      assert front == front[..max] + front[max..];
    }
  }

  lemma ReadFlow(p: Plane, target: bytes, principal: nat, conn: bytes, max: nat, wait: bool, h: bytes)
    ensures var op := OpReadStream(target, principal, conn, max, wait);
            Content(p, h)
            == DeliveredBy(p, op, h) + Content(ReadStream(p, target, principal, conn, max, wait).plane, h)
  {
    var r := ReadStream(p, target, principal, conn, max, wait);
    if target == h && r.result.Ok? && r.result.value.Some? && p.streams[h].queued != [] {
      ReadQueueFlow(p.streams[h], max);
    }
  }

  lemma AttachFlow(p: Plane, l: Listener, session: nat, stream: nat, protocol: bytes, h: bytes)
    requires HandlesIssued(p.streams, p.nextHandle)
    ensures Content(AttachStream(p, l, session, stream, protocol), h) == Content(p, h)
  {
    NextHandleFresh(p);
  }

  lemma RouteFlow(p: Plane, session: nat, stream: nat, protocol: bytes, data: bytes, eof: bool, h: bytes)
    requires Inv(p)
    ensures var r := RouteIncomingStream(p, session, stream, protocol, data, eof);
            Content(r.plane, h) == Content(p, h) + if r.result == Ok(h) then data else []
  {
    match FindListener(p.listeners, protocol)
    case None =>
    case Some(l) =>
      var admitted := AdmitSession(p, l, session);
      if admitted.result.Ok? && admitted.plane.sessions[session].app == l.app {
        AttachPushFlow(admitted.plane, l, session, stream, protocol, data, eof, h);
      }
  }

  lemma AttachPushFlow(
    p: Plane, l: Listener, session: nat, stream: nat, protocol: bytes, data: bytes, eof: bool, h: bytes)
    requires HandlesIssued(p.streams, p.nextHandle)
    ensures var attached := AttachStream(p, l, session, stream, protocol);
            var target := attached.index[(session, stream)];
            var r := PushStreamData(attached, target, data, eof);
            Content(r.plane, h) == Content(p, h) + if target == h && r.result.Ok? then data else []
  {
    AttachFlow(p, l, session, stream, protocol, h);
    var attached := AttachStream(p, l, session, stream, protocol);
    PushFlow(attached, attached.index[(session, stream)], data, eof, h);
  }

  lemma RouteIndex(p: Plane, session: nat, stream: nat, protocol: bytes, data: bytes, eof: bool)
    ensures var r := RouteIncomingStream(p, session, stream, protocol, data, eof);
            r.result.Ok? ==> (session, stream) in r.plane.index
                             && r.plane.index[(session, stream)] == r.result.value
  {
  }

  lemma RouteDataFlow(p: Plane, session: nat, stream: nat, protocol: bytes, data: bytes, eof: bool, h: bytes)
    requires Inv(p)
    ensures var op := OpRouteStreamData(session, stream, protocol, data, eof);
            Content(p, h) + AcceptedBy(p, op, h)
            == Content(RouteStreamData(p, session, stream, protocol, data, eof).plane, h)
  {
    if (session, stream) in p.index {
      PushFlow(p, p.index[(session, stream)], data, eof, h);
    } else {
      RouteFlow(p, session, stream, protocol, data, eof, h);
      RouteIndex(p, session, stream, protocol, data, eof);
    }
  }

  /** What waited and what was accepted is what was read and what waits. */
  ghost predicate Conserved(before: bytes, accepted: bytes, delivered: bytes, after: bytes) {
    before + accepted == delivered + after
  }

  lemma QuietConserved(before: bytes)
    ensures Conserved(before, [], [], before)
  {
  }

  /** Operations on whole applications, connections and sessions. */
  predicate IsRegistryOp(op: Op) {
    op.OpRegisterListener? || op.OpRemoveListener? || op.OpRemoveApplication? || op.OpRemoveConnection?
    || op.OpRebindApplication? || op.OpRemoveSession?
  }

  /** Operations on one session. */
  predicate IsSessionOp(op: Op) {
    op.OpBindSession? || op.OpAcceptSession? || op.OpRejectSession?
  }

  predicate IsDatagramOp(op: Op) {
    op.OpPushDatagram? || op.OpReceiveDatagram? || op.OpAllocateDatagramId?
  }

  /** The two states of a stream agree on everything a reader can observe. */
  predicate SameFlow(a: Stream, b: Stream) {
    a.queued == b.queued && a.reset == b.reset && a.eof == b.eof && a.queuedBytes == b.queuedBytes
  }

  lemma RegistryFlow(p: Plane, op: Op, h: bytes)
    requires IsRegistryOp(op) && h in Step(p, op).streams
    ensures h in p.streams && SameFlow(p.streams[h], Step(p, op).streams[h])
  {
  }

  lemma SessionFlow(p: Plane, op: Op, h: bytes)
    requires IsSessionOp(op) && h in Step(p, op).streams
    ensures h in p.streams && SameFlow(p.streams[h], Step(p, op).streams[h])
  {
  }

  lemma DatagramFlow(p: Plane, op: Op)
    requires IsDatagramOp(op)
    ensures Step(p, op).streams == p.streams
  {
  }

  lemma StreamFlow(p: Plane, op: Op, h: bytes)
    requires HandlesIssued(p.streams, p.nextHandle)
    requires op.OpOpenStream? || op.OpAcceptStream? || op.OpRejectStream? || op.OpMarkStreamReset?
             || op.OpMarkStreamResetForSession? || op.OpCloseStreamSend?
    requires Flowing(Step(p, op), h)
    ensures Content(Step(p, op), h) == Content(p, h)
  {
    NextHandleFresh(p);
  }

  lemma QuietFlow(p: Plane, op: Op, h: bytes)
    requires Inv(p)
    requires !op.OpPushStreamData? && !op.OpRouteIncomingStream? && !op.OpRouteStreamData? && !op.OpReadStream?
    requires Flowing(Step(p, op), h)
    ensures Content(Step(p, op), h) == Content(p, h)
  {
    if IsRegistryOp(op) {
      RegistryFlow(p, op, h);
    } else if IsSessionOp(op) {
      SessionFlow(p, op, h);
    } else if IsDatagramOp(op) {
      DatagramFlow(p, op);
    } else {
      StreamFlow(p, op, h);
    }
  }

  /** Conservation at one step. */
  lemma StepFlow(p: Plane, op: Op, h: bytes)
    requires Inv(p) && Flowing(Step(p, op), h)
    ensures StepConserved(p, op, h)
  {
    if op.OpPushStreamData? {
      PushStep(p, op, h);
    } else if op.OpRouteIncomingStream? {
      RouteStep(p, op.session, op.stream, op.protocol, op.data, op.eof, h);
    } else if op.OpRouteStreamData? {
      RouteDataStep(p, op.session, op.stream, op.protocol, op.data, op.eof, h);
    } else if op.OpReadStream? {
      ReadStep(p, op, h);
    } else {
      QuietStep(p, op, h);
    }
  }

  ghost predicate StepConserved(p: Plane, op: Op, h: bytes) {
    Conserved(Content(p, h), AcceptedBy(p, op, h), DeliveredBy(p, op, h), Content(Step(p, op), h))
  }

  lemma PushStep(p: Plane, op: Op, h: bytes)
    requires op.OpPushStreamData?
    ensures StepConserved(p, op, h)
  {
    PushFlow(p, op.h, op.data, op.eof, h);
  }

  lemma ReadStep(p: Plane, op: Op, h: bytes)
    requires op.OpReadStream?
    ensures StepConserved(p, op, h)
  {
    ReadFlow(p, op.h, op.principal, op.conn, op.max, op.wait, h);
  }

  lemma QuietStep(p: Plane, op: Op, h: bytes)
    requires Inv(p) && Flowing(Step(p, op), h)
    requires !op.OpPushStreamData? && !op.OpRouteIncomingStream? && !op.OpRouteStreamData? && !op.OpReadStream?
    ensures StepConserved(p, op, h)
  {
    QuietFlow(p, op, h);
    QuietConserved(Content(p, h));
  }

  lemma ArrivalConserved(before: bytes, accepted: bytes, after: bytes)
    requires after == before + accepted
    ensures Conserved(before, accepted, [], after)
  {
  }

  lemma RouteStep(p: Plane, session: nat, stream: nat, protocol: bytes, data: bytes, eof: bool, h: bytes)
    requires Inv(p)
    ensures StepConserved(p, OpRouteIncomingStream(session, stream, protocol, data, eof), h)
  {
    var op := OpRouteIncomingStream(session, stream, protocol, data, eof);
    RouteFlow(p, session, stream, protocol, data, eof, h);
    ArrivalConserved(Content(p, h), AcceptedBy(p, op, h), Content(Step(p, op), h));
  }

  lemma RouteDataStep(p: Plane, session: nat, stream: nat, protocol: bytes, data: bytes, eof: bool, h: bytes)
    requires Inv(p)
    ensures StepConserved(p, OpRouteStreamData(session, stream, protocol, data, eof), h)
  {
    var op := OpRouteStreamData(session, stream, protocol, data, eof);
    RouteDataFlow(p, session, stream, protocol, data, eof, h);
    ArrivalConserved(Content(p, h), AcceptedBy(p, op, h), Content(Step(p, op), h));
  }

  // ----- a stream lives once ------------------------------------------------

  lemma RouteKeys(p: Plane, session: nat, stream: nat, protocol: bytes, data: bytes, eof: bool)
    ensures var r := RouteIncomingStream(p, session, stream, protocol, data, eof).plane;
            r.streams.Keys == p.streams.Keys || r.streams.Keys == p.streams.Keys + {HandleOf(p.nextHandle)}
  {
  }

  /** A handle that was issued and has gone does not come back. */
  lemma HandleNotReused(p: Plane, op: Op, h: bytes)
    requires p.nextHandle <= U64_MAX && Issued(h, p.nextHandle) && h in Step(p, op).streams
    ensures h in p.streams
  {
    NewHandleOnly(p, op, h);
    HandleOfCounter(p.nextHandle);
  }

  /** Nor does it over any run. */
  lemma {:induction false} GoneForGood(p: Plane, ops: seq<Op>, h: bytes)
    requires p.nextHandle + |ops| <= U64_MAX && Issued(h, p.nextHandle) && h !in p.streams
    ensures h !in Run(p, ops).streams
  {
    if ops != [] {
      var before := Run(p, ops[..|ops| - 1]);
      GoneForGood(p, ops[..|ops| - 1], h);
      RunCounter(p, ops[..|ops| - 1]);
      if h in Run(p, ops).streams {
        HandleNotReused(before, ops[|ops| - 1], h);
      }
    }
  }

  /** Only the next handle can be new. */
  lemma NewHandleOnly(p: Plane, op: Op, h: bytes)
    requires h in Step(p, op).streams
    ensures h in p.streams || h == HandleOf(p.nextHandle)
  {
    if op.OpRouteIncomingStream? || op.OpRouteStreamData? {
      RouteOpKeys(p, op, h);
    } else if IsRegistryOp(op) {
      RegistryFlow(p, op, h);
    } else if IsSessionOp(op) {
      SessionFlow(p, op, h);
    } else if IsDatagramOp(op) {
      DatagramFlow(p, op);
    } else {
      StreamOpKeys(p, op, h);
    }
  }

  lemma RouteOpKeys(p: Plane, op: Op, h: bytes)
    requires (op.OpRouteIncomingStream? || op.OpRouteStreamData?) && h in Step(p, op).streams
    ensures h in p.streams || h == HandleOf(p.nextHandle)
  {
    if op.OpRouteIncomingStream? {
      RouteKeys(p, op.session, op.stream, op.protocol, op.data, op.eof);
    } else {
      RouteDataKeys(p, op.session, op.stream, op.protocol, op.data, op.eof);
    }
  }

  lemma RouteDataKeys(p: Plane, session: nat, stream: nat, protocol: bytes, data: bytes, eof: bool)
    ensures var r := RouteStreamData(p, session, stream, protocol, data, eof).plane;
            r.streams.Keys == p.streams.Keys || r.streams.Keys == p.streams.Keys + {HandleOf(p.nextHandle)}
  {
    if (session, stream) in p.index {
      PushKeys(p, p.index[(session, stream)], data, eof);
    } else {
      RouteKeys(p, session, stream, protocol, data, eof);
    }
  }

  lemma PushKeys(p: Plane, target: bytes, data: bytes, eof: bool)
    ensures PushStreamData(p, target, data, eof).plane.streams.Keys == p.streams.Keys
  {
  }

  lemma StreamOpKeys(p: Plane, op: Op, h: bytes)
    requires !op.OpRouteIncomingStream? && !op.OpRouteStreamData?
    requires !IsRegistryOp(op) && !IsSessionOp(op) && !IsDatagramOp(op)
    requires h in Step(p, op).streams
    ensures h in p.streams || h == HandleOf(p.nextHandle)
  {
  }

  lemma RouteKeepsReset(p: Plane, session: nat, stream: nat, protocol: bytes, data: bytes, eof: bool, h: bytes)
    requires HandlesIssued(p.streams, p.nextHandle) && h in p.streams
    ensures var r := RouteIncomingStream(p, session, stream, protocol, data, eof).plane;
            h in r.streams && r.streams[h].reset == p.streams[h].reset
  {
    NextHandleFresh(p);
  }

  lemma RouteDataKeepsReset(p: Plane, session: nat, stream: nat, protocol: bytes, data: bytes, eof: bool, h: bytes)
    requires HandlesIssued(p.streams, p.nextHandle) && h in p.streams
    ensures var r := RouteStreamData(p, session, stream, protocol, data, eof).plane;
            h in r.streams && r.streams[h].reset == p.streams[h].reset
  {
    RouteKeepsReset(p, session, stream, protocol, data, eof, h);
  }

  /** Nothing takes a reset back. */
  lemma ResetPermanent(p: Plane, op: Op, h: bytes)
    requires HandlesIssued(p.streams, p.nextHandle) && h in p.streams && p.streams[h].reset.Some?
    requires h in Step(p, op).streams
    ensures Step(p, op).streams[h].reset.Some?
  {
    if op.OpRouteIncomingStream? {
      RouteKeepsReset(p, op.session, op.stream, op.protocol, op.data, op.eof, h);
    } else if op.OpRouteStreamData? {
      RouteDataKeepsReset(p, op.session, op.stream, op.protocol, op.data, op.eof, h);
    } else if IsRegistryOp(op) {
      RegistryFlow(p, op, h);
    } else if IsSessionOp(op) {
      SessionFlow(p, op, h);
    } else if IsDatagramOp(op) {
      DatagramFlow(p, op);
    } else {
      StreamOpKeepsReset(p, op, h);
    }
  }

  lemma StreamOpKeepsReset(p: Plane, op: Op, h: bytes)
    requires HandlesIssued(p.streams, p.nextHandle) && h in p.streams && p.streams[h].reset.Some?
    requires !op.OpRouteIncomingStream? && !op.OpRouteStreamData?
    requires !IsRegistryOp(op) && !IsSessionOp(op) && !IsDatagramOp(op)
    requires h in Step(p, op).streams
    ensures Step(p, op).streams[h].reset.Some?
  {
    NextHandleFresh(p);
  }

  /** Accepted bytes go to a stream that is there afterwards, delivered bytes come from one that was. */
  lemma BytesNeedStream(p: Plane, op: Op, h: bytes)
    requires HandlesIssued(p.streams, p.nextHandle)
    ensures AcceptedBy(p, op, h) != [] ==> h in Step(p, op).streams
    ensures DeliveredBy(p, op, h) != [] ==> h in p.streams
  {
    if op.OpRouteIncomingStream? || op.OpRouteStreamData? {
      RouteIndex(p, op.session, op.stream, op.protocol, op.data, op.eof);
      RouteLands(p, op.session, op.stream, op.protocol, op.data, op.eof);
    }
  }

  lemma RouteLands(p: Plane, session: nat, stream: nat, protocol: bytes, data: bytes, eof: bool)
    ensures var r := RouteIncomingStream(p, session, stream, protocol, data, eof);
            r.result.Ok? ==> r.result.value in r.plane.streams
  {
  }

  /** Before its handle is issued nothing is accepted for or read from a stream. */
  lemma {:induction false} NothingBeforeIssue(p: Plane, ops: seq<Op>, h: bytes)
    requires Inv(p) && p.nextHandle + |ops| <= U64_MAX
    requires !Issued(h, Run(p, ops).nextHandle)
    ensures Accepted(p, ops, h) == [] && Delivered(p, ops, h) == [] && Content(p, h) == []
  {
    if ops == [] {
      assert h !in p.streams;
    } else {
      var front := ops[..|ops| - 1];
      StepCounter(Run(p, front), ops[|ops| - 1]);
      NothingBeforeIssue(p, front, h);
      RunKeepsInv(p, front);
      RunKeepsInv(p, ops);
      BytesNeedStream(Run(p, front), ops[|ops| - 1], h);
    }
  }

  // ----- whole runs ---------------------------------------------------------

  /**
   For every sequence of operations, and every stream that is there at the end
   and was never reset: the bytes that waited at the start followed by the bytes
   accepted are the bytes read followed by the bytes that still wait.
   */
  lemma {:induction false} BytesConserved(p: Plane, ops: seq<Op>, h: bytes)
    requires Inv(p) && p.nextHandle + |ops| <= U64_MAX && Flowing(Run(p, ops), h)
    ensures Conserved(Content(p, h), Accepted(p, ops, h), Delivered(p, ops, h), Content(Run(p, ops), h))
    decreases |ops|, 1
  {
    if ops != [] {
      var front, last := ops[..|ops| - 1], ops[|ops| - 1];
      var q := Run(p, front);
      BytesConservedBefore(p, front, last, h);
      RunKeepsInv(p, front);
      StepFlow(q, last, h);
      ConservedCompose(Content(p, h), Accepted(p, front, h), Delivered(p, front, h), Content(q, h),
                       AcceptedBy(q, last, h), DeliveredBy(q, last, h), Content(Step(q, last), h));
    }
  }

  /** Before the last step the stream flows already, or nothing has happened on it. */
  lemma {:induction false} BytesConservedBefore(p: Plane, ops: seq<Op>, last: Op, h: bytes)
    requires Inv(p) && p.nextHandle + |ops| < U64_MAX && Flowing(Step(Run(p, ops), last), h)
    ensures Conserved(Content(p, h), Accepted(p, ops, h), Delivered(p, ops, h), Content(Run(p, ops), h))
    decreases |ops|, 2
  {
    var q := Run(p, ops);
    RunKeepsInv(p, ops);
    if h !in q.streams {
      if Issued(h, q.nextHandle) { HandleNotReused(q, last, h); }
      NothingBeforeIssue(p, ops, h);
    } else {
      if q.streams[h].reset.Some? { ResetPermanent(q, last, h); }
      BytesConserved(p, ops, h);
    }
  }

  lemma ConservedCompose(
    before: bytes, accepted: bytes, delivered: bytes, middle: bytes, accepted': bytes, delivered': bytes, after: bytes)
    requires Conserved(before, accepted, delivered, middle)
    requires Conserved(middle, accepted', delivered', after)
    ensures Conserved(before, accepted + accepted', delivered + delivered', after)
  {
    assert before + (accepted + accepted') == (before + accepted) + accepted';
    assert (delivered + middle) + accepted' == delivered + (middle + accepted');
    assert delivered + (delivered' + after) == (delivered + delivered') + after;
  }

  /** A stream started during the run: it was handed exactly a prefix of what it accepted. */
  lemma FifoFromEmpty(ops: seq<Op>, h: bytes)
    requires |ops| < U64_MAX && Flowing(Run(EMPTY_PLANE, ops), h)
    ensures Accepted(EMPTY_PLANE, ops, h) == Delivered(EMPTY_PLANE, ops, h) + Content(Run(EMPTY_PLANE, ops), h)
    ensures Run(EMPTY_PLANE, ops).streams[h].queuedBytes
            == |Accepted(EMPTY_PLANE, ops, h)| - |Delivered(EMPTY_PLANE, ops, h)|
            <= MAX_STREAM_BUFFER_BYTES
  {
    EmptyInv();
    BytesConserved(EMPTY_PLANE, ops, h);
    StreamExact(ops, h);
    FifoSummary(Run(EMPTY_PLANE, ops).streams[h], Accepted(EMPTY_PLANE, ops, h), Delivered(EMPTY_PLANE, ops, h));
  }

  lemma StreamExact(ops: seq<Op>, h: bytes)
    requires |ops| < U64_MAX && h in Run(EMPTY_PLANE, ops).streams
    ensures QueueExact(Run(EMPTY_PLANE, ops).streams[h])
  {
    ReachableInv(ops);
  }

  lemma FifoSummary(s: Stream, accepted: bytes, delivered: bytes)
    requires QueueExact(s) && Conserved([], accepted, delivered, Flatten(s.queued))
    ensures accepted == delivered + Flatten(s.queued)
    ensures s.queuedBytes == |accepted| - |delivered| <= MAX_STREAM_BUFFER_BYTES
  {
    assert [] + accepted == accepted;
  }

  // ----- end of stream ------------------------------------------------------

  /** The read reports the end of the stream. */
  predicate ReportsEnd(p: Plane, h: bytes, principal: nat, conn: bytes, max: nat, wait: bool) {
    var r := ReadStream(p, h, principal, conn, max, wait).result;
    r.Ok? && r.value.Some? && r.value.value.eof
  }

  /**
   A read that reports the end of the stream: everything accepted has been
   delivered exactly when the read did not have to split a chunk. After a split
   the tail still waits although the reader has been told the stream is over.
   */
  lemma EofExact(p: Plane, h: bytes, principal: nat, conn: bytes, max: nat, wait: bool)
    requires Inv(p) && ReportsEnd(p, h, principal, conn, max, wait)
    ensures Flowing(p, h) && p.streams[h].eof
    ensures Content(ReadStream(p, h, principal, conn, max, wait).plane, h) == []
            <==> (p.streams[h].queued == [] || |p.streams[h].queued[0]| <= max)
  {
  }

  lemma ReadEndFlowing(p: Plane, h: bytes, principal: nat, conn: bytes, max: nat, wait: bool)
    requires ReportsEnd(p, h, principal, conn, max, wait)
    ensures Flowing(ReadStream(p, h, principal, conn, max, wait).plane, h)
  {
  }

  lemma AllDelivered(ops: seq<Op>, h: bytes)
    requires |ops| < U64_MAX && Flowing(Run(EMPTY_PLANE, ops), h)
    ensures Delivered(EMPTY_PLANE, ops, h) == Accepted(EMPTY_PLANE, ops, h)
            <==> Content(Run(EMPTY_PLANE, ops), h) == []
  {
    FifoFromEmpty(ops, h);
  }

  lemma RunRead(ops: seq<Op>, h: bytes, principal: nat, conn: bytes, max: nat, wait: bool)
    ensures Run(EMPTY_PLANE, ops + [OpReadStream(h, principal, conn, max, wait)])
            == ReadStream(Run(EMPTY_PLANE, ops), h, principal, conn, max, wait).plane
  {
    var whole := ops + [OpReadStream(h, principal, conn, max, wait)];
    assert whole[..|whole| - 1] == ops;
  }

  /** The end of the stream as a reader sees it over a whole run. */
  lemma EofMeansDelivered(ops: seq<Op>, h: bytes, principal: nat, conn: bytes, max: nat, wait: bool)
    requires |ops| + 1 < U64_MAX && ReportsEnd(Run(EMPTY_PLANE, ops), h, principal, conn, max, wait)
    ensures Flowing(Run(EMPTY_PLANE, ops), h)
    ensures var queued := Run(EMPTY_PLANE, ops).streams[h].queued;
            var whole := ops + [OpReadStream(h, principal, conn, max, wait)];
            Delivered(EMPTY_PLANE, whole, h) == Accepted(EMPTY_PLANE, whole, h)
            <==> (queued == [] || |queued[0]| <= max)
  {
    ReachableInv(ops);
    EofExact(Run(EMPTY_PLANE, ops), h, principal, conn, max, wait);
    ReadEndFlowing(Run(EMPTY_PLANE, ops), h, principal, conn, max, wait);
    RunRead(ops, h, principal, conn, max, wait);
    AllDelivered(ops + [OpReadStream(h, principal, conn, max, wait)], h);
  }

  /** One stream is opened, and its two bytes arrive with the end. */
  function EarlyEnd(): seq<Op> {
    [OpOpenStream(7, [], [], 11, 3, []), OpPushStreamData(HandleOf(1), [1, 2], true)]
  }

  lemma EarlyEndStream()
    ensures var h := HandleOf(1);
            var p := Run(EMPTY_PLANE, EarlyEnd());
            h in p.streams
            && p.streams[h]
               == FreshStream(11, 3, [], 7, [], [], false).(eof := true, queuedBytes := 2, queued := [[1, 2]])
  {
    var first := OpOpenStream(7, [], [], 11, 3, []);
    assert EarlyEnd()[..1] == [first] && [first][..0] == [];
    assert Run(EMPTY_PLANE, []) == EMPTY_PLANE;
    assert Run(EMPTY_PLANE, [first]) == OpenStream(EMPTY_PLANE, 7, [], [], 11, 3, []).plane;
    assert [] + [[1, 2]] == [[1, 2]];
  }

  /** Read one byte at a time, the stream is reported over with a byte still waiting. */
  lemma EofTooEarly()
    ensures var h := HandleOf(1);
            var r := ReadStream(Run(EMPTY_PLANE, EarlyEnd()), h, 7, [], 1, false);
            r.result == Ok(Some(StreamRead([1], true, false, 0))) && Content(r.plane, h) == [2]
  {
    EarlyEndStream();
    var s := Run(EMPTY_PLANE, EarlyEnd()).streams[HandleOf(1)];
    var (s', read) := ReadQueue(s, 1);
    assert s'.queued == [[2]] && read == StreamRead([1], true, false, 0);
    assert Flatten([[2]]) == [2] + Flatten([]);
  }

  /** Every read by the owner of an accepted, reset stream reports the reset and no data. */
  lemma {:induction false} ResetForever(
    p: Plane, ops: seq<Op>, h: bytes, principal: nat, conn: bytes, max: nat, wait: bool)
    requires Inv(p) && p.nextHandle + |ops| <= U64_MAX
    requires h in p.streams && p.streams[h].reset.Some?
    requires h in Run(p, ops).streams
    ensures Run(p, ops).streams[h].reset.Some?
    ensures var q := Run(p, ops);
            StreamDenied(q, h, principal, conn).None? && !q.streams[h].pending ==>
              ReadStream(q, h, principal, conn, max, wait).result
              == Ok(Some(StreamRead([], false, true, q.streams[h].reset.value)))
  {
    if ops != [] {
      var front, last := ops[..|ops| - 1], ops[|ops| - 1];
      RunKeepsInv(p, front);
      RunCounter(p, front);
      HandleNotReused(Run(p, front), last, h);
      ResetForever(p, front, h, principal, conn, max, wait);
      ResetPermanent(Run(p, front), last, h);
    }
  }
}
