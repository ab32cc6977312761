/**
 The story of a stream: every field of its record, over any sequence of operations, told from what the operations were
 and what they answered. A stream is made by opening or routing, is told of its end, of resets, of the closing of its
 sending side, of its acceptance and of moves to other connections, and goes by rejection or removal.
 */
module PlaneStreams {
  import opened Bytes
  import opened DataPlane
  import opened PlaneInvariant
  import opened PlaneRuns
  import opened PlaneFifo
  import opened PlaneDatagrams

  /** What an operation tells a stream. */
  datatype Facts = Facts(ended: bool, closed: bool, taken: bool, reset: Option<nat>, moved: Option<bytes>)

  const NO_FACTS := Facts(false, false, false, None, None)

  /** First `a` is told, then `b`. */
  function Both(a: Facts, b: Facts): Facts {
    Facts(a.ended || b.ended, a.closed || b.closed, a.taken || b.taken,
          if b.reset.Some? then b.reset else a.reset, if b.moved.Some? then b.moved else a.moved)
  }

  /** The record `s'` is `s` after it was told `f`; the chunks that wait are another story. */
  predicate Told(s: Stream, f: Facts, s': Stream) {
    s' == s.(eof := s.eof || f.ended, sendClosed := s.sendClosed || f.closed, pending := s.pending && !f.taken,
             reset := if f.reset.Some? then f.reset else s.reset,
             conn := if f.moved.Some? then f.moved.value else s.conn,
             queued := s'.queued, queuedBytes := s'.queuedBytes)
  }

  /** What `op` tells stream `h`: only what was answered with success counts. */
  function FactsOf(p: Plane, op: Op, h: bytes): Facts {
    if op.OpPushStreamData? then
      NO_FACTS.(ended := op.h == h && op.eof && PushStreamData(p, op.h, op.data, op.eof).result.Ok?)
    else if op.OpRouteIncomingStream? then
      NO_FACTS.(ended := op.eof
                         && RouteIncomingStream(p, op.session, op.stream, op.protocol, op.data, op.eof).result == Ok(h))
    else if op.OpRouteStreamData? then
      var r := RouteStreamData(p, op.session, op.stream, op.protocol, op.data, op.eof);
      NO_FACTS.(ended := op.eof && r.result == Ok(true) && HasPair(r.plane, h, op.session, op.stream))
    else if op.OpCloseStreamSend? then
      NO_FACTS.(closed := op.h == h && CloseStreamSend(p, op.h, op.principal, op.conn).result.Ok?)
    else if op.OpAcceptStream? then
      NO_FACTS.(taken := op.h == h && AcceptStream(p, op.h, op.principal, op.conn).result.Ok?)
    else if op.OpMarkStreamReset? then
      NO_FACTS.(reset := if op.h == h && MarkStreamReset(p, op.h, op.principal, op.conn, op.code).result.Ok?
                         then Some(op.code) else None)
    else if op.OpMarkStreamResetForSession? then
      NO_FACTS.(reset := if HasPair(p, h, op.session, op.stream) then Some(op.code) else None)
    else if op.OpRebindApplication? then
      NO_FACTS.(moved := if h in p.streams && p.streams[h].app == op.app
                            && RebindApplication(p, op.app, op.principal, op.conn).result.Ok?
                         then Some(op.conn) else None)
    else NO_FACTS
  }

  /** `h` is stream `stream` of session `session`. */
  predicate HasPair(p: Plane, h: bytes, session: nat, stream: nat) {
    h in p.streams && p.streams[h].session == session && p.streams[h].stream == stream
  }

  // ----- one step -----------------------------------------------------------

  lemma PushTold(p: Plane, target: bytes, data: bytes, eof: bool, h: bytes)
    requires h in p.streams
    ensures var r := PushStreamData(p, target, data, eof);
            Told(p.streams[h], NO_FACTS.(ended := target == h && eof && r.result.Ok?), r.plane.streams[h])
  {
  }

  lemma AttachTold(p: Plane, l: Listener, session: nat, stream: nat, protocol: bytes, h: bytes)
    requires HandlesIssued(p.streams, p.nextHandle) && h in p.streams
    ensures var q := AttachStream(p, l, session, stream, protocol);
            h in q.streams && q.streams[h] == p.streams[h]
  {
    NextHandleFresh(p);
  }

  lemma RouteTold(p: Plane, session: nat, stream: nat, protocol: bytes, data: bytes, eof: bool, h: bytes)
    requires HandlesIssued(p.streams, p.nextHandle) && h in p.streams
    ensures var r := RouteIncomingStream(p, session, stream, protocol, data, eof);
            h in r.plane.streams
            && Told(p.streams[h], NO_FACTS.(ended := eof && r.result == Ok(h)), r.plane.streams[h])
  {
    match FindListener(p.listeners, protocol)
    case None =>
    case Some(l) =>
      var admitted := AdmitSession(p, l, session);
      if admitted.result.Ok? && admitted.plane.sessions[session].app == l.app {
        AttachTold(admitted.plane, l, session, stream, protocol, h);
        var attached := AttachStream(admitted.plane, l, session, stream, protocol);
        PushTold(attached, attached.index[(session, stream)], data, eof, h);
      }
  }

  /** After a successful route the pair names the stream that was answered. */
  lemma RouteNamed(p: Plane, session: nat, stream: nat, protocol: bytes, data: bytes, eof: bool, h: bytes)
    requires Inv(p) && p.nextHandle < U64_MAX
    ensures var r := RouteIncomingStream(p, session, stream, protocol, data, eof);
            r.result.Ok? ==> (r.result.value == h <==> HasPair(r.plane, h, session, stream))
  {
    var r := RouteIncomingStream(p, session, stream, protocol, data, eof);
    RouteIncomingStreamKeeps(p, session, stream, protocol, data, eof);
    RouteIndex(p, session, stream, protocol, data, eof);
    PairIndexed(r.plane, h, session, stream);
  }

  lemma PairIndexed(p: Plane, h: bytes, session: nat, stream: nat)
    requires IndexExact(p.streams, p.index)
    ensures HasPair(p, h, session, stream) <==> (session, stream) in p.index && p.index[(session, stream)] == h
  {
  }

  /** If `h` is still there, it was told exactly what `op` tells it. */
  ghost predicate StepTells(p: Plane, op: Op, h: bytes)
    requires h in p.streams
  {
    h in Step(p, op).streams ==> Told(p.streams[h], FactsOf(p, op, h), Step(p, op).streams[h])
  }

  lemma PushTells(p: Plane, target: bytes, data: bytes, eof: bool, h: bytes)
    requires h in p.streams
    ensures StepTells(p, OpPushStreamData(target, data, eof), h)
  {
    PushTold(p, target, data, eof, h);
  }

  lemma RouteTells(p: Plane, session: nat, stream: nat, protocol: bytes, data: bytes, eof: bool, h: bytes)
    requires HandlesIssued(p.streams, p.nextHandle) && h in p.streams
    ensures StepTells(p, OpRouteIncomingStream(session, stream, protocol, data, eof), h)
  {
    RouteTold(p, session, stream, protocol, data, eof, h);
  }

  lemma RouteDataTold(p: Plane, session: nat, stream: nat, protocol: bytes, data: bytes, eof: bool, h: bytes)
    requires Inv(p) && p.nextHandle < U64_MAX && h in p.streams
    ensures var r := RouteStreamData(p, session, stream, protocol, data, eof);
            h in r.plane.streams
            && Told(p.streams[h],
                    NO_FACTS.(ended := eof && r.result == Ok(true) && HasPair(r.plane, h, session, stream)),
                    r.plane.streams[h])
  {
    if (session, stream) in p.index {
      IndexedTold(p, session, stream, protocol, data, eof, h);
    } else {
      RouteTold(p, session, stream, protocol, data, eof, h);
      RouteNamed(p, session, stream, protocol, data, eof, h);
    }
  }

  lemma IndexedTold(p: Plane, session: nat, stream: nat, protocol: bytes, data: bytes, eof: bool, h: bytes)
    requires IndexExact(p.streams, p.index) && h in p.streams && (session, stream) in p.index
    ensures var r := RouteStreamData(p, session, stream, protocol, data, eof);
            h in r.plane.streams
            && Told(p.streams[h],
                    NO_FACTS.(ended := eof && r.result == Ok(true) && HasPair(r.plane, h, session, stream)),
                    r.plane.streams[h])
  {
    PushTold(p, p.index[(session, stream)], data, eof, h);
    PairIndexed(p, h, session, stream);
  }

  lemma RouteDataTells(p: Plane, session: nat, stream: nat, protocol: bytes, data: bytes, eof: bool, h: bytes)
    requires Inv(p) && p.nextHandle < U64_MAX && h in p.streams
    ensures StepTells(p, OpRouteStreamData(session, stream, protocol, data, eof), h)
  {
    RouteDataTold(p, session, stream, protocol, data, eof, h);
  }

  lemma ResetTells(p: Plane, target: bytes, principal: nat, conn: bytes, code: nat, h: bytes)
    requires h in p.streams
    ensures StepTells(p, OpMarkStreamReset(target, principal, conn, code), h)
  {
  }

  lemma PairResetTells(p: Plane, session: nat, stream: nat, code: nat, h: bytes)
    requires IndexExact(p.streams, p.index) && h in p.streams
    ensures StepTells(p, OpMarkStreamResetForSession(session, stream, code), h)
  {
    PairIndexed(p, h, session, stream);
  }

  lemma AcceptTells(p: Plane, target: bytes, principal: nat, conn: bytes, h: bytes)
    requires h in p.streams
    ensures StepTells(p, OpAcceptStream(target, principal, conn), h)
  {
  }

  lemma CloseTells(p: Plane, target: bytes, principal: nat, conn: bytes, h: bytes)
    requires h in p.streams
    ensures StepTells(p, OpCloseStreamSend(target, principal, conn), h)
  {
  }

  lemma ReadTells(p: Plane, target: bytes, principal: nat, conn: bytes, max: nat, wait: bool, h: bytes)
    requires h in p.streams
    ensures StepTells(p, OpReadStream(target, principal, conn, max, wait), h)
  {
  }

  lemma RejectTells(p: Plane, target: bytes, principal: nat, conn: bytes, h: bytes)
    requires h in p.streams
    ensures StepTells(p, OpRejectStream(target, principal, conn), h)
  {
  }

  lemma OpenTells(
    p: Plane, principal: nat, conn: bytes, app: bytes, session: nat, stream: nat, protocol: bytes, h: bytes)
    requires HandlesIssued(p.streams, p.nextHandle) && h in p.streams
    ensures StepTells(p, OpOpenStream(principal, conn, app, session, stream, protocol), h)
  {
    NextHandleFresh(p);
  }

  lemma RebindTells(p: Plane, app: bytes, principal: nat, conn: bytes, h: bytes)
    requires h in p.streams
    ensures StepTells(p, OpRebindApplication(app, principal, conn), h)
  {
  }

  lemma ToldNothing(s: Stream)
    ensures Told(s, NO_FACTS, s)
  {
  }

  lemma QuietFacts(p: Plane, op: Op, h: bytes)
    requires (IsRegistryOp(op) && !op.OpRebindApplication?) || IsSessionOp(op) || IsDatagramOp(op)
    ensures FactsOf(p, op, h) == NO_FACTS
  {
  }

  lemma RemovalTells(p: Plane, op: Op, h: bytes)
    requires h in p.streams && IsRegistryOp(op) && !op.OpRebindApplication?
    ensures StepTells(p, op, h)
  {
    QuietFacts(p, op, h);
    ToldNothing(p.streams[h]);
    if h in Step(p, op).streams {
      RemovalKeepsRecord(p, op, h);
    }
  }

  lemma RemovalKeepsRecord(p: Plane, op: Op, h: bytes)
    requires IsRegistryOp(op) && !op.OpRebindApplication? && h in Step(p, op).streams
    ensures h in p.streams && Step(p, op).streams[h] == p.streams[h]
  {
  }

  lemma SessionTells(p: Plane, op: Op, h: bytes)
    requires (IsSessionOp(op) || IsDatagramOp(op)) && h in p.streams
    ensures StepTells(p, op, h)
  {
    QuietFacts(p, op, h);
    ToldNothing(p.streams[h]);
    if h in Step(p, op).streams {
      SessionKeepsRecord(p, op, h);
    }
  }

  lemma SessionKeepsRecord(p: Plane, op: Op, h: bytes)
    requires (IsSessionOp(op) || IsDatagramOp(op)) && h in Step(p, op).streams
    ensures h in p.streams && Step(p, op).streams[h] == p.streams[h]
  {
    if IsDatagramOp(op) {
      DatagramFlow(p, op);
    }
  }

  lemma ArrivalTells(p: Plane, op: Op, h: bytes)
    requires Inv(p) && p.nextHandle < U64_MAX && h in p.streams
    requires op.OpPushStreamData? || op.OpRouteIncomingStream? || op.OpRouteStreamData? || op.OpOpenStream?
    ensures StepTells(p, op, h)
  {
    if op.OpPushStreamData? {
      PushTells(p, op.h, op.data, op.eof, h);
    } else if op.OpRouteIncomingStream? {
      RouteTells(p, op.session, op.stream, op.protocol, op.data, op.eof, h);
    } else if op.OpRouteStreamData? {
      RouteDataTells(p, op.session, op.stream, op.protocol, op.data, op.eof, h);
    } else {
      OpenTells(p, op.principal, op.conn, op.app, op.session, op.stream, op.protocol, h);
    }
  }

  lemma OwnerTells(p: Plane, op: Op, h: bytes)
    requires IndexExact(p.streams, p.index) && h in p.streams
    requires op.OpMarkStreamReset? || op.OpMarkStreamResetForSession? || op.OpAcceptStream? || op.OpCloseStreamSend?
             || op.OpReadStream? || op.OpRejectStream?
    ensures StepTells(p, op, h)
  {
    if op.OpMarkStreamReset? {
      ResetTells(p, op.h, op.principal, op.conn, op.code, h);
    } else if op.OpMarkStreamResetForSession? {
      PairResetTells(p, op.session, op.stream, op.code, h);
    } else if op.OpAcceptStream? {
      AcceptTells(p, op.h, op.principal, op.conn, h);
    } else if op.OpCloseStreamSend? {
      CloseTells(p, op.h, op.principal, op.conn, h);
    } else if op.OpReadStream? {
      ReadTells(p, op.h, op.principal, op.conn, op.max, op.wait, h);
    } else {
      RejectTells(p, op.h, op.principal, op.conn, h);
    }
  }

  /** A stream that is there before and after an operation was told exactly what the operation tells it. */
  lemma StepTold(p: Plane, op: Op, h: bytes)
    requires Inv(p) && p.nextHandle < U64_MAX && h in p.streams
    ensures StepTells(p, op, h)
  {
    if op.OpPushStreamData? || op.OpRouteIncomingStream? || op.OpRouteStreamData? || op.OpOpenStream? {
      ArrivalTells(p, op, h);
    } else if op.OpRebindApplication? {
      RebindTells(p, op.app, op.principal, op.conn, h);
    } else if IsRegistryOp(op) {
      RemovalTells(p, op, h);
    } else if IsSessionOp(op) || IsDatagramOp(op) {
      SessionTells(p, op, h);
    } else {
      OwnerTells(p, op, h);
    }
  }

  // ----- how streams are made -----------------------------------------------

  /** `l` is the listener for `protocol` that registered first. */
  ghost predicate FirstListener(ls: seq<Listener>, protocol: bytes, l: Listener) {
    exists i :: 0 <= i < |ls| && ls[i] == l && l.protocol == protocol
                && forall j :: 0 <= j < i ==> ls[j].protocol != protocol
  }

  lemma {:induction false} FindListenerExactly(ls: seq<Listener>, protocol: bytes)
    ensures FindListener(ls, protocol).Some? ==> FirstListener(ls, protocol, FindListener(ls, protocol).value)
    ensures FindListener(ls, protocol).None? ==> forall i :: 0 <= i < |ls| ==> ls[i].protocol != protocol
  {
    if ls != [] && ls[0].protocol != protocol {
      FindListenerExactly(ls[1..], protocol);
      if FindListener(ls[1..], protocol).Some? {
        var l := FindListener(ls[1..], protocol).value;
        var i :| 0 <= i < |ls[1..]| && ls[1..][i] == l && forall j :: 0 <= j < i ==> ls[1..][j].protocol != protocol;
        assert ls[i + 1] == l;
        forall j | 0 <= j < i + 1 ensures ls[j].protocol != protocol {
          if j > 0 { assert ls[j] == ls[1..][j - 1]; }
        }
      }
      forall i | 0 <= i < |ls| && FindListener(ls, protocol).None? ensures ls[i].protocol != protocol {
        if i > 0 { assert ls[i] == ls[1..][i - 1]; }
      }
    }
  }

  /** An opened stream belongs to its opener and needs no acceptance. */
  function Opened(op: Op): Stream
    requires op.OpOpenStream?
  {
    Stream(op.session, op.stream, op.app, op.principal, op.conn, op.protocol, false, false, false, None, 0, [])
  }

  /** A routed stream belongs to the listener's owner and waits for acceptance. */
  function Arrived(l: Listener, session: nat, stream: nat): Stream {
    Stream(session, stream, l.app, l.principal, l.conn, l.protocol, true, false, false, None, 0, [])
  }

  /** `s` is the record with which `op` makes a stream. */
  ghost predicate Makes(p: Plane, op: Op, s: Stream) {
    (op.OpOpenStream? && s == Opened(op))
    || ((op.OpRouteIncomingStream? || op.OpRouteStreamData?)
        && exists l :: FirstListener(p.listeners, op.protocol, l) && s == Arrived(l, op.session, op.stream))
  }

  ghost predicate Born(p: Plane, op: Op, h: bytes, s: Stream) {
    h !in p.streams && Makes(p, op, s) && h in Step(p, op).streams
    && Told(s, FactsOf(p, op, h), Step(p, op).streams[h])
  }

  lemma RouteBorn(p: Plane, session: nat, stream: nat, protocol: bytes, data: bytes, eof: bool, h: bytes)
    requires HandlesIssued(p.streams, p.nextHandle) && h !in p.streams
    ensures var r := RouteIncomingStream(p, session, stream, protocol, data, eof);
            h in r.plane.streams ==>
              FindListener(p.listeners, protocol).Some?
              && FindListener(p.listeners, protocol).value.protocol == protocol
              && Told(Arrived(FindListener(p.listeners, protocol).value, session, stream),
                      NO_FACTS.(ended := eof && r.result == Ok(h)), r.plane.streams[h])
  {
    NextHandleFresh(p);
    FindListenerExactly(p.listeners, protocol);
    match FindListener(p.listeners, protocol)
    case None =>
    case Some(l) =>
      var admitted := AdmitSession(p, l, session);
      if admitted.result.Ok? && admitted.plane.sessions[session].app == l.app {
        var attached := AttachStream(admitted.plane, l, session, stream, protocol);
        var r := RouteIncomingStream(p, session, stream, protocol, data, eof);
        if h in r.plane.streams {
          PushTold(attached, attached.index[(session, stream)], data, eof, h);
        }
      }
  }

  lemma RouteDataBorn(p: Plane, session: nat, stream: nat, protocol: bytes, data: bytes, eof: bool, h: bytes)
    requires Inv(p) && p.nextHandle < U64_MAX && h !in p.streams
    requires h in RouteStreamData(p, session, stream, protocol, data, eof).plane.streams
    ensures var r := RouteStreamData(p, session, stream, protocol, data, eof);
            FindListener(p.listeners, protocol).Some? && FindListener(p.listeners, protocol).value.protocol == protocol
            && Told(Arrived(FindListener(p.listeners, protocol).value, session, stream),
                    NO_FACTS.(ended := eof && r.result == Ok(true) && HasPair(r.plane, h, session, stream)),
                    r.plane.streams[h])
  {
    if (session, stream) in p.index {
      PushKeys(p, p.index[(session, stream)], data, eof);
      assert false;
    } else {
      RouteBorn(p, session, stream, protocol, data, eof, h);
      RouteNamed(p, session, stream, protocol, data, eof, h);
    }
  }

  lemma RouteMakes(p: Plane, op: Op)
    requires (op.OpRouteIncomingStream? || op.OpRouteStreamData?) && FindListener(p.listeners, op.protocol).Some?
    ensures Makes(p, op, Arrived(FindListener(p.listeners, op.protocol).value, op.session, op.stream))
  {
    FindListenerExactly(p.listeners, op.protocol);
  }

  lemma RouteStepBorn(p: Plane, session: nat, stream: nat, protocol: bytes, data: bytes, eof: bool, h: bytes)
    returns (s: Stream)
    requires HandlesIssued(p.streams, p.nextHandle) && h !in p.streams
    requires h in RouteIncomingStream(p, session, stream, protocol, data, eof).plane.streams
    ensures Born(p, OpRouteIncomingStream(session, stream, protocol, data, eof), h, s)
  {
    RouteBorn(p, session, stream, protocol, data, eof, h);
    RouteMakes(p, OpRouteIncomingStream(session, stream, protocol, data, eof));
    s := Arrived(FindListener(p.listeners, protocol).value, session, stream);
  }

  lemma RouteDataStepBorn(p: Plane, session: nat, stream: nat, protocol: bytes, data: bytes, eof: bool, h: bytes)
    returns (s: Stream)
    requires Inv(p) && p.nextHandle < U64_MAX && h !in p.streams
    requires h in RouteStreamData(p, session, stream, protocol, data, eof).plane.streams
    ensures Born(p, OpRouteStreamData(session, stream, protocol, data, eof), h, s)
  {
    RouteDataBorn(p, session, stream, protocol, data, eof, h);
    RouteMakes(p, OpRouteStreamData(session, stream, protocol, data, eof));
    s := Arrived(FindListener(p.listeners, protocol).value, session, stream);
  }

  lemma OpenBorn(p: Plane, op: Op, h: bytes)
    requires op.OpOpenStream? && h !in p.streams && h in Step(p, op).streams
    ensures Born(p, op, h, Opened(op))
  {
  }

  lemma OtherKeys(p: Plane, op: Op, h: bytes)
    requires !op.OpOpenStream? && !op.OpRouteIncomingStream? && !op.OpRouteStreamData?
    requires h in Step(p, op).streams
    ensures h in p.streams
  {
    if IsRegistryOp(op) {
      RegistryFlow(p, op, h);
    } else if IsSessionOp(op) {
      SessionFlow(p, op, h);
    } else if IsDatagramOp(op) {
      DatagramFlow(p, op);
    } else {
      StreamOpsMakeNothing(p, op, h);
    }
  }

  lemma StreamOpsMakeNothing(p: Plane, op: Op, h: bytes)
    requires !op.OpOpenStream? && !op.OpRouteIncomingStream? && !op.OpRouteStreamData?
    requires !IsRegistryOp(op) && !IsSessionOp(op) && !IsDatagramOp(op) && h in Step(p, op).streams
    ensures h in p.streams
  {
  }

  /** A stream that is new after an operation was made by it. */
  lemma StepBorn(p: Plane, op: Op, h: bytes) returns (s: Stream)
    requires Inv(p) && p.nextHandle < U64_MAX && h !in p.streams && h in Step(p, op).streams
    ensures Born(p, op, h, s)
  {
    if op.OpRouteIncomingStream? {
      s := RouteStepBorn(p, op.session, op.stream, op.protocol, op.data, op.eof, h);
    } else if op.OpRouteStreamData? {
      s := RouteDataStepBorn(p, op.session, op.stream, op.protocol, op.data, op.eof, h);
    } else if op.OpOpenStream? {
      OpenBorn(p, op, h);
      s := Opened(op);
    } else {
      OtherKeys(p, op, h);
      assert false;
    }
  }

  // ----- whole runs ---------------------------------------------------------

  /** All that a run tells stream `h`. */
  function Story(p: Plane, ops: seq<Op>, h: bytes): Facts {
    if ops == [] then NO_FACTS
    else Both(Story(p, ops[..|ops| - 1], h), FactsOf(Run(p, ops[..|ops| - 1]), ops[|ops| - 1], h))
  }

  /** Only a stream that is there is told anything. */
  lemma FactsNeedStream(p: Plane, op: Op, h: bytes)
    requires HandlesIssued(p.streams, p.nextHandle) && FactsOf(p, op, h) != NO_FACTS
    ensures h in p.streams || h in Step(p, op).streams
  {
    if op.OpRouteIncomingStream? || op.OpRouteStreamData? {
      RouteIndex(p, op.session, op.stream, op.protocol, op.data, op.eof);
      RouteLands(p, op.session, op.stream, op.protocol, op.data, op.eof);
    }
  }

  lemma {:induction false} StoryNeedsIssue(p: Plane, ops: seq<Op>, h: bytes)
    requires Inv(p) && p.nextHandle + |ops| <= U64_MAX && !Issued(h, Run(p, ops).nextHandle)
    ensures Story(p, ops, h) == NO_FACTS
  {
    if ops != [] {
      var front, last := ops[..|ops| - 1], ops[|ops| - 1];
      StepCounter(Run(p, front), last);
      StoryNeedsIssue(p, front, h);
      RunKeepsInv(p, front);
      RunKeepsInv(p, ops);
      if FactsOf(Run(p, front), last, h) != NO_FACTS {
        FactsNeedStream(Run(p, front), last, h);
      }
    }
  }

  lemma ToldBoth(s: Stream, a: Facts, s1: Stream, b: Facts, s2: Stream)
    requires Told(s, a, s1) && Told(s1, b, s2)
    ensures Told(s, Both(a, b), s2)
  {
  }

  /** Operation `i` of the run made stream `h` with record `s`. */
  ghost predicate MadeAt(ops: seq<Op>, i: nat, h: bytes, s: Stream) {
    i < |ops| && h !in Run(EMPTY_PLANE, ops[..i]).streams && Makes(Run(EMPTY_PLANE, ops[..i]), ops[i], s)
  }

  /**
   Over every run from a new plane: a stream that is there was made by one of the operations, and its record is the one
   it was made with, told exactly what the run told it.
   */
  lemma {:induction false} StreamStory(ops: seq<Op>, h: bytes) returns (i: nat, s: Stream)
    requires |ops| < U64_MAX && h in Run(EMPTY_PLANE, ops).streams
    ensures MadeAt(ops, i, h, s) && Told(s, Story(EMPTY_PLANE, ops, h), Run(EMPTY_PLANE, ops).streams[h])
    decreases |ops|
  {
    var front, last := ops[..|ops| - 1], ops[|ops| - 1];
    ReachableInv(front);
    RunCounter(EMPTY_PLANE, front);
    if h in Run(EMPTY_PLANE, front).streams {
      i, s := StreamStory(front, h);
      assert ops[..i] == front[..i];
      StoryGoesOn(front, last, h, s);
    } else {
      s := StoryBegins(front, last, h);
      i := |ops| - 1;
    }
  }

  lemma StoryGoesOn(ops: seq<Op>, last: Op, h: bytes, s: Stream)
    requires var q := Run(EMPTY_PLANE, ops);
             Inv(q) && q.nextHandle < U64_MAX && h in q.streams && h in Step(q, last).streams
             && Told(s, Story(EMPTY_PLANE, ops, h), q.streams[h])
    ensures var q := Run(EMPTY_PLANE, ops);
            Told(s, Both(Story(EMPTY_PLANE, ops, h), FactsOf(q, last, h)), Step(q, last).streams[h])
  {
    var q := Run(EMPTY_PLANE, ops);
    StepTold(q, last, h);
    ToldBoth(s, Story(EMPTY_PLANE, ops, h), q.streams[h], FactsOf(q, last, h), Step(q, last).streams[h]);
  }

  lemma StoryBegins(ops: seq<Op>, last: Op, h: bytes) returns (s: Stream)
    requires |ops| + 1 < U64_MAX
    requires var q := Run(EMPTY_PLANE, ops);
             Inv(q) && q.nextHandle < U64_MAX && h !in q.streams && h in Step(q, last).streams
    ensures Makes(Run(EMPTY_PLANE, ops), last, s)
    ensures var q := Run(EMPTY_PLANE, ops);
            Told(s, Both(Story(EMPTY_PLANE, ops, h), FactsOf(q, last, h)), Step(q, last).streams[h])
  {
    var q := Run(EMPTY_PLANE, ops);
    if Issued(h, q.nextHandle) { HandleNotReused(q, last, h); }
    EmptyInv();
    StoryNeedsIssue(EMPTY_PLANE, ops, h);
    s := StepBorn(q, last, h);
    ToldFirst(s, FactsOf(q, last, h), Step(q, last).streams[h]);
  }

  lemma ToldFirst(s: Stream, f: Facts, s': Stream)
    requires Told(s, f, s')
    ensures Told(s, Both(NO_FACTS, f), s')
  {
  }

  // ----- the end of a stream ------------------------------------------------

  /** Some accepted push or route for `h` carried the end. */
  predicate Ended(ops: seq<Op>, h: bytes) {
    Story(EMPTY_PLANE, ops, h).ended
  }

  /** The end flag is set exactly when an accepted push or route for the stream carried the end. */
  lemma EndedExactly(ops: seq<Op>, h: bytes)
    requires |ops| < U64_MAX && h in Run(EMPTY_PLANE, ops).streams
    ensures Run(EMPTY_PLANE, ops).streams[h].eof <==> Ended(ops, h)
  {
    var i, s := StreamStory(ops, h);
  }

  /** The owner reads a stream that it has accepted and that was not reset. */
  predicate OwnRead(p: Plane, h: bytes, principal: nat, conn: bytes, max: nat) {
    Flowing(p, h) && p.streams[h].principal == principal && p.streams[h].conn == conn && !p.streams[h].pending
    && max > 0
  }

  /** Such a read reports the end exactly when the stream was ended and at most one chunk waits. */
  lemma EndReportedExactly(ops: seq<Op>, h: bytes, principal: nat, conn: bytes, max: nat, wait: bool)
    requires |ops| < U64_MAX && OwnRead(Run(EMPTY_PLANE, ops), h, principal, conn, max)
    ensures ReportsEnd(Run(EMPTY_PLANE, ops), h, principal, conn, max, wait)
            <==> Ended(ops, h) && |Run(EMPTY_PLANE, ops).streams[h].queued| <= 1
  {
    EndedExactly(ops, h);
    ReadEnd(Run(EMPTY_PLANE, ops), h, principal, conn, max, wait);
  }

  lemma ReadEnd(p: Plane, h: bytes, principal: nat, conn: bytes, max: nat, wait: bool)
    requires OwnRead(p, h, principal, conn, max)
    ensures ReportsEnd(p, h, principal, conn, max, wait) <==> p.streams[h].eof && |p.streams[h].queued| <= 1
  {
  }

  // ----- how streams go -----------------------------------------------------

  /** The operation rejects the stream, or takes away its session, its application or its connection. */
  predicate Drops(p: Plane, op: Op, h: bytes)
    requires h in p.streams
  {
    var s := p.streams[h];
    (op.OpRejectStream? && op.h == h && s.principal == op.principal && s.conn == op.conn)
    || Clears(p, op, s.session)
    || (op.OpRemoveApplication? && op.app == s.app)
    || (op.OpRemoveConnection? && Listens(p, s.app, op.conn))
  }

  lemma RemoveConnectionDrops(p: Plane, conn: bytes, h: bytes)
    requires StreamsOwned(p.streams, p.sessions) && h in p.streams
    ensures h in RemoveConnection(p, conn).streams <==> !Drops(p, OpRemoveConnection(conn), h)
  {
    ListenerAppsExactly(p, p.streams[h].app, conn);
    RemoveConnectionClears(p, conn, p.streams[h].session);
  }

  /** The operations that may take a stream away. */
  predicate IsRemoval(op: Op) {
    op.OpRemoveSession? || op.OpRemoveApplication? || op.OpRejectSession? || op.OpRejectStream?
    || op.OpRemoveConnection?
  }

  lemma SessionDrops(p: Plane, id: nat, h: bytes)
    requires h in p.streams
    ensures h in Step(p, OpRemoveSession(id)).streams <==> !Drops(p, OpRemoveSession(id), h)
  {
  }

  lemma RejectedSessionDrops(p: Plane, id: nat, principal: nat, conn: bytes, h: bytes)
    requires StreamsOwned(p.streams, p.sessions) && h in p.streams
    ensures h in Step(p, OpRejectSession(id, principal, conn)).streams
            <==> !Drops(p, OpRejectSession(id, principal, conn), h)
  {
  }

  lemma RejectedStreamDrops(p: Plane, target: bytes, principal: nat, conn: bytes, h: bytes)
    requires h in p.streams
    ensures h in Step(p, OpRejectStream(target, principal, conn)).streams
            <==> !Drops(p, OpRejectStream(target, principal, conn), h)
  {
  }

  lemma ApplicationDrops(p: Plane, app: bytes, h: bytes)
    requires StreamsOwned(p.streams, p.sessions) && h in p.streams
    ensures h in Step(p, OpRemoveApplication(app)).streams <==> !Drops(p, OpRemoveApplication(app), h)
  {
  }

  lemma RemovalDrops(p: Plane, op: Op, h: bytes)
    requires StreamsOwned(p.streams, p.sessions) && h in p.streams && IsRemoval(op)
    ensures h in Step(p, op).streams <==> !Drops(p, op, h)
  {
    match op
    case OpRemoveSession(id) => SessionDrops(p, id, h);
    case OpRejectSession(id, principal, conn) => RejectedSessionDrops(p, id, principal, conn, h);
    case OpRejectStream(target, principal, conn) => RejectedStreamDrops(p, target, principal, conn, h);
    case OpRemoveApplication(app) => ApplicationDrops(p, app, h);
    case OpRemoveConnection(conn) => RemoveConnectionDrops(p, conn, h);
  }

  lemma OthersKeepStreams(p: Plane, op: Op, h: bytes)
    requires HandlesIssued(p.streams, p.nextHandle) && h in p.streams
    requires !IsRemoval(op) && !op.OpRouteIncomingStream? && !op.OpRouteStreamData?
    ensures h in Step(p, op).streams
  {
    NextHandleFresh(p);
  }

  lemma OthersDropNothing(p: Plane, op: Op, h: bytes)
    requires h in p.streams && !IsRemoval(op)
    ensures !Drops(p, op, h)
  {
  }

  /** A stream goes exactly by such an operation. */
  lemma DroppedExactly(p: Plane, op: Op, h: bytes)
    requires Inv(p) && h in p.streams
    ensures h in Step(p, op).streams <==> !Drops(p, op, h)
  {
    if IsRemoval(op) {
      RemovalDrops(p, op, h);
    } else {
      OthersDropNothing(p, op, h);
      if op.OpRouteIncomingStream? || op.OpRouteStreamData? {
        RouteKeepsStream(p, op, h);
      } else {
        OthersKeepStreams(p, op, h);
      }
    }
  }

  lemma RouteKeepsStream(p: Plane, op: Op, h: bytes)
    requires HandlesIssued(p.streams, p.nextHandle) && h in p.streams
    requires op.OpRouteIncomingStream? || op.OpRouteStreamData?
    ensures h in Step(p, op).streams
  {
    if op.OpRouteIncomingStream? {
      RouteKeeps(p, op.session, op.stream, op.protocol, op.data, op.eof, h);
    } else {
      RouteDataKeeps(p, op.session, op.stream, op.protocol, op.data, op.eof, h);
    }
  }

  lemma RouteKeeps(p: Plane, session: nat, stream: nat, protocol: bytes, data: bytes, eof: bool, h: bytes)
    requires HandlesIssued(p.streams, p.nextHandle) && h in p.streams
    ensures h in Step(p, OpRouteIncomingStream(session, stream, protocol, data, eof)).streams
  {
    RouteTold(p, session, stream, protocol, data, eof, h);
  }

  lemma RouteDataKeeps(p: Plane, session: nat, stream: nat, protocol: bytes, data: bytes, eof: bool, h: bytes)
    requires HandlesIssued(p.streams, p.nextHandle) && h in p.streams
    ensures h in Step(p, OpRouteStreamData(session, stream, protocol, data, eof)).streams
  {
    RouteTold(p, session, stream, protocol, data, eof, h);
  }
}
