/** A reset empties a stream: what waits is always what was accepted since, less what was read since. */
module PlaneResets {
  import opened Bytes
  import opened DataPlane
  import opened PlaneInvariant
  import opened PlaneRuns
  import opened PlaneFifo
  import opened PlaneStreams

  /** The owner of stream `h`, or its peer by session and stream number, resets it. */
  predicate Resets(p: Plane, op: Op, h: bytes) {
    h in p.streams
    && ((op.OpMarkStreamReset? && op.h == h && p.streams[h].principal == op.principal && p.streams[h].conn == op.conn)
        || (op.OpMarkStreamResetForSession? && HasPair(p, h, op.session, op.stream)))
  }

  /** The stream is empty, and its whole allowance is free again. */
  predicate Emptied(q: Plane, h: bytes) {
    h in q.streams && q.streams[h].queued == [] && q.streams[h].queuedBytes == 0
  }

  lemma OwnerResets(p: Plane, target: bytes, principal: nat, conn: bytes, code: nat, h: bytes)
    ensures var q := MarkStreamReset(p, target, principal, conn, code).plane;
            if Resets(p, OpMarkStreamReset(target, principal, conn, code), h) then Emptied(q, h)
            else Content(q, h) == Content(p, h)
  {
  }

  lemma PeerResets(p: Plane, session: nat, stream: nat, code: nat, h: bytes)
    requires Inv(p)
    ensures var q := MarkStreamResetForSession(p, session, stream, code).plane;
            if Resets(p, OpMarkStreamResetForSession(session, stream, code), h) then Emptied(q, h)
            else Content(q, h) == Content(p, h)
  {
  }

  lemma OwnerResetStep(p: Plane, target: bytes, principal: nat, conn: bytes, code: nat)
    ensures Step(p, OpMarkStreamReset(target, principal, conn, code))
            == MarkStreamReset(p, target, principal, conn, code).plane
  {
  }

  lemma PeerResetStep(p: Plane, session: nat, stream: nat, code: nat)
    ensures Step(p, OpMarkStreamResetForSession(session, stream, code))
            == MarkStreamResetForSession(p, session, stream, code).plane
  {
  }

  /** A reset empties its stream and leaves the others. */
  lemma ResetFlow(p: Plane, op: Op, h: bytes)
    requires Inv(p) && (op.OpMarkStreamReset? || op.OpMarkStreamResetForSession?)
    ensures if Resets(p, op, h) then Emptied(Step(p, op), h) else Content(Step(p, op), h) == Content(p, h)
  {
    if op.OpMarkStreamReset? {
      OwnerResets(p, op.h, op.principal, op.conn, op.code, h);
      OwnerResetStep(p, op.h, op.principal, op.conn, op.code);
    } else {
      PeerResets(p, op.session, op.stream, op.code, h);
      PeerResetStep(p, op.session, op.stream, op.code);
    }
  }

  lemma EmptiedContent(q: Plane, h: bytes)
    requires Emptied(q, h)
    ensures Content(q, h) == []
  {
  }

  /** Neither a push nor a read: nothing is accepted or delivered. */
  lemma QuietOp(p: Plane, op: Op, h: bytes)
    requires !op.OpPushStreamData? && !op.OpRouteIncomingStream? && !op.OpRouteStreamData? && !op.OpReadStream?
    requires Content(Step(p, op), h) == Content(p, h)
    ensures StepConserved(p, op, h)
  {
    QuietConserved(Content(p, h));
  }

  lemma StepFlowAlways(p: Plane, op: Op, h: bytes)
    requires Inv(p) && h in Step(p, op).streams
    ensures if Resets(p, op, h) then Content(Step(p, op), h) == [] else StepConserved(p, op, h)
  {
    if op.OpMarkStreamReset? || op.OpMarkStreamResetForSession? {
      ResetFlow(p, op, h);
      if Resets(p, op, h) {
        EmptiedContent(Step(p, op), h);
      } else {
        QuietOp(p, op, h);
      }
    } else if op.OpPushStreamData? || op.OpRouteIncomingStream? || op.OpRouteStreamData? || op.OpReadStream? {
      ArrivalFlow(p, op, h);
    } else {
      OtherFlow(p, op, h);
      QuietOp(p, op, h);
    }
  }

  lemma ArrivalFlow(p: Plane, op: Op, h: bytes)
    requires Inv(p)
    requires op.OpPushStreamData? || op.OpRouteIncomingStream? || op.OpRouteStreamData? || op.OpReadStream?
    ensures StepConserved(p, op, h)
  {
    if op.OpPushStreamData? {
      PushStep(p, op, h);
    } else if op.OpRouteIncomingStream? {
      RouteStep(p, op.session, op.stream, op.protocol, op.data, op.eof, h);
    } else if op.OpRouteStreamData? {
      RouteDataStep(p, op.session, op.stream, op.protocol, op.data, op.eof, h);
    } else {
      ReadStep(p, op, h);
    }
  }

  lemma OtherFlow(p: Plane, op: Op, h: bytes)
    requires Inv(p) && h in Step(p, op).streams
    requires !op.OpPushStreamData? && !op.OpRouteIncomingStream? && !op.OpRouteStreamData? && !op.OpReadStream?
    requires !op.OpMarkStreamReset? && !op.OpMarkStreamResetForSession?
    ensures Content(Step(p, op), h) == Content(p, h)
  {
    if IsRegistryOp(op) {
      RegistryFlow(p, op, h);
    } else if IsSessionOp(op) {
      SessionFlow(p, op, h);
    } else if IsDatagramOp(op) {
      DatagramFlow(p, op);
    } else {
      RestFlow(p, op, h);
    }
  }

  lemma RestFlow(p: Plane, op: Op, h: bytes)
    requires HandlesIssued(p.streams, p.nextHandle) && h in Step(p, op).streams
    requires op.OpOpenStream? || op.OpAcceptStream? || op.OpRejectStream? || op.OpCloseStreamSend?
    ensures Content(Step(p, op), h) == Content(p, h)
  {
    NextHandleFresh(p);
  }

  // ----- every run ----------------------------------------------------------

  /** After the step the stream is gone, or it was reset. */
  predicate Forgets(p: Plane, op: Op, h: bytes) {
    h !in Step(p, op).streams || Resets(p, op, h)
  }

  /** The bytes taken in since the last reset, beginning with those that waited. */
  function TakenIn(p: Plane, ops: seq<Op>, h: bytes): bytes {
    if ops == [] then Content(p, h) else
    var n := |ops| - 1;
    if Forgets(Run(p, ops[..n]), ops[n], h) then []
    else TakenIn(p, ops[..n], h) + AcceptedBy(Run(p, ops[..n]), ops[n], h)
  }

  /** The bytes read since the last reset. */
  function GivenOut(p: Plane, ops: seq<Op>, h: bytes): bytes {
    if ops == [] then [] else
    var n := |ops| - 1;
    if Forgets(Run(p, ops[..n]), ops[n], h) then []
    else GivenOut(p, ops[..n], h) + DeliveredBy(Run(p, ops[..n]), ops[n], h)
  }

  /** Over every run and for every handle: what was taken in is what was given out and what waits, in order. */
  lemma {:induction false} BytesSinceReset(p: Plane, ops: seq<Op>, h: bytes)
    requires Inv(p) && p.nextHandle + |ops| <= U64_MAX
    ensures TakenIn(p, ops, h) == GivenOut(p, ops, h) + Content(Run(p, ops), h)
    decreases |ops|
  {
    if ops == [] {
      assert [] + Content(p, h) == Content(p, h);
    } else {
      var front, op := ops[..|ops| - 1], ops[|ops| - 1];
      BytesSinceReset(p, front, h);
      RunKeepsInv(p, front);
      var q := Run(p, front);
      if h in Step(q, op).streams {
        StepFlowAlways(q, op, h);
        if !Resets(q, op, h) {
          Chain(TakenIn(p, front, h), GivenOut(p, front, h), Content(q, h),
                AcceptedBy(q, op, h), DeliveredBy(q, op, h), Content(Step(q, op), h));
        }
      }
    }
  }

  lemma Chain(taken: bytes, given: bytes, before: bytes, accepted: bytes, delivered: bytes, after: bytes)
    requires taken == given + before && Conserved(before, accepted, delivered, after)
    ensures taken + accepted == given + delivered + after
  {
    assert given + before + accepted == given + (before + accepted);
    assert given + (delivered + after) == given + delivered + after;
  }
}
