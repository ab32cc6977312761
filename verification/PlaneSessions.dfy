/**
 The sessions of the data plane as its operations and their answers make them: which exist, whose they are, on which
 connection, and which still wait for acceptance.
 */
module PlaneSessions {
  import opened Bytes
  import opened DataPlane
  import opened PlaneInvariant
  import opened PlaneRuns
  import opened PlaneDatagrams
  import opened PlaneStreams

  /** The sessions of `app` that wait for acceptance. */
  function WaitingOf(p: Plane, app: bytes): set<nat> {
    set id | id in p.sessions && p.sessions[id].app == app && p.sessions[id].pending
  }

  /** The record with which `op` makes session `id`, if it is unknown. */
  ghost function Made(p: Plane, op: Op, id: nat): Option<Session> {
    if op.OpBindSession? && op.id == id then Some(Session(op.app, op.principal, op.conn, op.pending))
    else if op.OpOpenStream? && op.session == id then Some(Session(op.app, op.principal, op.conn, false))
    else if (op.OpRouteIncomingStream? || op.OpRouteStreamData?) && op.session == id
            && exists l :: FirstListener(p.listeners, op.protocol, l) then
      var l :| FirstListener(p.listeners, op.protocol, l);
      if |WaitingOf(p, l.app)| < l.maxPending then Some(Session(l.app, l.principal, l.conn, true)) else None
    else None
  }

  /** The record of a known session after `op`. */
  function Kept(p: Plane, op: Op, id: nat, s: Session): Session {
    if op.OpAcceptSession? && op.id == id && AcceptSession(p, op.id, op.principal, op.conn).result.Ok?
    then s.(pending := false)
    else if op.OpRebindApplication? && op.app == s.app
            && RebindApplication(p, op.app, op.principal, op.conn).result.Ok? then s.(conn := op.conn)
    else s
  }

  function SessionAt(p: Plane, id: nat): Option<Session> {
    if id in p.sessions then Some(p.sessions[id]) else None
  }

  /** What `op` makes of a session, known or not. */
  ghost function Next(p: Plane, op: Op, id: nat, s: Option<Session>): Option<Session> {
    if Clears(p, op, id) then None
    else match s
         case None => Made(p, op, id)
         case Some(s) => Some(Kept(p, op, id, s))
  }

  lemma OneFirst(ls: seq<Listener>, protocol: bytes, a: Listener, b: Listener)
    requires FirstListener(ls, protocol, a) && FirstListener(ls, protocol, b)
    ensures a == b
  {
  }

  lemma FirstFound(p: Plane, protocol: bytes)
    ensures FindListener(p.listeners, protocol).Some? <==> exists l :: FirstListener(p.listeners, protocol, l)
    ensures forall l :: FirstListener(p.listeners, protocol, l) ==> FindListener(p.listeners, protocol) == Some(l)
  {
    FindListenerExactly(p.listeners, protocol);
    forall l | FirstListener(p.listeners, protocol, l) ensures FindListener(p.listeners, protocol) == Some(l) {
      if FindListener(p.listeners, protocol).Some? {
        OneFirst(p.listeners, protocol, l, FindListener(p.listeners, protocol).value);
      }
    }
  }

  lemma AdmittedSession(p: Plane, l: Listener, session: nat, id: nat)
    ensures SessionAt(AdmitSession(p, l, session).plane, id)
            == if id == session && id !in p.sessions && |WaitingOf(p, l.app)| < l.maxPending
               then Some(Session(l.app, l.principal, l.conn, true)) else SessionAt(p, id)
  {
    assert WaitingOf(p, l.app) == PendingOf(p.sessions, l.app);
  }

  lemma RouteSession(p: Plane, session: nat, stream: nat, protocol: bytes, data: bytes, eof: bool, id: nat)
    ensures var q := RouteIncomingStream(p, session, stream, protocol, data, eof).plane;
            var op := OpRouteIncomingStream(session, stream, protocol, data, eof);
            SessionAt(q, id) == if id in p.sessions then SessionAt(p, id) else Made(p, op, id)
  {
    FirstFound(p, protocol);
    RouteSessions(p, session, stream, protocol, data, eof);
    var found := FindListener(p.listeners, protocol);
    if found.Some? {
      assert FirstListener(p.listeners, protocol, found.value);
      AdmittedSession(p, found.value, session, id);
    }
  }

  lemma RouteDataSession(p: Plane, session: nat, stream: nat, protocol: bytes, data: bytes, eof: bool, id: nat)
    requires IndexExact(p.streams, p.index) && StreamsOwned(p.streams, p.sessions)
    ensures var q := RouteStreamData(p, session, stream, protocol, data, eof).plane;
            var op := OpRouteStreamData(session, stream, protocol, data, eof);
            SessionAt(q, id) == if id in p.sessions then SessionAt(p, id) else Made(p, op, id)
  {
    if (session, stream) in p.index {
      assert session in p.sessions;
    } else {
      RouteSession(p, session, stream, protocol, data, eof, id);
      FirstFound(p, protocol);
    }
  }

  lemma RemovalSession(p: Plane, op: Op, id: nat)
    requires op.OpRemoveSession? || op.OpRejectSession? || op.OpRemoveApplication?
    ensures SessionAt(Step(p, op), id) == if Clears(p, op, id) then None else SessionAt(p, id)
  {
  }

  lemma RemoveConnectionSession(p: Plane, conn: bytes, id: nat)
    ensures SessionAt(RemoveConnection(p, conn), id)
            == if Clears(p, OpRemoveConnection(conn), id) then None else SessionAt(p, id)
  {
    RemoveConnectionClears(p, conn, id);
  }

  lemma ChangeSession(p: Plane, op: Op, id: nat)
    requires op.OpBindSession? || op.OpOpenStream? || op.OpAcceptSession? || op.OpRebindApplication?
    ensures SessionAt(Step(p, op), id)
            == if id in p.sessions then Some(Kept(p, op, id, p.sessions[id])) else Made(p, op, id)
  {
  }

  lemma OtherSession(p: Plane, op: Op)
    requires !op.OpRemoveSession? && !op.OpRejectSession? && !op.OpRemoveApplication? && !op.OpRemoveConnection?
    requires !op.OpBindSession? && !op.OpOpenStream? && !op.OpAcceptSession? && !op.OpRebindApplication?
    requires !op.OpRouteIncomingStream? && !op.OpRouteStreamData?
    ensures Step(p, op).sessions == p.sessions
  {
  }

  /** Every operation does to every session exactly that. */
  lemma SessionStep(p: Plane, op: Op, id: nat)
    requires Inv(p)
    ensures SessionAt(Step(p, op), id) == Next(p, op, id, SessionAt(p, id))
  {
    if op.OpRemoveConnection? {
      RemoveConnectionSession(p, op.conn, id);
    } else if op.OpRemoveSession? || op.OpRejectSession? || op.OpRemoveApplication? {
      RemovalSession(p, op, id);
    } else if op.OpRouteIncomingStream? || op.OpRouteStreamData? {
      ArrivalSession(p, op, id);
    } else if op.OpBindSession? || op.OpOpenStream? || op.OpAcceptSession? || op.OpRebindApplication? {
      ChangeSession(p, op, id);
    } else {
      OtherSession(p, op);
    }
  }

  lemma ArrivalSession(p: Plane, op: Op, id: nat)
    requires Inv(p) && (op.OpRouteIncomingStream? || op.OpRouteStreamData?)
    ensures SessionAt(Step(p, op), id) == if id in p.sessions then SessionAt(p, id) else Made(p, op, id)
  {
    if op.OpRouteIncomingStream? {
      RouteSession(p, op.session, op.stream, op.protocol, op.data, op.eof, id);
    } else {
      RouteDataSession(p, op.session, op.stream, op.protocol, op.data, op.eof, id);
    }
  }

  /** The session as a run from a new plane makes it. */
  ghost function Story(ops: seq<Op>, id: nat): Option<Session> {
    if ops == [] then None
    else Next(Run(EMPTY_PLANE, ops[..|ops| - 1]), ops[|ops| - 1], id, Story(ops[..|ops| - 1], id))
  }

  /** Over every run from a new plane, the sessions are exactly those of their stories. */
  lemma {:induction false} SessionStory(ops: seq<Op>, id: nat)
    requires |ops| < U64_MAX
    ensures SessionAt(Run(EMPTY_PLANE, ops), id) == Story(ops, id)
  {
    if ops != [] {
      SessionStory(ops[..|ops| - 1], id);
      ReachableInv(ops[..|ops| - 1]);
      SessionStep(Run(EMPTY_PLANE, ops[..|ops| - 1]), ops[|ops| - 1], id);
    }
  }
}
