/**
 The local application data plane as values: the registry of listeners,
 sessions, streams, pending queues and datagram queues, and one function for
 each operation on it. `ApplicationDataPlane.dfy` holds the object that updates
 these containers in place; here every operation maps a plane to a plane.

 Sizes are natural numbers. The source adds sizes with saturating machine
 arithmetic before comparing with a 2 MiB bound, and a saturated sum is above
 that bound exactly when the true sum is.
 */
module DataPlane {
  import opened Bytes
  import opened Queues

  const MAX_STREAM_BUFFER_BYTES: nat := 2 * 1024 * 1024
  const MAX_DATAGRAM_QUEUE: nat := 256
  const MAX_DATAGRAM_BYTES: nat := 2 * 1024 * 1024
  const MAX_PENDING_SESSIONS: nat := 256

  datatype Error =
    NotFound | PermissionDenied | Pending | AlreadyAccepted | QueueFull | InvalidArgument | WouldBlock

  datatype Result<+T> = Ok(value: T) | Err(error: Error)

  datatype Listener = Listener(protocol: bytes, app: bytes, principal: nat, conn: bytes, maxPending: nat)

  datatype Session = Session(app: bytes, principal: nat, conn: bytes, pending: bool)

  datatype Stream = Stream(
    session: nat, stream: nat, app: bytes, principal: nat, conn: bytes, protocol: bytes,
    pending: bool, sendClosed: bool, eof: bool, reset: Option<nat>, queuedBytes: nat, queued: seq<bytes>)

  datatype Datagram = Datagram(context: nat, data: bytes, expired: bool)

  datatype DatagramQueue = DatagramQueue(bytes: nat, entries: seq<Datagram>)

  datatype StreamRead = StreamRead(data: bytes, eof: bool, reset: bool, errorCode: nat)

  datatype Plane = Plane(
    listeners: seq<Listener>,
    sessions: map<nat, Session>,
    streams: map<bytes, Stream>,
    index: map<(nat, nat), bytes>,
    pendingSessions: seq<nat>,
    pendingStreams: seq<bytes>,
    datagrams: map<nat, DatagramQueue>,
    nextHandle: nat,
    nextDatagram: nat)

  /** What an operation leaves behind and what it answers. */
  datatype Outcome<+T> = Outcome(plane: Plane, result: Result<T>)

  const EMPTY_PLANE := Plane([], map[], map[], map[], [], [], map[], 1, 1)

  // ----- listeners ----------------------------------------------------------

  function ListenersExcept(ls: seq<Listener>, app: bytes, protocol: bytes): (r: seq<Listener>) {
    if ls == [] then [] else
    var front, l := ls[..|ls| - 1], ls[|ls| - 1];
    if l.app == app && l.protocol == protocol then ListenersExcept(front, app, protocol)
    else ListenersExcept(front, app, protocol) + [l]
  }

  function ListenersWithout(ls: seq<Listener>, apps: set<bytes>): (r: seq<Listener>) {
    if ls == [] then [] else
    var front, l := ls[..|ls| - 1], ls[|ls| - 1];
    if l.app in apps then ListenersWithout(front, apps) else ListenersWithout(front, apps) + [l]
  }

  function FindListener(ls: seq<Listener>, protocol: bytes): Option<Listener> {
    if ls == [] then None
    else if ls[0].protocol == protocol then Some(ls[0])
    else FindListener(ls[1..], protocol)
  }

  function ClampPending(n: nat): nat {
    if n < 1 then 1 else if n > MAX_PENDING_SESSIONS then MAX_PENDING_SESSIONS else n
  }

  function RegisterListener(p: Plane, protocol: bytes, app: bytes, principal: nat, conn: bytes, max: nat): Plane {
    p.(listeners := ListenersExcept(p.listeners, app, protocol)
                    + [Listener(protocol, app, principal, conn, ClampPending(max))])
  }

  function RemoveListener(p: Plane, app: bytes): Plane {
    p.(listeners := ListenersWithout(p.listeners, {app}))
  }

  // ----- removal ------------------------------------------------------------

  function StreamsOutside(streams: map<bytes, Stream>, ids: set<nat>): map<bytes, Stream> {
    map h | h in streams && streams[h].session !in ids :: streams[h]
  }

  function IndexOutside(index: map<(nat, nat), bytes>, ids: set<nat>): map<(nat, nat), bytes> {
    map k | k in index && k.0 !in ids :: index[k]
  }

  /** Drop the sessions `ids` with their streams, index rows, queues and pending entries. */
  function RemoveSessions(p: Plane, ids: set<nat>): Plane {
    var streams := StreamsOutside(p.streams, ids);
    p.(sessions := p.sessions - ids,
       datagrams := p.datagrams - ids,
       streams := streams,
       index := IndexOutside(p.index, ids),
       pendingSessions := Without(p.pendingSessions, ids),
       pendingStreams := Keep(p.pendingStreams, streams.Keys))
  }

  function RemoveSession(p: Plane, id: nat): Plane {
    RemoveSessions(p, {id})
  }

  function SessionsOf(p: Plane, apps: set<bytes>): set<nat> {
    set id | id in p.sessions && p.sessions[id].app in apps
  }

  function HandlesOf(p: Plane, apps: set<bytes>): set<bytes> {
    set h | h in p.streams && p.streams[h].app in apps
  }

  function IndexWithout(index: map<(nat, nat), bytes>, handles: set<bytes>): map<(nat, nat), bytes> {
    map k | k in index && index[k] !in handles :: index[k]
  }

  /** The plane with every record of `apps` gone and every other record as it was. */
  function RemoveApplications(p: Plane, apps: set<bytes>): Plane {
    var ids := SessionsOf(p, apps);
    p.(listeners := ListenersWithout(p.listeners, apps),
       sessions := p.sessions - ids,
       datagrams := p.datagrams - ids,
       streams := p.streams - HandlesOf(p, apps),
       index := IndexWithout(p.index, HandlesOf(p, apps)),
       pendingSessions := Without(p.pendingSessions, ids),
       pendingStreams := Without(p.pendingStreams, HandlesOf(p, apps)))
  }

  function RemoveApplication(p: Plane, app: bytes): Plane {
    RemoveApplications(p, {app})
  }

  function ListenerApps(ls: seq<Listener>, conn: bytes): set<bytes> {
    set i | 0 <= i < |ls| && ls[i].conn == conn :: ls[i].app
  }

  function SessionsOn(p: Plane, conn: bytes): set<nat> {
    set id | id in p.sessions && p.sessions[id].conn == conn
  }

  /** First the applications that listen on `conn`, then every session still on it. */
  function RemoveConnection(p: Plane, conn: bytes): Plane {
    var rest := RemoveApplications(p, ListenerApps(p.listeners, conn));
    RemoveSessions(rest, SessionsOn(rest, conn))
  }

  // ----- rebinding ----------------------------------------------------------

  function RebindListeners(ls: seq<Listener>, apps: set<bytes>, conn: bytes): (r: seq<Listener>)
    ensures |r| == |ls|
    ensures forall i :: 0 <= i < |ls| ==> r[i] == if ls[i].app in apps then ls[i].(conn := conn) else ls[i]
  {
    seq(|ls|, i requires 0 <= i < |ls| => if ls[i].app in apps then ls[i].(conn := conn) else ls[i])
  }

  function RebindSessions(sessions: map<nat, Session>, apps: set<bytes>, conn: bytes): map<nat, Session> {
    map id | id in sessions :: if sessions[id].app in apps then sessions[id].(conn := conn) else sessions[id]
  }

  function RebindStreams(streams: map<bytes, Stream>, apps: set<bytes>, conn: bytes): map<bytes, Stream> {
    map h | h in streams :: if streams[h].app in apps then streams[h].(conn := conn) else streams[h]
  }

  /** Move every record of `apps` to the control connection `conn`. */
  function RebindApplications(p: Plane, apps: set<bytes>, conn: bytes): Plane {
    p.(listeners := RebindListeners(p.listeners, apps, conn),
       sessions := RebindSessions(p.sessions, apps, conn),
       streams := RebindStreams(p.streams, apps, conn))
  }

  /** Every record of `app` belongs to `principal`. */
  predicate OwnedBy(p: Plane, app: bytes, principal: nat) {
    (forall i :: 0 <= i < |p.listeners| && p.listeners[i].app == app ==> p.listeners[i].principal == principal)
    && (forall id :: id in p.sessions && p.sessions[id].app == app ==> p.sessions[id].principal == principal)
    && (forall h :: h in p.streams && p.streams[h].app == app ==> p.streams[h].principal == principal)
  }

  function RebindApplication(p: Plane, app: bytes, principal: nat, conn: bytes): Outcome<()> {
    if !OwnedBy(p, app, principal) then Outcome(p, Err(PermissionDenied))
    else Outcome(RebindApplications(p, {app}, conn), Ok(()))
  }

  // ----- sessions -----------------------------------------------------------

  function AddSession(p: Plane, id: nat, s: Session): Plane {
    p.(sessions := p.sessions[id := s],
       pendingSessions := if s.pending then p.pendingSessions + [id] else p.pendingSessions)
  }

  function BindSession(p: Plane, id: nat, conn: bytes, app: bytes, principal: nat, pending: bool): Outcome<()> {
    if id in p.sessions then
      var s := p.sessions[id];
      if s.app != app || s.principal != principal || s.conn != conn
      then Outcome(p, Err(PermissionDenied)) else Outcome(p, Ok(()))
    else Outcome(AddSession(p, id, Session(app, principal, conn, pending)), Ok(()))
  }

  function AcceptSession(p: Plane, id: nat, principal: nat, conn: bytes): Outcome<()> {
    if id !in p.sessions then Outcome(p, Err(NotFound)) else
    var s := p.sessions[id];
    if s.principal != principal || s.conn != conn then Outcome(p, Err(PermissionDenied))
    else if !s.pending then Outcome(p, Err(AlreadyAccepted))
    else Outcome(p.(sessions := p.sessions[id := s.(pending := false)],
                    pendingSessions := Without(p.pendingSessions, {id})), Ok(()))
  }

  function RejectSession(p: Plane, id: nat, principal: nat, conn: bytes): Outcome<()> {
    if id !in p.sessions then Outcome(p, Err(NotFound)) else
    var s := p.sessions[id];
    if s.principal != principal || s.conn != conn then Outcome(p, Err(PermissionDenied))
    else Outcome(RemoveSession(p, id), Ok(()))
  }

  // ----- streams ------------------------------------------------------------

  /** The handle cut from counter value `id`: it, then its saturating successor. */
  function HandleOf(id: nat): (r: bytes)
    ensures |r| == 16
  {
    BigEndian(id, 8) + BigEndian(SaturatingIncrement(id), 8)
  }

  function AddStream(p: Plane, s: Stream): Plane {
    var h := HandleOf(p.nextHandle);
    p.(nextHandle := SaturatingIncrement(p.nextHandle),
       index := p.index[(s.session, s.stream) := h],
       streams := p.streams[h := s],
       pendingStreams := if s.pending then p.pendingStreams + [h] else p.pendingStreams)
  }

  function FreshStream(
    session: nat, stream: nat, app: bytes, principal: nat, conn: bytes, protocol: bytes, pending: bool): Stream
  {
    Stream(session, stream, app, principal, conn, protocol, pending, false, false, None, 0, [])
  }

  function OpenStream(
    p: Plane, principal: nat, conn: bytes, app: bytes, session: nat, stream: nat, protocol: bytes): Outcome<bytes>
  {
    var bound := BindSession(p, session, conn, app, principal, false);
    if bound.result.Err? then Outcome(bound.plane, Err(bound.result.error))
    else if (session, stream) in bound.plane.index then Outcome(bound.plane, Err(AlreadyAccepted))
    else Outcome(AddStream(bound.plane, FreshStream(session, stream, app, principal, conn, protocol, false)),
                 Ok(HandleOf(p.nextHandle)))
  }

  /** The pending sessions of one application. */
  function PendingOf(sessions: map<nat, Session>, app: bytes): set<nat> {
    set id | id in sessions && sessions[id].pending && sessions[id].app == app
  }

  /** Admit an unknown session under the listener's pending bound. */
  function AdmitSession(p: Plane, l: Listener, id: nat): (r: Outcome<()>)
    ensures r.result.Ok? ==> id in r.plane.sessions
    ensures r.result.Err? ==> r.plane == p && r.result.error == QueueFull
    ensures r.plane == p.(sessions := r.plane.sessions, pendingSessions := r.plane.pendingSessions)
  {
    if id in p.sessions then Outcome(p, Ok(()))
    else if |PendingOf(p.sessions, l.app)| >= l.maxPending then Outcome(p, Err(QueueFull))
    else Outcome(AddSession(p, id, Session(l.app, l.principal, l.conn, true)), Ok(()))
  }

  /** The plane in which stream (session, stream) has a handle. */
  function AttachStream(p: Plane, l: Listener, session: nat, stream: nat, protocol: bytes): (r: Plane)
    ensures (session, stream) in r.index
    ensures r.sessions == p.sessions && r.pendingSessions == p.pendingSessions
    ensures r.listeners == p.listeners && r.datagrams == p.datagrams && r.nextDatagram == p.nextDatagram
    ensures p.nextHandle <= r.nextHandle <= p.nextHandle + 1
  {
    if (session, stream) in p.index then p
    else AddStream(p, FreshStream(session, stream, l.app, l.principal, l.conn, protocol, true))
  }

  function RouteIncomingStream(
    p: Plane, session: nat, stream: nat, protocol: bytes, data: bytes, eof: bool): Outcome<bytes>
  {
    match FindListener(p.listeners, protocol)
    case None => Outcome(p, Err(NotFound))
    case Some(l) =>
      var admitted := AdmitSession(p, l, session);
      if admitted.result.Err? then Outcome(admitted.plane, Err(admitted.result.error))
      else if admitted.plane.sessions[session].app != l.app then Outcome(admitted.plane, Err(PermissionDenied))
      else
        var attached := AttachStream(admitted.plane, l, session, stream, protocol);
        var h := attached.index[(session, stream)];
        var pushed := PushStreamData(attached, h, data, eof);
        Outcome(pushed.plane, if pushed.result.Err? then Err(pushed.result.error) else Ok(h))
  }

  function RouteStreamData(
    p: Plane, session: nat, stream: nat, protocol: bytes, data: bytes, eof: bool): Outcome<bool>
  {
    if (session, stream) in p.index then
      var h := p.index[(session, stream)];
      if h !in p.streams then Outcome(p, Err(NotFound))
      else if p.streams[h].protocol != protocol then Outcome(p, Err(PermissionDenied))
      else
        var pushed := PushStreamData(p, h, data, eof);
        Outcome(pushed.plane, if pushed.result.Err? then Err(pushed.result.error) else Ok(true))
    else if FindListener(p.listeners, protocol).Some? then
      var routed := RouteIncomingStream(p, session, stream, protocol, data, eof);
      Outcome(routed.plane, if routed.result.Err? then Err(routed.result.error) else Ok(true))
    else Outcome(p, Ok(false))
  }

  /** The error of an owner-checked stream lookup, if any. */
  function StreamDenied(p: Plane, h: bytes, principal: nat, conn: bytes): Option<Error> {
    if h !in p.streams then Some(NotFound)
    else if p.streams[h].principal != principal || p.streams[h].conn != conn then Some(PermissionDenied)
    else None
  }

  function AcceptStream(p: Plane, h: bytes, principal: nat, conn: bytes): Outcome<()> {
    match StreamDenied(p, h, principal, conn)
    case Some(e) => Outcome(p, Err(e))
    case None =>
      var s := p.streams[h];
      if !s.pending then Outcome(p, Err(AlreadyAccepted))
      else Outcome(p.(streams := p.streams[h := s.(pending := false)],
                      pendingStreams := Without(p.pendingStreams, {h})), Ok(()))
  }

  function RejectStream(p: Plane, h: bytes, principal: nat, conn: bytes): Outcome<()> {
    match StreamDenied(p, h, principal, conn)
    case Some(e) => Outcome(p, Err(e))
    case None =>
      var s := p.streams[h];
      Outcome(p.(streams := p.streams - {h},
                 index := p.index - {(s.session, s.stream)},
                 pendingStreams := Without(p.pendingStreams, {h})), Ok(()))
  }

  function PushStreamData(p: Plane, h: bytes, data: bytes, eof: bool): (r: Outcome<()>)
    ensures r.plane == p.(streams := r.plane.streams) && r.plane.streams.Keys == p.streams.Keys
  {
    if h !in p.streams then Outcome(p, Err(NotFound)) else
    var s := p.streams[h];
    if s.queuedBytes + |data| > MAX_STREAM_BUFFER_BYTES then Outcome(p, Err(QueueFull))
    else Outcome(p.(streams := p.streams[h := PushedStream(s, data, eof)]), Ok(()))
  }

  /** Empty data is not queued. */
  function PushedStream(s: Stream, data: bytes, eof: bool): Stream {
    s.(queuedBytes := s.queuedBytes + |data|,
       eof := s.eof || eof,
       queued := if data == [] then s.queued else s.queued + [data])
  }

  function ResetStream(s: Stream, code: nat): Stream {
    s.(reset := Some(code), queued := [], queuedBytes := 0)
  }

  function MarkStreamReset(p: Plane, h: bytes, principal: nat, conn: bytes, code: nat): Outcome<()> {
    match StreamDenied(p, h, principal, conn)
    case Some(e) => Outcome(p, Err(e))
    case None => Outcome(p.(streams := p.streams[h := ResetStream(p.streams[h], code)]), Ok(()))
  }

  function MarkStreamResetForSession(p: Plane, session: nat, stream: nat, code: nat): Outcome<bool> {
    if (session, stream) !in p.index then Outcome(p, Ok(false)) else
    var h := p.index[(session, stream)];
    if h !in p.streams then Outcome(p, Err(NotFound))
    else Outcome(p.(streams := p.streams[h := ResetStream(p.streams[h], code)]), Ok(true))
  }

  /** One read of at most `max` bytes from a stream that is neither pending nor reset. */
  function ReadQueue(s: Stream, max: nat): (Stream, StreamRead)
    requires s.queued != []
  {
    var front, rest := s.queued[0], s.queued[1..];
    var left := SaturatingSub(s.queuedBytes, |front|);
    var eof := s.eof && rest == [];
    if |front| > max then
      var tail := front[max..];
      (s.(queuedBytes := left + |tail|, queued := [tail] + rest), StreamRead(front[..max], eof, false, 0))
    else
      (s.(queuedBytes := left, queued := rest), StreamRead(front, eof, false, 0))
  }

  function ReadStream(
    p: Plane, h: bytes, principal: nat, conn: bytes, max: nat, wait: bool): Outcome<Option<StreamRead>>
  {
    match StreamDenied(p, h, principal, conn)
    case Some(e) => Outcome(p, Err(e))
    case None =>
      var s := p.streams[h];
      if s.pending then Outcome(p, Err(Pending))
      else if s.reset.Some? then Outcome(p, Ok(Some(StreamRead([], false, true, s.reset.value))))
      else if max == 0 then Outcome(p, Err(InvalidArgument))
      else if s.queued == [] then
        if s.eof then Outcome(p, Ok(Some(StreamRead([], true, false, 0))))
        else if wait then Outcome(p, Err(WouldBlock))
        else Outcome(p, Ok(None))
      else
        var (s', read) := ReadQueue(s, max);
        Outcome(p.(streams := p.streams[h := s']), Ok(Some(read)))
  }

  function CloseStreamSend(p: Plane, h: bytes, principal: nat, conn: bytes): Outcome<()> {
    match StreamDenied(p, h, principal, conn)
    case Some(e) => Outcome(p, Err(e))
    case None => Outcome(p.(streams := p.streams[h := p.streams[h].(sendClosed := true)]), Ok(()))
  }

  // ----- datagrams ----------------------------------------------------------

  function DatagramsOf(p: Plane, id: nat): DatagramQueue {
    if id in p.datagrams then p.datagrams[id] else DatagramQueue(0, [])
  }

  /** Looking a queue up creates it, so a refused datagram leaves an empty queue behind. */
  function PushDatagram(p: Plane, id: nat, context: nat, data: bytes, expired: bool): Outcome<()> {
    var q := DatagramsOf(p, id);
    if |q.entries| >= MAX_DATAGRAM_QUEUE || q.bytes + |data| > MAX_DATAGRAM_BYTES
    then Outcome(p.(datagrams := p.datagrams[id := q]), Err(QueueFull))
    else Outcome(p.(datagrams := p.datagrams[id :=
                      DatagramQueue(q.bytes + |data|, q.entries + [Datagram(context, data, expired)])]), Ok(()))
  }

  function ReceiveDatagram(p: Plane, id: nat, conn: bytes, max: nat, wait: bool): Outcome<Option<Datagram>> {
    if id !in p.sessions then Outcome(p, Err(NotFound))
    else if p.sessions[id].conn != conn then Outcome(p, Err(PermissionDenied))
    else if max == 0 then Outcome(p, Err(InvalidArgument))
    else
      var q := DatagramsOf(p, id);
      var touched := p.(datagrams := p.datagrams[id := q]);
      if q.entries == [] then
        if wait then Outcome(touched, Err(WouldBlock)) else Outcome(touched, Ok(None))
      else if |q.entries[0].data| > max then Outcome(touched, Err(InvalidArgument))
      else Outcome(p.(datagrams := p.datagrams[id :=
                        DatagramQueue(SaturatingSub(q.bytes, |q.entries[0].data|), q.entries[1..])]),
                   Ok(Some(q.entries[0])))
  }

  function AllocateDatagramId(p: Plane): (Plane, nat) {
    (p.(nextDatagram := SaturatingIncrement(p.nextDatagram)), p.nextDatagram)
  }

  // ----- runs ---------------------------------------------------------------

  datatype Op =
    | OpRegisterListener(protocol: bytes, app: bytes, principal: nat, conn: bytes, max: nat)
    | OpRemoveListener(app: bytes)
    | OpRemoveApplication(app: bytes)
    | OpRemoveConnection(conn: bytes)
    | OpRebindApplication(app: bytes, principal: nat, conn: bytes)
    | OpRemoveSession(id: nat)
    | OpBindSession(id: nat, conn: bytes, app: bytes, principal: nat, pending: bool)
    | OpAcceptSession(id: nat, principal: nat, conn: bytes)
    | OpRejectSession(id: nat, principal: nat, conn: bytes)
    | OpOpenStream(principal: nat, conn: bytes, app: bytes, session: nat, stream: nat, protocol: bytes)
    | OpRouteIncomingStream(session: nat, stream: nat, protocol: bytes, data: bytes, eof: bool)
    | OpRouteStreamData(session: nat, stream: nat, protocol: bytes, data: bytes, eof: bool)
    | OpAcceptStream(h: bytes, principal: nat, conn: bytes)
    | OpRejectStream(h: bytes, principal: nat, conn: bytes)
    | OpPushStreamData(h: bytes, data: bytes, eof: bool)
    | OpMarkStreamReset(h: bytes, principal: nat, conn: bytes, code: nat)
    | OpMarkStreamResetForSession(session: nat, stream: nat, code: nat)
    | OpReadStream(h: bytes, principal: nat, conn: bytes, max: nat, wait: bool)
    | OpCloseStreamSend(h: bytes, principal: nat, conn: bytes)
    | OpPushDatagram(id: nat, context: nat, data: bytes, expired: bool)
    | OpReceiveDatagram(id: nat, conn: bytes, max: nat, wait: bool)
    | OpAllocateDatagramId

  function Step(p: Plane, op: Op): Plane {
    match op
    case OpRegisterListener(protocol, app, principal, conn, max) =>
      RegisterListener(p, protocol, app, principal, conn, max)
    case OpRemoveListener(app) => RemoveListener(p, app)
    case OpRemoveApplication(app) => RemoveApplication(p, app)
    case OpRemoveConnection(conn) => RemoveConnection(p, conn)
    case OpRebindApplication(app, principal, conn) => RebindApplication(p, app, principal, conn).plane
    case OpRemoveSession(id) => RemoveSession(p, id)
    case OpBindSession(id, conn, app, principal, pending) => BindSession(p, id, conn, app, principal, pending).plane
    case OpAcceptSession(id, principal, conn) => AcceptSession(p, id, principal, conn).plane
    case OpRejectSession(id, principal, conn) => RejectSession(p, id, principal, conn).plane
    case OpOpenStream(principal, conn, app, session, stream, protocol) =>
      OpenStream(p, principal, conn, app, session, stream, protocol).plane
    case OpRouteIncomingStream(session, stream, protocol, data, eof) =>
      RouteIncomingStream(p, session, stream, protocol, data, eof).plane
    case OpRouteStreamData(session, stream, protocol, data, eof) =>
      RouteStreamData(p, session, stream, protocol, data, eof).plane
    case OpAcceptStream(h, principal, conn) => AcceptStream(p, h, principal, conn).plane
    case OpRejectStream(h, principal, conn) => RejectStream(p, h, principal, conn).plane
    case OpPushStreamData(h, data, eof) => PushStreamData(p, h, data, eof).plane
    case OpMarkStreamReset(h, principal, conn, code) => MarkStreamReset(p, h, principal, conn, code).plane
    case OpMarkStreamResetForSession(session, stream, code) =>
      MarkStreamResetForSession(p, session, stream, code).plane
    case OpReadStream(h, principal, conn, max, wait) => ReadStream(p, h, principal, conn, max, wait).plane
    case OpCloseStreamSend(h, principal, conn) => CloseStreamSend(p, h, principal, conn).plane
    case OpPushDatagram(id, context, data, expired) => PushDatagram(p, id, context, data, expired).plane
    case OpReceiveDatagram(id, conn, max, wait) => ReceiveDatagram(p, id, conn, max, wait).plane
    case OpAllocateDatagramId => AllocateDatagramId(p).0
  }

  /** The plane after a run of operations. */
  function Run(p: Plane, ops: seq<Op>): Plane {
    if ops == [] then p else Step(Run(p, ops[..|ops| - 1]), ops[|ops| - 1])
  }
}
