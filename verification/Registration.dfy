/**
 Application registration: the side tables that the control service keeps beside
 the data plane, and the register, unregister, listener and connection-close
 operations that update several of them together.

 The capability checks that precede a registration depend on the token table,
 which is not part of this model; their outcomes are inputs. So is the entropy
 resume token.
 */
module Registration {
  import opened Bytes
  import opened DataPlane

  const MAX_PROTOCOL_ID_LEN: nat := 64
  const INSTANCE_ID_LEN: nat := 16

  datatype Status =
    | StatusOk | StatusInvalidArgument | StatusPermissionDenied | StatusAlreadyExists | StatusNotFound
    | StatusUnimplemented | StatusOther(code: nat)

  /** A check made elsewhere: its value, or the status it refuses with. */
  datatype Checked<+T> = Passed(value: T) | Refused(status: Status)

  type Capabilities = seq<nat>
  type Grants = seq<nat>

  datatype Registered = Registered(
    name: bytes, instance: bytes, endpoints: seq<bytes>, protocols: seq<bytes>,
    capabilities: Capabilities, resumable: bool, grants: Grants, token: bytes)

  datatype Request = Request(
    name: bytes, instance: bytes, endpoints: seq<bytes>, protocols: seq<bytes>, resumable: bool,
    capabilities: Checked<Capabilities>, grants: Checked<Grants>)

  datatype Reply = Reply(status: Status, handle: bytes, grants: Grants, token: bytes)

  datatype Runtime = Runtime(
    protocols: map<bytes, seq<bytes>>,
    principals: map<bytes, nat>,
    connections: map<bytes, bytes>,
    registrations: map<bytes, Registered>,
    listening: set<bytes>,
    apps: map<bytes, bytes>,
    channels: set<bytes>,
    plane: Plane)

  datatype Answer = Answer(runtime: Runtime, reply: Reply)

  function Plain(status: Status): Reply {
    Reply(status, [], [], [])
  }

  function Refuse(rt: Runtime, status: Status): Answer {
    Answer(rt, Plain(status))
  }

  // ----- the protocol registry ----------------------------------------------

  /** The status of claiming `ps` one after another, stopping at the first failure. */
  function ClaimStatus(apps: set<bytes>, ps: seq<bytes>): Status
    decreases |ps|
  {
    if ps == [] then StatusOk
    else if |ps[0]| > MAX_PROTOCOL_ID_LEN then StatusInvalidArgument
    else if ps[0] in apps then StatusAlreadyExists
    else ClaimStatus(apps + {ps[0]}, ps[1..])
  }

  function AsSet(ps: seq<bytes>): set<bytes> {
    set p | p in ps
  }

  function Claimed(apps: map<bytes, bytes>, ps: seq<bytes>, name: bytes): map<bytes, bytes> {
    apps + map p | p in AsSet(ps) :: name
  }

  // ----- ownership ----------------------------------------------------------

  predicate OwnsHandle(rt: Runtime, h: bytes, principal: nat, conn: bytes) {
    h in rt.principals && rt.principals[h] == principal
    && (conn == [] || (h in rt.connections && rt.connections[h] == conn))
  }

  /** The owner check of the session and stream calls. */
  function OwnedApplication(rt: Runtime, h: bytes, principal: nat, conn: bytes): Status {
    if h !in rt.apps then StatusNotFound
    else if !OwnsHandle(rt, h, principal, conn) then StatusPermissionDenied
    else StatusOk
  }

  // ----- register -----------------------------------------------------------

  /** The resumable applications of `principal` with this instance id. */
  function Resumable(rt: Runtime, principal: nat, instance: bytes): set<bytes> {
    set h | h in rt.registrations && rt.registrations[h].resumable && rt.registrations[h].instance == instance
            && h in rt.principals && rt.principals[h] == principal
  }

  /** The checks that precede any lookup; the status they refuse with, if any. */
  function Screen(req: Request, principal: nat): Option<Status> {
    if req.name == [] || req.protocols == [] then Some(StatusInvalidArgument)
    else if req.resumable && principal == 0 then Some(StatusPermissionDenied)
    else if req.resumable && |req.instance| != INSTANCE_ID_LEN then Some(StatusInvalidArgument)
    else if req.capabilities.Refused? then Some(req.capabilities.status)
    else if req.grants.Refused? then Some(req.grants.status)
    else None
  }

  predicate SameRequest(m: Registered, req: Request) {
    m.name == req.name && m.endpoints == req.endpoints && m.protocols == req.protocols
    && req.capabilities.Passed? && m.capabilities == req.capabilities.value
  }

  /** Re-registration of the resumable application `h`. */
  function Resume(rt: Runtime, h: bytes, req: Request, principal: nat, conn: bytes): Answer
    requires h in rt.registrations && req.grants.Passed?
  {
    var m := rt.registrations[h];
    if h in rt.connections && rt.connections[h] != [] && rt.connections[h] != conn then Refuse(rt, StatusAlreadyExists)
    else if !SameRequest(m, req) then Refuse(rt, StatusAlreadyExists)
    else
      var moved := RebindApplication(rt.plane, h, principal, conn);
      var rt' := rt.(connections := rt.connections[h := conn], plane := moved.plane);
      if moved.result.Err? then Refuse(rt', StatusPermissionDenied)
      else Answer(rt'.(registrations := rt.registrations[h := m.(grants := req.grants.value)]),
                  Reply(StatusOk, h, req.grants.value, m.token))
  }

  /** First registration under the handle `req.protocols[0]`. */
  function Enroll(rt: Runtime, req: Request, principal: nat, conn: bytes, entropy: bytes): Answer
    requires req.protocols != [] && req.capabilities.Passed? && req.grants.Passed?
  {
    var status := ClaimStatus(rt.apps.Keys, req.protocols);
    if status != StatusOk then Refuse(rt, status) else
    var h := req.protocols[0];
    var token := if req.resumable then entropy else [];
    Answer(rt.(apps := Claimed(rt.apps, req.protocols, req.name),
               channels := rt.channels + AsSet(req.protocols),
               protocols := rt.protocols[h := req.protocols],
               principals := rt.principals[h := principal],
               connections := rt.connections[h := conn],
               registrations := rt.registrations[h := Registered(
                 req.name, req.instance, req.endpoints, req.protocols,
                 req.capabilities.value, req.resumable, req.grants.value, token)]),
           Reply(StatusOk, h, req.grants.value, token))
  }

  ghost function Register(rt: Runtime, req: Request, principal: nat, conn: bytes, entropy: bytes): Answer {
    var screened := Screen(req, principal);
    if screened.Some? then Refuse(rt, screened.value)
    else if req.resumable && Resumable(rt, principal, req.instance) != {} then
      var h :| h in Resumable(rt, principal, req.instance);
      Resume(rt, h, req, principal, conn)
    else Enroll(rt, req, principal, conn, entropy)
  }

  // ----- unregister ---------------------------------------------------------

  /** The tables once the applications `gone`, holding the protocol ids `ids`, have left. */
  function Forget(rt: Runtime, gone: set<bytes>, ids: set<bytes>): Runtime {
    rt.(protocols := rt.protocols - gone,
        principals := rt.principals - gone,
        connections := rt.connections - gone,
        registrations := rt.registrations - gone,
        listening := rt.listening - gone,
        apps := rt.apps - ids,
        channels := rt.channels - ids,
        plane := RemoveApplications(rt.plane, gone))
  }

  function ProtocolsOf(rt: Runtime, h: bytes): seq<bytes> {
    if h in rt.protocols then rt.protocols[h] else [h]
  }

  function Unregister(rt: Runtime, h: bytes, principal: nat, conn: bytes): Answer {
    if h !in rt.protocols && h !in rt.apps then Refuse(rt, StatusNotFound)
    else if !OwnsHandle(rt, h, principal, conn) then Refuse(rt, StatusPermissionDenied)
    else Answer(Forget(rt, {h}, AsSet(ProtocolsOf(rt, h))), Plain(StatusOk))
  }

  // ----- listeners ----------------------------------------------------------

  function OpenListener(
    rt: Runtime, h: bytes, principal: nat, conn: bytes, protocol: bytes, early: bool, max: nat): Answer
  {
    if h !in rt.apps then Refuse(rt, StatusNotFound)
    else if !OwnsHandle(rt, h, principal, conn) then Refuse(rt, StatusPermissionDenied)
    else if protocol != [] && protocol != h then Refuse(rt, StatusInvalidArgument)
    else if early then Refuse(rt, StatusUnimplemented)
    else if max == 0 then Refuse(rt, StatusInvalidArgument)
    else if h in rt.listening then Refuse(rt, StatusAlreadyExists)
    else Answer(rt.(listening := rt.listening + {h},
                    plane := RegisterListener(rt.plane, h, h, principal, conn, max)), Plain(StatusOk))
  }

  function CloseListener(rt: Runtime, h: bytes, principal: nat, conn: bytes): Answer {
    if h !in rt.listening then Refuse(rt, StatusNotFound)
    else if !OwnsHandle(rt, h, principal, conn) then Refuse(rt, StatusPermissionDenied)
    else Answer(rt.(listening := rt.listening - {h}, plane := RemoveListener(rt.plane, h)), Plain(StatusOk))
  }

  // ----- closing a connection -----------------------------------------------

  function HandlesOn(rt: Runtime, conn: bytes): set<bytes> {
    set h | h in rt.connections && rt.connections[h] == conn
  }

  predicate IsResumable(rt: Runtime, h: bytes) {
    h in rt.registrations && rt.registrations[h].resumable
  }

  function Suspended(rt: Runtime, handles: set<bytes>): set<bytes> {
    set h | h in handles && IsResumable(rt, h)
  }

  function Dropped(rt: Runtime, handles: set<bytes>): set<bytes> {
    set h | h in handles && !IsResumable(rt, h)
  }

  function ProtocolIds(protocols: map<bytes, seq<bytes>>, handles: set<bytes>): set<bytes> {
    set h, p | h in handles && h in protocols && p in protocols[h] :: p
  }

  /** Resumable applications of `handles` lose their connection but keep everything else. */
  function Suspend(rt: Runtime, handles: set<bytes>): Runtime {
    rt.(connections := map h | h in rt.connections :: if h in handles then [] else rt.connections[h],
        plane := RebindApplications(rt.plane, handles, []))
  }

  /** Suspend the resumable applications of the connection and forget the others. */
  function CloseConnection(rt: Runtime, conn: bytes): Runtime {
    if conn == [] then rt else
    var handles := HandlesOn(rt, conn);
    var dropped := Dropped(rt, handles);
    Forget(Suspend(rt, Suspended(rt, handles)), dropped, ProtocolIds(rt.protocols, dropped))
  }

  // ----- sessions and streams of an owned application -----------------------

  function Connect(rt: Runtime, h: bytes, principal: nat, conn: bytes, session: nat): Runtime {
    if OwnedApplication(rt, h, principal, conn) != StatusOk then rt
    else rt.(plane := BindSession(rt.plane, session, conn, h, principal, false).plane)
  }

  function StartStream(rt: Runtime, h: bytes, principal: nat, conn: bytes, session: nat, stream: nat): Runtime {
    if OwnedApplication(rt, h, principal, conn) != StatusOk then rt
    else
      var protocol := if h in rt.protocols && rt.protocols[h] != [] then rt.protocols[h][0] else [];
      rt.(plane := OpenStream(rt.plane, principal, conn, h, session, stream, protocol).plane)
  }

  // ----- runs ---------------------------------------------------------------

  datatype Event =
    | EvRegister(req: Request, principal: nat, conn: bytes, entropy: bytes)
    | EvUnregister(h: bytes, principal: nat, conn: bytes)
    | EvOpenListener(h: bytes, principal: nat, conn: bytes, protocol: bytes, early: bool, max: nat)
    | EvCloseListener(h: bytes, principal: nat, conn: bytes)
    | EvCloseConnection(conn: bytes)
    | EvConnect(h: bytes, principal: nat, conn: bytes, session: nat)
    | EvStartStream(h: bytes, principal: nat, conn: bytes, session: nat, stream: nat)
    | EvData(op: Op)

  /** Data-plane operations that no registration call makes: the transport's and those on existing handles. */
  predicate IsDataOp(op: Op) {
    !op.OpRegisterListener? && !op.OpRemoveListener? && !op.OpRemoveApplication? && !op.OpRemoveConnection?
    && !op.OpRebindApplication? && !op.OpBindSession? && !op.OpOpenStream?
  }

  /** Live connections have an id; the empty id marks a suspended application. */
  predicate Live(ev: Event) {
    match ev
    case EvRegister(req, principal, conn, entropy) => conn != []
    case EvUnregister(h, principal, conn) => conn != []
    case EvOpenListener(h, principal, conn, protocol, early, max) => conn != []
    case EvCloseListener(h, principal, conn) => conn != []
    case EvCloseConnection(conn) => true
    case EvConnect(h, principal, conn, session) => conn != []
    case EvStartStream(h, principal, conn, session, stream) => conn != []
    case EvData(op) => IsDataOp(op)
  }

  ghost function Next(rt: Runtime, ev: Event): Runtime {
    match ev
    case EvRegister(req, principal, conn, entropy) => Register(rt, req, principal, conn, entropy).runtime
    case EvUnregister(h, principal, conn) => Unregister(rt, h, principal, conn).runtime
    case EvOpenListener(h, principal, conn, protocol, early, max) =>
      OpenListener(rt, h, principal, conn, protocol, early, max).runtime
    case EvCloseListener(h, principal, conn) => CloseListener(rt, h, principal, conn).runtime
    case EvCloseConnection(conn) => CloseConnection(rt, conn)
    case EvConnect(h, principal, conn, session) => Connect(rt, h, principal, conn, session)
    case EvStartStream(h, principal, conn, session, stream) => StartStream(rt, h, principal, conn, session, stream)
    case EvData(op) => rt.(plane := Step(rt.plane, op))
  }

  ghost function History(rt: Runtime, evs: seq<Event>): Runtime {
    if evs == [] then rt else Next(History(rt, evs[..|evs| - 1]), evs[|evs| - 1])
  }

  /** A daemon that starts with the built-in protocol ids `apps` and no application. */
  function Initial(apps: map<bytes, bytes>, channels: set<bytes>): Runtime {
    Runtime(map[], map[], map[], map[], {}, apps, channels, EMPTY_PLANE)
  }
}
