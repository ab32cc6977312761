/**
 The control connection: hello, requests and draining, one envelope at a time,
 with the replay cache in front of the dispatcher.

 Clocks, authorization, cancellation flags raised by other threads, fresh
 connection ids and the dispatcher's answers are inputs of each turn. The
 dispatcher is assumed not to touch the connection's protocol fields.
 */
module ControlTransport {
  import opened Bytes
  import opened Idempotency

  const SEQUENCE_GAP_THRESHOLD: nat := 1024
  const MAX_CLIENT_NAME_BYTES: nat := 128
  const CLIENT_INSTANCE_ID_BYTES: nat := 16
  const MAX_REQUESTED_FEATURES: nat := 64
  const MAX_FEATURE_NAME_BYTES: nat := 128
  const MIN_NEGOTIATED_ENVELOPE: nat := 1024
  const DEFAULT_ENVELOPE_MAX: nat := 4 * 1024 * 1024
  const MAX_ORDINARY_REQUEST_PAYLOAD: nat := 1024 * 1024
  const MIN_IDEMPOTENCY_KEY_BYTES: nat := 16
  const MAX_IDEMPOTENCY_KEY_BYTES: nat := 64
  const API_VERSION := (1, 0)

  datatype Status =
    | Cancelled | InvalidArgument | DeadlineExceeded | ResourceExhausted | Unavailable | IdempotencyConflict
    | OtherStatus(code: int)

  datatype Hello = Hello(
    name: bytes, instance: bytes, features: seq<bytes>, envelopeSize: nat, versions: seq<(nat, nat)>,
    token: Option<bytes>)

  datatype Request = Request(id: nat, service: bytes, call: bytes, key: bytes, payload: bytes, deadline: int)

  datatype Body =
    | ClientHello(hello: Hello)
    | Ask(request: Request)
    | Cancel(id: nat)
    | EventAck
    | GoAway
    | OtherBody

  datatype Envelope = Envelope(sequence: nat, body: Body)

  datatype Conn = Conn(
    peerAuthenticated: bool, token: Option<bytes>, hello: bool, id: bytes, envelopeMax: nat,
    nextSequence: nat, draining: bool, active: map<nat, bool>)

  /** What the environment supplies for one envelope. */
  datatype Inputs = Inputs(
    observe: bool,
    live: bool,
    cancelledEarly: bool,
    cancelledLate: bool,
    refused: Option<Status>,
    principal: nat,
    checkedAt: nat,
    now: nat,
    newId: bytes,
    answer: bytes)

  datatype Reply =
    | NoReply
    | Refusal(id: nat, status: Status)
    | ServerHello
    | Replayed(stored: bytes, id: nat)
    | Answered(answer: bytes)

  datatype Effect = Nothing | Greeted | Dispatched(request: Request)

  datatype Outcome = Outcome(conn: Conn, cache: Cache, reply: Reply, effect: Effect)

  function NewConn(peerAuthenticated: bool): Conn {
    Conn(peerAuthenticated, None, false, [], DEFAULT_ENVELOPE_MAX, 1, false, map[])
  }

  // ----- sequence numbers ---------------------------------------------------

  /** The next expected number, unless `sequence` is zero, old or too far ahead. */
  function Observe(next: nat, sequence: nat): Option<nat> {
    if sequence == 0 || sequence < next then None
    else if sequence > (if next + SEQUENCE_GAP_THRESHOLD > U64_MAX then U64_MAX else next + SEQUENCE_GAP_THRESHOLD)
    then None
    else Some(SaturatingIncrement(sequence))
  }

  // ----- hello --------------------------------------------------------------

  const SUPPORTED_FEATURES: seq<bytes> := [
    Ascii("control.events-v1"), Ascii("control.idempotency-v1"), Ascii("control.page-tokens-v1")]

  /** Enabled features, or nothing when the list is malformed. */
  function NegotiateFeatures(requested: seq<bytes>): Option<seq<bytes>> {
    if |requested| > MAX_REQUESTED_FEATURES then None else Enable(requested)
  }

  function Enable(requested: seq<bytes>): Option<seq<bytes>> {
    if requested == [] then Some([]) else
    var before, f := Enable(requested[..|requested| - 1]), requested[|requested| - 1];
    if before.None? || f == [] || |f| > MAX_FEATURE_NAME_BYTES then None
    else if f in SUPPORTED_FEATURES && f !in before.value then Some(before.value + [f])
    else before
  }

  function NegotiateEnvelopeSize(requested: nat): Option<nat> {
    if requested == 0 then Some(DEFAULT_ENVELOPE_MAX)
    else if requested < MIN_NEGOTIATED_ENVELOPE then None
    else Some(if requested < DEFAULT_ENVELOPE_MAX then requested else DEFAULT_ENVELOPE_MAX)
  }

  predicate HelloAcceptable(peerAuthenticated: bool, h: Hello) {
    peerAuthenticated
    && |h.name| <= MAX_CLIENT_NAME_BYTES
    && (h.instance == [] || |h.instance| == CLIENT_INSTANCE_ID_BYTES)
    && NegotiateFeatures(h.features).Some?
    && NegotiateEnvelopeSize(h.envelopeSize).Some?
    && (h.versions == [] || API_VERSION in h.versions)
  }

  function HandleHello(conn: Conn, cache: Cache, h: Hello, inp: Inputs): Outcome {
    if conn.hello || conn.draining then Outcome(conn.(draining := true), cache, NoReply, Nothing)
    else if HelloAcceptable(conn.peerAuthenticated, h) then
      Outcome(conn.(token := h.token, hello := true,
                    id := if conn.id == [] then inp.newId else conn.id,
                    envelopeMax := NegotiateEnvelopeSize(h.envelopeSize).value),
              cache, ServerHello, Greeted)
    else Outcome(conn.(token := None, draining := true), cache, NoReply, Nothing)
  }

  // ----- requests -----------------------------------------------------------

  function ValidationStatus(r: Request, now: nat): Option<Status> {
    if r.id == 0 then Some(InvalidArgument)
    else if r.deadline < 0 then Some(InvalidArgument)
    else if |r.payload| > MAX_ORDINARY_REQUEST_PAYLOAD then Some(ResourceExhausted)
    else if r.key != [] && !(MIN_IDEMPOTENCY_KEY_BYTES <= |r.key| <= MAX_IDEMPOTENCY_KEY_BYTES)
    then Some(InvalidArgument)
    else if r.deadline != 0 && r.deadline <= now then Some(DeadlineExceeded)
    else None
  }

  /** Principals share replay state across connections; without one the connection is the scope. */
  function CallOf(conn: Conn, r: Request, inp: Inputs): Call {
    var scope := if inp.principal == 0 then conn.id else BigEndian(inp.principal, 8);
    Call(Key(scope, r.service, r.call, r.key), r.payload, inp.now, inp.answer)
  }

  /** The checks that run while the request is registered for cancellation. */
  function Gate(registered: Conn, r: Request, inp: Inputs): Option<Status>
    requires !inp.live ==> r.id in registered.active
  {
    if (if inp.live then inp.cancelledEarly else registered.active[r.id]) then Some(Cancelled)
    else if inp.refused.Some? then inp.refused
    else if (if inp.live then inp.cancelledLate else registered.active[r.id]) then Some(Cancelled)
    else None
  }

  function Enter(conn: Conn, r: Request, inp: Inputs): Conn {
    if inp.live then conn else conn.(active := conn.active[r.id := false])
  }

  function Release(conn: Conn, r: Request, inp: Inputs): Conn {
    if inp.live then conn else conn.(active := conn.active - {r.id})
  }

  /** Past every check: consult the cache for keyed requests, then dispatch. */
  function Perform(hash: Hash, conn: Conn, cache: Cache, r: Request, inp: Inputs): Outcome {
    var left := Release(conn, r, inp);
    if r.key == [] then Outcome(left, cache, Answered(inp.answer), Dispatched(r)) else
    var call := CallOf(conn, r, inp);
    match Get(hash, cache, call.key, call.payload, call.now)
    case Replay(stored) => Outcome(left, cache, Replayed(stored, r.id), Nothing)
    case Conflict => Outcome(left, cache, Refusal(r.id, IdempotencyConflict), Nothing)
    case Miss =>
      Outcome(left, Insert(cache, call.key, Entry(inp.answer, hash(r.payload), inp.now)),
              Answered(inp.answer), Dispatched(r))
  }

  function HandleRequest(hash: Hash, conn: Conn, cache: Cache, r: Request, inp: Inputs): Outcome {
    if !conn.hello then Outcome(conn.(draining := true), cache, NoReply, Nothing)
    else if conn.draining then Outcome(conn, cache, Refusal(r.id, Unavailable), Nothing)
    else
      var invalid := ValidationStatus(r, inp.checkedAt);
      if invalid.Some? then Outcome(conn, cache, Refusal(r.id, invalid.value), Nothing)
      else if !inp.live && r.id in conn.active then Outcome(conn, cache, Refusal(r.id, InvalidArgument), Nothing)
      else
        var entered := Enter(conn, r, inp);
        var stopped := Gate(entered, r, inp);
        if stopped.Some? then Outcome(Release(entered, r, inp), cache, Refusal(r.id, stopped.value), Nothing)
        else Perform(hash, entered, cache, r, inp)
  }

  // ----- one envelope -------------------------------------------------------

  /** Frames other than hello and request: before the hello they end the connection. */
  function HandleOther(conn: Conn, cache: Cache, body: Body): Outcome {
    if !conn.hello then Outcome(conn.(draining := true), cache, NoReply, Nothing)
    else match body
         case Cancel(id) =>
           Outcome(if id in conn.active then conn.(active := conn.active[id := true]) else conn,
                   cache, NoReply, Nothing)
         case GoAway => Outcome(conn.(draining := true), cache, NoReply, Nothing)
         case _ => Outcome(conn, cache, NoReply, Nothing)
  }

  function HandleBody(hash: Hash, conn: Conn, cache: Cache, body: Body, inp: Inputs): Outcome {
    match body
    case ClientHello(h) => HandleHello(conn, cache, h, inp)
    case Ask(r) => HandleRequest(hash, conn, cache, r, inp)
    case _ => HandleOther(conn, cache, body)
  }

  function Handle(hash: Hash, conn: Conn, cache: Cache, env: Envelope, inp: Inputs): Outcome {
    if !inp.observe then HandleBody(hash, conn, cache, env.body, inp) else
    var next := Observe(conn.nextSequence, env.sequence);
    if next.None? then Outcome(conn.(draining := true), cache, NoReply, Nothing)
    else HandleBody(hash, conn.(nextSequence := next.value), cache, env.body, inp)
  }
}
