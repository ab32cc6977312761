/** The tables of the control messages, each entry a field number and a kind. */
module ControlMessages {
  import opened Bytes
  import opened Codecs
  import opened Protobuf
  import opened Messages
  import opened MessageRoundTrip

  /** Major and minor. */
  const API_VERSION: Schema := [Spec(1, Unsigned), Spec(2, Unsigned)]

  const TOKEN: Schema := [Spec(1, Raw)]

  /** Development token, which is printed first, and bearer token. */
  const CLIENT_AUTHENTICATION: Schema := [Spec(3, Message(TOKEN)), Spec(2, Message(TOKEN))]

  /** Versions, name, instance id, kind, authentication, requested envelope size and features. */
  const CLIENT_HELLO: Schema := [
    Spec(1, Messages(API_VERSION)), Spec(2, Text), Spec(3, Raw), Spec(4, Unsigned),
    Spec(5, Message(CLIENT_AUTHENTICATION)), Spec(6, Unsigned), Spec(7, Texts)]

  /** Capability and scope. */
  const CAPABILITY_GRANT: Schema := [Spec(1, Unsigned), Spec(2, Text)]

  /** Envelope size, concurrent and queued requests, event streams, backlog and backlog bytes. */
  const CONNECTION_LIMITS: Schema := [
    Spec(1, Unsigned), Spec(2, Unsigned), Spec(3, Unsigned), Spec(4, Unsigned), Spec(5, Unsigned), Spec(6, Unsigned)]

  /** Version, instance id, node state, connection id, principal id, grants, envelope size, features and limits. */
  const SERVER_HELLO: Schema := [
    Spec(1, Message(API_VERSION)), Spec(2, Raw), Spec(3, Unsigned), Spec(4, Raw), Spec(5, Raw),
    Spec(6, Messages(CAPABILITY_GRANT)), Spec(7, Unsigned), Spec(8, Texts), Spec(9, Message(CONNECTION_LIMITS))]

  /** Request id, service, method, deadline, idempotency key and payload. */
  const REQUEST: Schema := [
    Spec(1, Unsigned), Spec(2, Text), Spec(3, Text), Spec(4, Signed), Spec(5, Raw), Spec(6, Raw)]

  /** Type and value. */
  const STATUS_DETAIL: Schema := [Spec(1, Text), Spec(2, Raw)]

  /** Code, message, details and retry delay. */
  const STATUS: Schema := [
    Spec(1, Unsigned), Spec(2, Text), Spec(3, Messages(STATUS_DETAIL)), Spec(4, Unsigned)]

  /** Request id, status, payload and completion time. */
  const RESPONSE: Schema := [Spec(1, Unsigned), Spec(2, Message(STATUS)), Spec(3, Raw), Spec(4, Signed)]

  /** API version, sequence and the four bodies. */
  const ENVELOPE: Schema := [
    Spec(1, Message(API_VERSION)), Spec(2, Unsigned), Spec(10, Message(CLIENT_HELLO)),
    Spec(11, Message(SERVER_HELLO)), Spec(12, Message(REQUEST)), Spec(13, Message(RESPONSE))]

  // ----- the tables are well formed -----------------------------------------

  predicate SmallNumbers(schema: Schema) {
    (forall i :: 0 <= i < |schema| ==> 0 < schema[i].number < 100)
    && forall i, j :: 0 <= i < j < |schema| ==> schema[i].number != schema[j].number
  }

  ghost predicate Roomy(v: Codec<nat>) {
    forall x: nat {:trigger v.fits(x)} :: x < 1000 ==> v.fits(x)
  }

  lemma TableGood(v: Codec<nat>, schema: Schema)
    requires Roomy(v) && SmallNumbers(schema) && forall i :: 0 <= i < |schema| ==> GoodSpec(v, schema[i])
    ensures Good(v, schema)
  {
  }

  lemma VersionGood(v: Codec<nat>)
    requires Roomy(v)
    ensures Good(v, API_VERSION)
  {
    TableGood(v, API_VERSION);
  }

  lemma AuthenticationGood(v: Codec<nat>)
    requires Roomy(v)
    ensures Good(v, CLIENT_AUTHENTICATION)
  {
    TableGood(v, TOKEN);
    TableGood(v, CLIENT_AUTHENTICATION);
  }

  lemma ClientHelloGood(v: Codec<nat>)
    requires Roomy(v)
    ensures Good(v, CLIENT_HELLO)
  {
    VersionGood(v);
    AuthenticationGood(v);
    TableGood(v, CLIENT_HELLO);
  }

  lemma GrantsAndLimitsGood(v: Codec<nat>)
    requires Roomy(v)
    ensures Good(v, CAPABILITY_GRANT) && Good(v, CONNECTION_LIMITS)
  {
    TableGood(v, CAPABILITY_GRANT);
    TableGood(v, CONNECTION_LIMITS);
  }

  lemma ServerHelloGood(v: Codec<nat>)
    requires Roomy(v)
    ensures Good(v, SERVER_HELLO)
  {
    VersionGood(v);
    GrantsAndLimitsGood(v);
    TableGood(v, SERVER_HELLO);
  }

  lemma RequestGood(v: Codec<nat>)
    requires Roomy(v)
    ensures Good(v, REQUEST)
  {
    TableGood(v, REQUEST);
  }

  lemma StatusGood(v: Codec<nat>)
    requires Roomy(v)
    ensures Good(v, STATUS)
  {
    TableGood(v, STATUS_DETAIL);
    TableGood(v, STATUS);
  }

  lemma ResponseGood(v: Codec<nat>)
    requires Roomy(v)
    ensures Good(v, RESPONSE)
  {
    StatusGood(v);
    TableGood(v, RESPONSE);
  }

  lemma EnvelopeGood(v: Codec<nat>)
    requires Roomy(v)
    ensures Good(v, ENVELOPE)
  {
    VersionGood(v);
    ClientHelloGood(v);
    ServerHelloGood(v);
    RequestGood(v);
    ResponseGood(v);
    TableGood(v, ENVELOPE);
  }

  // ----- envelopes ----------------------------------------------------------

  /** Every envelope survives encoding and decoding up to its normal form, and encodes again to the same octets. */
  lemma EnvelopeRoundTrip(m: Record)
    requires Fits(Ten(), ENVELOPE, m)
    ensures Inverts(Ten())
    ensures Decode(Ten(), ENVELOPE, Encode(Ten(), ENVELOPE, m)) == Some(Normalise(Ten(), ENVELOPE, m))
    ensures Encode(Ten(), ENVELOPE, Normalise(Ten(), ENVELOPE, m)) == Encode(Ten(), ENVELOPE, m)
  {
    TenInverts();
    Pow128Ten();
    EnvelopeGood(Ten());
    RoundTrip(Ten(), ENVELOPE, m);
    EncodeNormalised(Ten(), ENVELOPE, m);
  }
}
