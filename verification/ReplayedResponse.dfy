/** A stored response envelope sent again under the request id of the call that repeats it. */
module ReplayedResponse {
  import opened Bytes
  import opened Protobuf
  import opened Messages
  import opened MessageRoundTrip
  import opened ControlMessages
  import C = Codecs
  import I = Idempotency
  import R = ControlRuns
  import T = ControlTransport

  /** The place of the response in an envelope, and of the request id in a response. */
  const RESPONSE_AT: nat := 5
  const ID_AT: nat := 0

  predicate HasResponse(m: Record) {
    |m| == |ENVELOPE| && m[RESPONSE_AT].Sub? && m[RESPONSE_AT].sub.Some?
    && |m[RESPONSE_AT].sub.value| == |RESPONSE|
  }

  /** The envelope with another request id in its response. */
  function WithId(m: Record, id: nat): Record
    requires HasResponse(m)
  {
    m[RESPONSE_AT := Sub(Some(m[RESPONSE_AT].sub.value[ID_AT := Number(id)]))]
  }

  /** Anything but a response envelope is sent as it was stored. */
  function Rebind(v: C.Codec<nat>, stored: bytes, id: nat): bytes
    requires C.Inverts(v)
  {
    match Decode(v, ENVELOPE, stored)
    case None => stored
    case Some(m) => if HasResponse(m) then Encode(v, ENVELOPE, WithId(m, id)) else stored
  }

  /** The octets of a reply, where the connection knows them. */
  function Octets(v: C.Codec<nat>, reply: T.Reply): Option<bytes>
    requires C.Inverts(v)
  {
    match reply
    case Answered(answer) => Some(answer)
    case Replayed(stored, id) => Some(Rebind(v, stored, id))
    case NoReply => None
    case Refusal(_, _) => None
    case ServerHello => None
  }

  /** The envelope holds a response that leaves octets. */
  predicate Answers(v: C.Codec<nat>, m: Record) {
    HasResponse(m) && Encode(v, RESPONSE, m[RESPONSE_AT].sub.value) != []
  }

  lemma AnswersNormalised(v: C.Codec<nat>, m: Record)
    requires |m| == |ENVELOPE| && m[RESPONSE_AT].Sub? && (m[RESPONSE_AT].sub.Some? ==> HasResponse(m))
    ensures Answers(v, m) ==> Normalise(v, ENVELOPE, m)[RESPONSE_AT]
                              == Sub(Some(Normalise(v, RESPONSE, m[RESPONSE_AT].sub.value)))
    ensures HasResponse(Normalise(v, ENVELOPE, m)) <==> Answers(v, m)
  {
    NormaliseAt(v, ENVELOPE, m, RESPONSE_AT);
    assert ENVELOPE[RESPONSE_AT] == Spec(13, Message(RESPONSE));
  }

  lemma WithIdEncodes(v: C.Codec<nat>, m: Record, id: nat)
    requires Answers(v, m) && HasResponse(Normalise(v, ENVELOPE, m))
    requires Normalise(v, ENVELOPE, m)[RESPONSE_AT]
             == Sub(Some(Normalise(v, RESPONSE, m[RESPONSE_AT].sub.value)))
    ensures Encode(v, ENVELOPE, WithId(Normalise(v, ENVELOPE, m), id)) == Encode(v, ENVELOPE, WithId(m, id))
  {
    var response := m[RESPONSE_AT].sub.value;
    assert RESPONSE[ID_AT] == Spec(1, Unsigned);
    NormaliseSet(v, RESPONSE, response, ID_AT, Number(id));
    assert ENVELOPE[RESPONSE_AT] == Spec(13, Message(RESPONSE));
    EncodeSet(v, ENVELOPE, m, RESPONSE_AT, RESPONSE, response[ID_AT := Number(id)]);
  }

  /**
   What is sent again is what encoding the stored envelope with the new request id gives: nothing else of it changes.
   An envelope with no response is sent as it was stored.
   */
  lemma RebindChangesOnlyId(v: C.Codec<nat>, m: Record, id: nat)
    requires C.Inverts(v) && Good(v, ENVELOPE) && Fits(v, ENVELOPE, m)
    ensures Rebind(v, Encode(v, ENVELOPE, m), id)
            == Encode(v, ENVELOPE, if Answers(v, m) then WithId(m, id) else m)
  {
    FitsResponse(v, m);
    RoundTrip(v, ENVELOPE, m);
    AnswersNormalised(v, m);
    if Answers(v, m) {
      WithIdEncodes(v, m, id);
    }
  }

  /** Octets that are no envelope, or one without a response, are sent as they were stored. */
  lemma OthersSentAsStored(v: C.Codec<nat>, stored: bytes, id: nat)
    requires C.Inverts(v)
    ensures var m := Decode(v, ENVELOPE, stored);
            m.None? || !HasResponse(m.value) ==> Rebind(v, stored, id) == stored
  {
  }

  lemma FitsResponse(v: C.Codec<nat>, m: Record)
    requires Fits(v, ENVELOPE, m)
    ensures m[RESPONSE_AT].Sub? && (m[RESPONSE_AT].sub.Some? ==> HasResponse(m))
  {
    assert ENVELOPE[RESPONSE_AT] == Spec(13, Message(RESPONSE));
    assert FitsValue(v, ENVELOPE[RESPONSE_AT], m[RESPONSE_AT]);
    if m[RESPONSE_AT].sub.Some? {
      assert FitsSub(v, RESPONSE, m[RESPONSE_AT].sub.value);
      assert Fits(v, RESPONSE, m[RESPONSE_AT].sub.value);
    }
  }

  /**
   At most one dispatch, down to the octets: if the answer to `first` was the encoding of the response envelope `m`,
   an equal request that comes again in time is answered by the encoding of `m` under its own request id.
   */
  lemma ReplayedOctets(
    v: C.Codec<nat>, m: Record, hash: I.Hash, w: R.World, first: R.Arrival, between: seq<R.Arrival>, again: R.Arrival)
    requires C.Inverts(v) && Good(v, ENVELOPE) && Fits(v, ENVELOPE, m) && Answers(v, m)
    requires I.CacheInv(w.cache) && R.Repeated(hash, w, first, between, again)
    requires var one := R.Reaches(R.ConnOf(w, first), first.turn).value;
             var later := R.Worlds(hash, R.Next(hash, w, first), between);
             var two := R.Reaches(R.ConnOf(later, again), again.turn).value;
             one.answer == Encode(v, ENVELOPE, m) && hash(two.payload) == hash(one.payload)
    ensures var out := R.Arrive(hash, R.Worlds(hash, R.Next(hash, w, first), between), again);
            !out.effect.Dispatched? && again.turn.env.body.Ask?
            && Octets(v, out.reply) == Some(Encode(v, ENVELOPE, WithId(m, again.turn.env.body.request.id)))
  {
    R.AtMostOnce(hash, w, first, between, again);
    RebindChangesOnlyId(v, m, again.turn.env.body.request.id);
  }
}
