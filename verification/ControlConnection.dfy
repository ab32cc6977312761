/** The control connection as the object whose fields an envelope updates in place. */
module ControlConnection {
  import opened Bytes
  import opened Idempotency
  import opened IdempotencyCache
  import opened IdempotencyStore
  import opened Store
  import opened ControlTransport

  /** The number a stored row is sealed under, and whether the store operations succeed. */
  datatype Write = Write(number: nat, deleteOk: bool, putOk: bool)

  /** Only a keyed request that was dispatched is written to the store, in the same step as to the cache. */
  function Recorded(v: Vault, conn: Conn, d: Disk, effect: Effect, inp: Inputs, w: Write): Disk {
    if effect.Dispatched? && effect.request.key != [] then
      var call := CallOf(conn, effect.request, inp);
      IdempotencyStore.InsertPersisted(v, d, call.key, call.answer, call.payload, call.now,
                                       w.number, w.deleteOk, w.putOk)
    else d
  }

  class ControlConnection {
    const peerAuthenticated: bool
    var token: Option<bytes>
    var hello: bool
    var id: bytes
    var envelopeMax: nat
    var nextSequence: nat
    var draining: bool
    var active: map<nat, bool>

    ghost function Snapshot(): Conn
      reads this
    {
      Conn(peerAuthenticated, token, hello, id, envelopeMax, nextSequence, draining, active)
    }

    constructor (peer: bool)
      ensures Snapshot() == NewConn(peer)
    {
      peerAuthenticated := peer;
      token, hello, id, envelopeMax := None, false, [], DEFAULT_ENVELOPE_MAX;
      nextSequence, draining, active := 1, false, map[];
    }

    method HandleEnvelope(v: Vault, cache: IdempotencyCache, store: Rows, env: Envelope, inp: Inputs, w: Write)
      returns (reply: Reply, effect: Effect, store': Rows)
      requires CacheInv(cache.Snapshot())
      modifies this, cache
      ensures CacheInv(cache.Snapshot())
      ensures Outcome(Snapshot(), cache.Snapshot(), reply, effect)
              == Handle(v.hash, old(Snapshot()), old(cache.Snapshot()), env, inp)
      ensures Disk(cache.Snapshot(), store')
              == Recorded(v, old(Snapshot()), Disk(old(cache.Snapshot()), store), effect, inp, w)
    {
      store' := store;
      if inp.observe {
        var next := Observe(nextSequence, env.sequence);
        if next.None? {
          draining := true;
          return NoReply, Nothing, store;
        }
        nextSequence := next.value;
      }
      if env.body.ClientHello? {
        reply, effect := OnHello(env.body.hello, inp);
      } else if env.body.Ask? {
        reply, effect, store' := OnRequest(v, cache, store, env.body.request, inp, w);
      } else {
        reply, effect := NoReply, Nothing;
        if !hello || env.body.GoAway? {
          draining := true;
        } else if env.body.Cancel? {
          if env.body.id in active {
            active := active[env.body.id := true];
          }
        }
      }
    }

    method OnHello(h: Hello, inp: Inputs) returns (reply: Reply, effect: Effect)
      modifies this
      ensures forall c :: Outcome(Snapshot(), c, reply, effect) == HandleHello(old(Snapshot()), c, h, inp)
    {
      if hello || draining {
        draining := true;
        return NoReply, Nothing;
      }
      token := h.token;
      if !HelloAcceptable(peerAuthenticated, h) {
        token := None;
        draining := true;
        return NoReply, Nothing;
      }
      if id == [] {
        id := inp.newId;
      }
      envelopeMax := NegotiateEnvelopeSize(h.envelopeSize).value;
      hello := true;
      reply, effect := ServerHello, Greeted;
    }

    method OnRequest(v: Vault, cache: IdempotencyCache, store: Rows, r: Request, inp: Inputs, w: Write)
      returns (reply: Reply, effect: Effect, store': Rows)
      requires CacheInv(cache.Snapshot())
      modifies this, cache
      ensures CacheInv(cache.Snapshot())
      ensures Outcome(Snapshot(), cache.Snapshot(), reply, effect)
              == HandleRequest(v.hash, old(Snapshot()), old(cache.Snapshot()), r, inp)
      ensures Disk(cache.Snapshot(), store')
              == Recorded(v, old(Snapshot()), Disk(old(cache.Snapshot()), store), effect, inp, w)
    {
      store' := store;
      effect := Nothing;
      if !hello {
        draining := true;
        return NoReply, effect, store;
      }
      if draining {
        return Refusal(r.id, Unavailable), effect, store;
      }
      var invalid := ValidationStatus(r, inp.checkedAt);
      if invalid.Some? {
        return Refusal(r.id, invalid.value), effect, store;
      }
      if !inp.live {
        if r.id in active {
          return Refusal(r.id, InvalidArgument), effect, store;
        }
        active := active[r.id := false];
      }
      if (if inp.live then inp.cancelledEarly else active[r.id]) {
        Leave(r, inp);
        return Refusal(r.id, Cancelled), effect, store;
      }
      if inp.refused.Some? {
        Leave(r, inp);
        return Refusal(r.id, inp.refused.value), effect, store;
      }
      if (if inp.live then inp.cancelledLate else active[r.id]) {
        Leave(r, inp);
        return Refusal(r.id, Cancelled), effect, store;
      }
      reply, effect, store' := OnCleared(v, cache, store, r, inp, w);
    }

    method Leave(r: Request, inp: Inputs)
      modifies this`active
      ensures Snapshot() == Release(old(Snapshot()), r, inp)
    {
      if !inp.live {
        active := active - {r.id};
      }
    }

    method OnCleared(v: Vault, cache: IdempotencyCache, store: Rows, r: Request, inp: Inputs, w: Write)
      returns (reply: Reply, effect: Effect, store': Rows)
      requires CacheInv(cache.Snapshot())
      modifies this, cache
      ensures CacheInv(cache.Snapshot())
      ensures Outcome(Snapshot(), cache.Snapshot(), reply, effect)
              == Perform(v.hash, old(Snapshot()), old(cache.Snapshot()), r, inp)
      ensures Disk(cache.Snapshot(), store')
              == Recorded(v, old(Snapshot()), Disk(old(cache.Snapshot()), store), effect, inp, w)
    {
      store' := store;
      if r.key != [] {
        var scope := if inp.principal == 0 then id else BigEndian(inp.principal, 8);
        var key := Key(scope, r.service, r.call, r.key);
        var found := cache.Lookup(v.hash, key, r.payload, inp.now);
        if found.Replay? {
          Leave(r, inp);
          return Replayed(found.response, r.id), Nothing, store;
        }
        if found.Conflict? {
          Leave(r, inp);
          return Refusal(r.id, IdempotencyConflict), Nothing, store;
        }
        store' := cache.InsertPersisted(v, store, key, inp.answer, r.payload, inp.now, w.number, w.deleteOk, w.putOk);
      }
      Leave(r, inp);
      reply, effect := Answered(inp.answer), Dispatched(r);
    }
  }
}
