/**
 What one envelope does, said of its fields alone: when a connection is greeted, when it starts to drain, which requests
 are served and what the others are told, and which requests share a stored answer.
 */
module ControlLaws {
  import opened Bytes
  import opened Idempotency
  import opened ControlTransport
  import opened ControlRuns

  // ----- sequence numbers ---------------------------------------------------

  /** The number of an observed envelope is neither old nor more than 1024 ahead. */
  predicate InSequence(conn: Conn, env: Envelope, inp: Inputs) {
    inp.observe ==>
      0 < env.sequence && conn.nextSequence <= env.sequence <= U64_MAX && env.sequence <= conn.nextSequence + 1024
  }

  // ----- hello --------------------------------------------------------------

  predicate FeaturesFormed(features: seq<bytes>) {
    |features| <= 64 && forall i :: 0 <= i < |features| ==> 1 <= |features[i]| <= 128
  }

  lemma {:induction false} EnableExactly(features: seq<bytes>)
    ensures Enable(features).Some? <==> forall i :: 0 <= i < |features| ==> 1 <= |features[i]| <= 128
  {
    if features != [] {
      EnableExactly(features[..|features| - 1]);
    }
  }

  /** A hello within its bounds from an authenticated peer that offers this version or none. */
  predicate HelloFormed(h: Hello) {
    |h.name| <= 128 && (|h.instance| == 0 || |h.instance| == 16) && FeaturesFormed(h.features)
    && (h.envelopeSize == 0 || h.envelopeSize >= 1024) && (h.versions == [] || (1, 0) in h.versions)
  }

  predicate MayGreet(conn: Conn, env: Envelope, inp: Inputs) {
    InSequence(conn, env, inp) && env.body.ClientHello? && !conn.hello && !conn.draining && conn.peerAuthenticated
    && HelloFormed(env.body.hello)
  }

  /** The connection after its hello. */
  function Greeted(conn: Conn, env: Envelope, inp: Inputs): Conn
    requires env.body.ClientHello?
  {
    var size := env.body.hello.envelopeSize;
    Conn(conn.peerAuthenticated, env.body.hello.token, true, if conn.id == [] then inp.newId else conn.id,
         if size == 0 || size > 4_194_304 then 4_194_304 else size,
         if inp.observe then SaturatingIncrement(env.sequence) else conn.nextSequence, false, conn.active)
  }

  /** A hello is accepted exactly when it is well formed and the first on an authenticated connection. */
  lemma GreetedExactly(hash: Hash, conn: Conn, cache: Cache, env: Envelope, inp: Inputs)
    requires env.sequence <= U64_MAX
    ensures var out := Handle(hash, conn, cache, env, inp);
            (out.effect.Greeted? <==> MayGreet(conn, env, inp)) && (out.reply.ServerHello? <==> out.effect.Greeted?)
            && (out.effect.Greeted? ==> out.conn == Greeted(conn, env, inp) && out.cache == cache)
  {
    if env.body.ClientHello? {
      EnableExactly(env.body.hello.features);
    }
  }

  // ----- draining -----------------------------------------------------------

  /** A connection starts to drain at a bad number, a refused hello, anything before the hello, or a go-away. */
  lemma DrainsExactly(hash: Hash, conn: Conn, cache: Cache, env: Envelope, inp: Inputs)
    requires env.sequence <= U64_MAX
    ensures Handle(hash, conn, cache, env, inp).conn.draining
            <==> conn.draining || !InSequence(conn, env, inp) || env.body.GoAway?
                 || (if env.body.ClientHello? then !MayGreet(conn, env, inp) else !conn.hello)
  {
    if env.body.ClientHello? {
      EnableExactly(env.body.hello.features);
    }
  }

  /** A hello that is looked at and refused. */
  predicate Rebuffed(conn: Conn, env: Envelope, inp: Inputs) {
    InSequence(conn, env, inp) && env.body.ClientHello? && !conn.hello && !conn.draining && !MayGreet(conn, env, inp)
  }

  /** A cancellation of a request that is under way. */
  predicate Cancels(conn: Conn, env: Envelope, inp: Inputs) {
    InSequence(conn, env, inp) && env.body.Cancel? && conn.hello && env.body.id in conn.active
  }

  predicate Remembers(conn: Conn, env: Envelope, inp: Inputs, out: Conn) {
    out.nextSequence == (if !inp.observe || !InSequence(conn, env, inp) then conn.nextSequence
                         else if env.sequence < U64_MAX then env.sequence + 1 else U64_MAX)
    && out.token == (if MayGreet(conn, env, inp) then env.body.hello.token
                     else if Rebuffed(conn, env, inp) then None
                     else conn.token)
    && out.active == (if Cancels(conn, env, inp) then conn.active[env.body.id := true] else conn.active)
    && (out.hello <==> conn.hello || MayGreet(conn, env, inp))
    && out.peerAuthenticated == conn.peerAuthenticated
    && (!MayGreet(conn, env, inp) ==> out.id == conn.id && out.envelopeMax == conn.envelopeMax)
  }

  /** Whatever the envelope: the number to expect, the token and the table of requests change exactly so. */
  lemma RemembersExactly(hash: Hash, conn: Conn, cache: Cache, env: Envelope, inp: Inputs)
    requires env.sequence <= U64_MAX
    ensures Remembers(conn, env, inp, Handle(hash, conn, cache, env, inp).conn)
  {
    if env.body.ClientHello? {
      HelloRemembers(hash, conn, cache, env, inp);
    } else if env.body.Ask? {
      AskRemembers(hash, conn, cache, env, inp);
    } else {
      OtherRemembers(hash, conn, cache, env, inp);
    }
  }

  lemma HelloRemembers(hash: Hash, conn: Conn, cache: Cache, env: Envelope, inp: Inputs)
    requires env.sequence <= U64_MAX && env.body.ClientHello?
    ensures Remembers(conn, env, inp, Handle(hash, conn, cache, env, inp).conn)
  {
    EnableExactly(env.body.hello.features);
  }

  lemma AskRemembers(hash: Hash, conn: Conn, cache: Cache, env: Envelope, inp: Inputs)
    requires env.sequence <= U64_MAX && env.body.Ask?
    ensures Remembers(conn, env, inp, Handle(hash, conn, cache, env, inp).conn)
  {
    RequestKeeps(hash, conn, cache, env.body.request, inp);
    var next := Observe(conn.nextSequence, env.sequence);
    if next.Some? {
      RequestKeeps(hash, conn.(nextSequence := next.value), cache, env.body.request, inp);
    }
  }

  /** A request leaves the connection as it was, or draining. */
  lemma RequestKeeps(hash: Hash, conn: Conn, cache: Cache, r: Request, inp: Inputs)
    ensures HandleRequest(hash, conn, cache, r, inp).conn.(draining := conn.draining) == conn
  {
    assert r.id !in conn.active ==> conn.active[r.id := false] - {r.id} == conn.active;
  }

  lemma OtherRemembers(hash: Hash, conn: Conn, cache: Cache, env: Envelope, inp: Inputs)
    requires env.sequence <= U64_MAX && !env.body.ClientHello? && !env.body.Ask?
    ensures Remembers(conn, env, inp, Handle(hash, conn, cache, env, inp).conn)
  {
  }

  // ----- requests -----------------------------------------------------------

  /** Numbered, not too late, and within the bounds of payload and key. */
  predicate Formed(r: Request, inp: Inputs) {
    r.id != 0 && r.deadline >= 0 && (r.deadline == 0 || r.deadline > inp.checkedAt)
    && |r.payload| <= 1_048_576 && (|r.key| == 0 || 16 <= |r.key| <= 64)
  }

  /** What a malformed request is told. */
  function Complaint(r: Request): Status {
    if r.id == 0 || r.deadline < 0 then InvalidArgument
    else if |r.payload| > 1_048_576 then ResourceExhausted
    else if |r.key| != 0 && !(16 <= |r.key| <= 64) then InvalidArgument
    else DeadlineExceeded
  }

  /** The connection takes requests, and this envelope is next. */
  predicate Takes(conn: Conn, env: Envelope, inp: Inputs) {
    InSequence(conn, env, inp) && env.body.Ask? && conn.hello && !conn.draining
    && (inp.live || env.body.request.id !in conn.active)
  }

  /** Authorised, and not cancelled by another thread. */
  predicate Clear(inp: Inputs) {
    inp.refused.None? && (inp.live ==> !inp.cancelledEarly && !inp.cancelledLate)
  }

  /** The request was dispatched, or answered from the cache. */
  predicate Served(out: Outcome, r: Request, inp: Inputs) {
    (out.effect == Dispatched(r) && out.reply == Answered(inp.answer))
    || (out.effect == Nothing && out.reply.Replayed? && out.reply.id == r.id)
    || (out.effect == Nothing && out.reply == Refusal(r.id, IdempotencyConflict))
  }

  /** Dispatch and replay need every check; a request that passes them all is served, and at once if it has no key. */
  lemma ServedExactly(hash: Hash, conn: Conn, cache: Cache, env: Envelope, inp: Inputs)
    requires env.sequence <= U64_MAX
    ensures var out := Handle(hash, conn, cache, env, inp);
            (out.effect.Dispatched? || out.reply.Replayed? ==>
               Takes(conn, env, inp) && Formed(env.body.request, inp) && Clear(inp))
            && (Takes(conn, env, inp) && Formed(env.body.request, inp) && Clear(inp) ==>
                  Served(out, env.body.request, inp)
                  && (env.body.request.key == [] ==> out.effect == Dispatched(env.body.request)))
  {
  }

  /** Every other request on a greeted connection is told what was wrong with it, and nothing else happens. */
  lemma RefusedExactly(hash: Hash, conn: Conn, cache: Cache, env: Envelope, inp: Inputs)
    requires env.sequence <= U64_MAX && InSequence(conn, env, inp) && env.body.Ask? && conn.hello
    ensures var out := Handle(hash, conn, cache, env, inp);
            var r := env.body.request;
            (conn.draining ==> out.reply == Refusal(r.id, Unavailable))
            && (!conn.draining && !Formed(r, inp) ==> out.reply == Refusal(r.id, Complaint(r)))
            && (!conn.draining && Formed(r, inp) && !Takes(conn, env, inp) ==>
                  out.reply == Refusal(r.id, InvalidArgument))
            && (Takes(conn, env, inp) && Formed(r, inp) && inp.live && inp.cancelledEarly ==>
                  out.reply == Refusal(r.id, Cancelled))
            && (Takes(conn, env, inp) && Formed(r, inp) && !(inp.live && inp.cancelledEarly) && inp.refused.Some? ==>
                  out.reply == Refusal(r.id, inp.refused.value))
            && (Takes(conn, env, inp) && Formed(r, inp) && inp.refused.None? && inp.live && inp.cancelledLate ==>
                  out.reply == Refusal(r.id, Cancelled))
            && (!(Takes(conn, env, inp) && Formed(r, inp) && Clear(inp)) ==>
                  out.effect == Nothing && out.cache == cache)
  {
  }

  /** Over every trace of a connection: a turn dispatches or replays only for a request that passes every check. */
  lemma ServedOverTraces(hash: Hash, states: seq<State>, turns: seq<Turn>, i: nat)
    requires Trace(hash, states, turns) && i < |turns| && turns[i].env.sequence <= U64_MAX
    ensures var t, out := turns[i], Take(hash, states[i], turns[i]);
            (out.effect.Dispatched? || out.reply.Replayed? ==>
               t.env.body.Ask? && Formed(t.env.body.request, t.inp) && Clear(t.inp)
               && Greetings(hash, states, turns, i) == 1 && !states[i].conn.draining)
            && ((t.env.body.Ask? && Formed(t.env.body.request, t.inp) && Clear(t.inp)
                 && InSequence(states[i].conn, t.env, t.inp) && Greetings(hash, states, turns, i) == 1
                 && !states[i].conn.draining)
                ==> Served(out, t.env.body.request, t.inp))
  {
    TableEmptyBetweenTurns(hash, states, turns, i);
    AtMostOneHello(hash, states, turns, i);
    ServedExactly(hash, states[i].conn, states[i].cache, turns[i].env, turns[i].inp);
  }

  // ----- who shares an answer -----------------------------------------------

  /** The same service, method and key of the same principal or, without one, on the same connection. */
  predicate SameCaller(a: Conn, p: Inputs, r: Request, b: Conn, q: Inputs, s: Request) {
    r.service == s.service && r.call == s.call && r.key == s.key
    && p.principal == q.principal && (p.principal == 0 ==> a.id == b.id)
  }

  /** Connection ids have 16 octets and principals fit eight, so the two kinds of scope never meet. */
  predicate Identified(conn: Conn, inp: Inputs) {
    |conn.id| == 16 && inp.principal <= U64_MAX
  }

  lemma PrincipalOctets(p: nat, q: nat)
    requires p <= U64_MAX && q <= U64_MAX
    ensures BigEndian(p, 8) == BigEndian(q, 8) ==> p == q
    ensures |BigEndian(p, 8)| == 8
  {
    Pow256Values();
    BigEndianRoundTrip(p, 8);
    BigEndianRoundTrip(q, 8);
  }

  /** Two requests meet in the cache exactly when they have the same caller, service, method and key. */
  lemma SameKeyExactly(a: Conn, p: Inputs, r: Request, b: Conn, q: Inputs, s: Request)
    requires Identified(a, p) && Identified(b, q)
    ensures CallOf(a, r, p).key == CallOf(b, s, q).key <==> SameCaller(a, p, r, b, q, s)
  {
    PrincipalOctets(p.principal, q.principal);
    PrincipalOctets(q.principal, p.principal);
  }

  lemma HandleLookup(hash: Hash, conn: Conn, cache: Cache, other: Cache, env: Envelope, inp: Inputs)
    requires env.body.Ask? ==> var call := CallOf(conn, env.body.request, inp);
                               Get(hash, cache, call.key, call.payload, call.now)
                               == Get(hash, other, call.key, call.payload, call.now)
    ensures Handle(hash, conn, cache, env, inp).reply == Handle(hash, conn, other, env, inp).reply
    ensures Handle(hash, conn, cache, env, inp).effect == Handle(hash, conn, other, env, inp).effect
  {
  }

  /**
   One envelope changes what the next one is told only if both are requests of the same caller for the same service,
   method and key, or by making room in the cache, which only leads to a dispatch.
   */
  lemma AnswersSeparate(
    hash: Hash, cache: Cache, a: Conn, env: Envelope, p: Inputs, b: Conn, env': Envelope, q: Inputs)
    requires CacheInv(cache) && Identified(a, p) && Identified(b, q) && env.body.Ask? && env'.body.Ask?
    requires !SameCaller(a, p, env.body.request, b, q, env'.body.request)
    ensures var alone := Handle(hash, b, cache, env', q);
            var after := Handle(hash, b, Handle(hash, a, cache, env, p).cache, env', q);
            (after.reply == alone.reply && after.effect == alone.effect) || after.effect.Dispatched?
  {
    var mine, other := CallOf(a, env.body.request, p), CallOf(b, env'.body.request, q);
    SameKeyExactly(a, p, env.body.request, b, q, env'.body.request);
    CacheOnlyByCalls(hash, a, cache, Turn(env, p));
    var next := Handle(hash, a, cache, env, p).cache;
    if next != cache {
      assert next == Serve(hash, cache, mine);
      OtherEntries(hash, cache, mine, other.key);
    }
    if other.key in next.entries <==> other.key in cache.entries {
      HandleLookup(hash, b, cache, next, env', q);
    } else {
      GoneIsDispatched(hash, b, cache, next, env', q);
    }
  }

  /** Serving one call leaves every other entry as it was or evicts it. */
  lemma OtherEntries(hash: Hash, c: Cache, call: Call, k: Key)
    requires CacheInv(c) && k != call.key
    ensures var next := Serve(hash, c, call);
            k in next.entries ==> k in c.entries && next.entries[k] == c.entries[k]
  {
    if call.key !in c.entries {
      InsertNew(c, call.key, Entry(call.answer, hash(call.payload), call.now));
    }
  }

  lemma GoneIsDispatched(hash: Hash, conn: Conn, cache: Cache, next: Cache, env: Envelope, inp: Inputs)
    requires env.body.Ask? && CallOf(conn, env.body.request, inp).key !in next.entries
    ensures var alone, after := Handle(hash, conn, cache, env, inp), Handle(hash, conn, next, env, inp);
            (after.reply == alone.reply && after.effect == alone.effect) || after.effect.Dispatched?
  {
  }

  /** The request passes every check and names a key. */
  predicate Keyed(conn: Conn, env: Envelope, inp: Inputs) {
    Takes(conn, env, inp) && Formed(env.body.request, inp) && Clear(inp) && env.body.request.key != []
  }

  lemma KeyedReaches(conn: Conn, env: Envelope, inp: Inputs)
    requires env.sequence <= U64_MAX && Keyed(conn, env, inp)
    ensures Reaches(conn, Turn(env, inp)) == Some(CallOf(conn, env.body.request, inp))
  {
  }

  /**
   Of two keyed requests one after the other on a daemon that has stored nothing, the second is dispatched exactly when
   it has another caller, service, method or key, or comes 24 hours after the first; else it gets the first answer, or
   a conflict if its payload has another digest.
   */
  lemma SecondExactly(hash: Hash, a: Conn, env: Envelope, p: Inputs, b: Conn, env': Envelope, q: Inputs)
    requires env.sequence <= U64_MAX && env'.sequence <= U64_MAX && p.now + 86_400_000 <= U64_MAX
    requires Keyed(a, env, p) && Keyed(b, env', q) && Identified(a, p) && Identified(b, q)
    ensures var r, s := env.body.request, env'.body.request;
            var first := Handle(hash, a, EMPTY_CACHE, env, p);
            var second := Handle(hash, b, first.cache, env', q);
            first.effect == Dispatched(r)
            && if SameCaller(a, p, r, b, q, s) && q.now < p.now + 86_400_000 then
                 second.effect == Nothing
                 && second.reply == if hash(s.payload) == hash(r.payload) then Replayed(p.answer, s.id)
                                    else Refusal(s.id, IdempotencyConflict)
               else second.effect == Dispatched(s)
  {
    KeyedReaches(a, env, p);
    KeyedReaches(b, env', q);
    SameKeyExactly(a, p, env.body.request, b, q, env'.body.request);
    CacheOnlyByCalls(hash, a, EMPTY_CACHE, Turn(env, p));
    var cache := Handle(hash, a, EMPTY_CACHE, env, p).cache;
    CacheOnlyByCalls(hash, b, cache, Turn(env', q));
    ServedExactly(hash, a, EMPTY_CACHE, env, p);
    ServedExactly(hash, b, cache, env', q);
  }
}
