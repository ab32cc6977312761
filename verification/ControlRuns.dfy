/** The control protocol over every sequence of envelopes, on one connection and on many. */
module ControlRuns {
  import opened Bytes
  import opened Queues
  import opened Idempotency
  import opened ControlTransport

  // ----- one connection -----------------------------------------------------

  datatype Turn = Turn(env: Envelope, inp: Inputs)

  datatype State = State(conn: Conn, cache: Cache)

  function Take(hash: Hash, s: State, t: Turn): Outcome {
    Handle(hash, s.conn, s.cache, t.env, t.inp)
  }

  /** `states` are the states before, between and after the turns on a new connection. */
  ghost predicate Trace(hash: Hash, states: seq<State>, turns: seq<Turn>) {
    |states| == |turns| + 1
    && states[0].conn == NewConn(states[0].conn.peerAuthenticated)
    && (forall i {:trigger turns[i]} :: 0 <= i < |turns| ==> Follows(hash, states[i], turns[i], states[i + 1]))
  }

  predicate Follows(hash: Hash, s: State, t: Turn, s': State) {
    var out := Take(hash, s, t);
    s' == State(out.conn, out.cache)
  }

  function EffectOf(hash: Hash, states: seq<State>, turns: seq<Turn>, i: nat): Effect
    requires i < |turns| && |states| == |turns| + 1
  {
    Take(hash, states[i], turns[i]).effect
  }

  /** What one envelope may do to the protocol fields. */
  ghost predicate TurnFacts(s: State, effect: Effect, s': State) {
    s'.conn.active == map[]
    && (s.conn.draining ==> s'.conn.draining && effect == Nothing)
    && (s.conn.hello ==> s'.conn.hello)
    && (effect.Dispatched? ==> s.conn.hello)
    && (effect.Greeted? <==> !s.conn.hello && s'.conn.hello)
    && s.conn.nextSequence <= s'.conn.nextSequence
  }

  lemma TurnKeepsFacts(hash: Hash, s: State, t: Turn, s': State)
    requires s.conn.active == map[] && Follows(hash, s, t, s')
    ensures TurnFacts(s, Take(hash, s, t).effect, s')
  {
    if t.env.body.Ask? && !t.inp.live {
      var r := t.env.body.request;
      assert map[][r.id := false] - {r.id} == map[];
    }
  }

  /** Between envelopes no request is registered for cancellation, whichever way it ended. */
  lemma {:induction false} TableEmptyBetweenTurns(hash: Hash, states: seq<State>, turns: seq<Turn>, n: nat)
    requires Trace(hash, states, turns) && n <= |turns|
    ensures states[n].conn.active == map[]
  {
    if n > 0 {
      TableEmptyBetweenTurns(hash, states, turns, n - 1);
      var t := turns[n - 1];
      TurnKeepsFacts(hash, states[n - 1], t, states[n]);
    }
  }

  lemma EveryTurn(hash: Hash, states: seq<State>, turns: seq<Turn>, n: nat)
    requires Trace(hash, states, turns) && n < |turns|
    ensures TurnFacts(states[n], EffectOf(hash, states, turns, n), states[n + 1])
  {
    TableEmptyBetweenTurns(hash, states, turns, n);
    var t := turns[n];
    TurnKeepsFacts(hash, states[n], t, states[n + 1]);
  }

  lemma {:induction false} FlagsStay(hash: Hash, states: seq<State>, turns: seq<Turn>, m: nat, n: nat)
    requires Trace(hash, states, turns) && m <= n <= |turns|
    ensures (states[m].conn.draining ==> states[n].conn.draining) && (states[m].conn.hello ==> states[n].conn.hello)
    ensures states[m].conn.nextSequence <= states[n].conn.nextSequence
    decreases n - m
  {
    if m < n {
      FlagsStay(hash, states, turns, m, n - 1);
      EveryTurn(hash, states, turns, n - 1);
    }
  }

  /** Once draining, always draining, and nothing is dispatched or accepted any more. */
  lemma DrainingIsFinal(hash: Hash, states: seq<State>, turns: seq<Turn>, m: nat, n: nat)
    requires Trace(hash, states, turns) && m <= n < |turns| && states[m].conn.draining
    ensures states[n].conn.draining && EffectOf(hash, states, turns, n) == Nothing
  {
    FlagsStay(hash, states, turns, m, n);
    EveryTurn(hash, states, turns, n);
  }

  /** How many of the first `n` envelopes were accepted as a hello. */
  function Greetings(hash: Hash, states: seq<State>, turns: seq<Turn>, n: nat): nat
    requires n <= |turns| && |states| == |turns| + 1
  {
    if n == 0 then 0
    else Greetings(hash, states, turns, n - 1) + if EffectOf(hash, states, turns, n - 1).Greeted? then 1 else 0
  }

  /** At most one hello is accepted, and the connection remembers exactly whether one was. */
  lemma {:induction false} AtMostOneHello(hash: Hash, states: seq<State>, turns: seq<Turn>, n: nat)
    requires Trace(hash, states, turns) && n <= |turns|
    ensures Greetings(hash, states, turns, n) == if states[n].conn.hello then 1 else 0
  {
    if n > 0 {
      AtMostOneHello(hash, states, turns, n - 1);
      EveryTurn(hash, states, turns, n - 1);
    }
  }

  /** Nothing is dispatched before a hello has been accepted. */
  lemma NoDispatchBeforeHello(hash: Hash, states: seq<State>, turns: seq<Turn>, n: nat)
    requires Trace(hash, states, turns) && n < |turns| && EffectOf(hash, states, turns, n).Dispatched?
    ensures Greetings(hash, states, turns, n) == 1
  {
    EveryTurn(hash, states, turns, n);
    AtMostOneHello(hash, states, turns, n);
  }

  /** An observed envelope with any effect had the expected number or a small gap. */
  lemma EffectNeedsSequence(hash: Hash, s: State, t: Turn)
    requires t.inp.observe && Take(hash, s, t).effect != Nothing
    ensures s.conn.nextSequence <= t.env.sequence
    ensures t.env.sequence < U64_MAX ==> Take(hash, s, t).conn.nextSequence == t.env.sequence + 1
  {
  }

  /** Requests whose numbers are observed take effect in strictly increasing order of their numbers. */
  lemma EffectsInSequence(hash: Hash, states: seq<State>, turns: seq<Turn>, i: nat, j: nat)
    requires Trace(hash, states, turns) && i < j < |turns| && turns[i].inp.observe && turns[j].inp.observe
    requires EffectOf(hash, states, turns, i) != Nothing && EffectOf(hash, states, turns, j) != Nothing
    requires turns[i].env.sequence < U64_MAX
    ensures turns[i].env.sequence < turns[j].env.sequence
  {
    EffectNeedsSequence(hash, states[i], turns[i]);
    EffectNeedsSequence(hash, states[j], turns[j]);
    FlagsStay(hash, states, turns, i + 1, j);
  }

  // ----- enabled features ---------------------------------------------------

  /** The features granted are the supported ones among those asked for, each once. */
  lemma {:induction false} EnabledExact(requested: seq<bytes>)
    requires Enable(requested).Some?
    ensures Distinct(Enable(requested).value)
    ensures forall f :: f in Enable(requested).value <==> f in requested && f in SUPPORTED_FEATURES
  {
    if requested != [] {
      var front, f := requested[..|requested| - 1], requested[|requested| - 1];
      assert requested == front + [f];
      EnabledExact(front);
    }
  }

  // ----- many connections, one cache ----------------------------------------

  datatype World = World(conns: map<nat, Conn>, cache: Cache)

  /** An envelope on connection `on`; a new connection is opened by its first envelope. */
  datatype Arrival = Arrival(on: nat, peer: bool, turn: Turn)

  function ConnOf(w: World, a: Arrival): Conn {
    if a.on in w.conns then w.conns[a.on] else NewConn(a.peer)
  }

  function Arrive(hash: Hash, w: World, a: Arrival): Outcome {
    Handle(hash, ConnOf(w, a), w.cache, a.turn.env, a.turn.inp)
  }

  function Next(hash: Hash, w: World, a: Arrival): World {
    var out := Arrive(hash, w, a);
    World(w.conns[a.on := out.conn], out.cache)
  }

  function Worlds(hash: Hash, w: World, arrivals: seq<Arrival>): World {
    if arrivals == [] then w
    else Next(hash, Worlds(hash, w, arrivals[..|arrivals| - 1]), arrivals[|arrivals| - 1])
  }

  /** The connection as the request handler sees it. */
  function Sequenced(conn: Conn, t: Turn): Option<Conn> {
    if !t.inp.observe then Some(conn)
    else match Observe(conn.nextSequence, t.env.sequence)
         case None => None
         case Some(n) => Some(conn.(nextSequence := n))
  }

  /** The keyed call that an envelope brings to the replay cache: it is past every check. */
  function Reaches(conn: Conn, t: Turn): Option<Call> {
    var seen := Sequenced(conn, t);
    if seen.None? || !t.env.body.Ask? then None else
    var c, r := seen.value, t.env.body.request;
    if !c.hello || c.draining || ValidationStatus(r, t.inp.checkedAt).Some? then None
    else if !t.inp.live && r.id in c.active then None
    else if Gate(Enter(c, r, t.inp), r, t.inp).Some? || r.key == [] then None
    else Some(CallOf(c, r, t.inp))
  }

  /** The cache changes only through keyed calls, and a keyed call is dispatched exactly on a miss. */
  lemma CacheOnlyByCalls(hash: Hash, conn: Conn, cache: Cache, t: Turn)
    ensures var out := Handle(hash, conn, cache, t.env, t.inp);
            match Reaches(conn, t)
            case None => out.cache == cache
            case Some(call) =>
              out.cache == Serve(hash, cache, call)
              && (out.effect.Dispatched? <==> Dispatches(hash, cache, call))
              && t.env.body.Ask?
              && out.reply == match Get(hash, cache, call.key, call.payload, call.now)
                              case Miss => Answered(call.answer)
                              case Replay(stored) => Replayed(stored, t.env.body.request.id)
                              case Conflict => Refusal(t.env.body.request.id, IdempotencyConflict)
  {
  }

  /** The keyed calls of a run, in the order in which they reached the cache. */
  function Calls(hash: Hash, w: World, arrivals: seq<Arrival>): seq<Call> {
    if arrivals == [] then [] else
    var front, last := arrivals[..|arrivals| - 1], arrivals[|arrivals| - 1];
    var reached := Reaches(ConnOf(Worlds(hash, w, front), last), last.turn);
    Calls(hash, w, front) + if reached.Some? then [reached.value] else []
  }

  /** Whatever the connections do, the cache has served exactly those calls. */
  lemma {:induction false} CacheServesCalls(hash: Hash, w: World, arrivals: seq<Arrival>)
    ensures Worlds(hash, w, arrivals).cache == ServeAll(hash, w.cache, Calls(hash, w, arrivals))
  {
    if arrivals != [] {
      var front, last := arrivals[..|arrivals| - 1], arrivals[|arrivals| - 1];
      CacheServesCalls(hash, w, front);
      var before := Worlds(hash, w, front);
      CacheOnlyByCalls(hash, ConnOf(before, last), before.cache, last.turn);
      var reached := Reaches(ConnOf(before, last), last.turn);
      var calls := Calls(hash, w, front);
      if reached.Some? {
        assert (calls + [reached.value])[..|calls|] == calls;
      } else {
        assert calls + [] == calls;
      }
    }
  }

  /** Over every run of every set of connections the queue lists the keys of the map once, at most 1024 of them. */
  lemma WorldsKeepCacheInv(hash: Hash, w: World, arrivals: seq<Arrival>)
    requires CacheInv(w.cache)
    ensures CacheInv(Worlds(hash, w, arrivals).cache)
  {
    CacheServesCalls(hash, w, arrivals);
    ServeAllKeepsInv(hash, w.cache, Calls(hash, w, arrivals));
  }

  /** `again` brings the key of the request dispatched at `first`, in time and before 1024 keys have joined. */
  ghost predicate Repeated(hash: Hash, w: World, first: Arrival, between: seq<Arrival>, again: Arrival) {
    var one := Reaches(ConnOf(w, first), first.turn);
    var stored := Next(hash, w, first);
    var calls := Calls(hash, stored, between);
    var two := Reaches(ConnOf(Worlds(hash, stored, between), again), again.turn);
    one.Some? && Arrive(hash, w, first).effect.Dispatched? && two.Some? && two.value.key == one.value.key
    && Timely(calls + [two.value], one.value.key, one.value.now)
    && Followers(stored.cache.order, one.value.key) + NewKeys(hash, stored.cache, calls) < CAP
  }

  /**
   At most one dispatch over whole runs: a keyed request is dispatched at
   `first`; then any envelopes arrive on any connections; then `again` brings an
   authorised request with the same key. If it comes in time and fewer than 1024
   keys have joined the cache, it is not dispatched: an equal payload gets the
   stored answer under its own request id, another payload a conflict.
   */
  lemma AtMostOnce(hash: Hash, w: World, first: Arrival, between: seq<Arrival>, again: Arrival)
    requires CacheInv(w.cache) && Repeated(hash, w, first, between, again)
    ensures var one := Reaches(ConnOf(w, first), first.turn).value;
            var later := Worlds(hash, Next(hash, w, first), between);
            var two := Reaches(ConnOf(later, again), again.turn).value;
            var out := Arrive(hash, later, again);
            !out.effect.Dispatched? && again.turn.env.body.Ask?
            && out.reply == if hash(two.payload) == hash(one.payload)
                            then Replayed(one.answer, again.turn.env.body.request.id)
                            else Refusal(again.turn.env.body.request.id, IdempotencyConflict)
  {
    var one := Reaches(ConnOf(w, first), first.turn).value;
    CacheOnlyByCalls(hash, ConnOf(w, first), w.cache, first.turn);
    var stored := Next(hash, w, first);
    var later := Worlds(hash, stored, between);
    CacheServesCalls(hash, stored, between);
    var two := Reaches(ConnOf(later, again), again.turn).value;
    AtMostOneDispatch(hash, w.cache, one, Calls(hash, stored, between), two);
    CacheOnlyByCalls(hash, ConnOf(later, again), later.cache, again.turn);
  }
}
