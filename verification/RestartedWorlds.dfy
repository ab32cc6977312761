/**
 The daemon through any number of restarts: connections come and go, keyed requests are written to the cache and the
 store in one step, and each restart rebuilds the cache from the store.
 */
module RestartedWorlds {
  import opened Bytes
  import opened Store
  import opened Idempotency
  import opened IdempotencyStore
  import opened ControlTransport
  import opened ControlRuns
  import C = ControlConnection

  /** No connection survives a restart. */
  function Restarted(v: Vault, d: Disk, rows: seq<Row>, now: nat): World {
    World(map[], Restart(v, d.store, rows, now).cache)
  }

  /**
   A request that was dispatched and stored before a restart arrives again after it, its key unused in between. It is
   dispatched a second time exactly when it comes after the entry's life, or when the entries alive at the restart
   whose rows come after its own, together with the keys that have joined since, are 1024 or more.
   */
  lemma DispatchedAgainAfterRestart(
    v: Vault, d: Disk, keys: set<Key>, rows: seq<Row>, r: nat, arrivals: seq<Arrival>, again: Arrival)
    requires NoCollision(v, keys) && Agree(v, d, keys) && Scan(rows, d.store)
    requires var w := Restarted(v, d, rows, r);
             var two := Reaches(ConnOf(Worlds(v.hash, w, arrivals), again), again.turn);
             two.Some? && two.value.key in d.cache.entries && r < Expiry(d.cache.entries[two.value.key].at)
             && Unused(Calls(v.hash, w, arrivals), two.value.key)
    ensures var w := Restarted(v, d, rows, r);
            var later := Worlds(v.hash, w, arrivals);
            var two := Reaches(ConnOf(later, again), again.turn).value;
            Arrive(v.hash, later, again).effect.Dispatched?
            <==> two.now >= Expiry(d.cache.entries[two.key].at)
                 || |Behind(v, d.cache, r, two.key)| + NewKeys(v.hash, w.cache, Calls(v.hash, w, arrivals)) >= CAP
  {
    var w := Restarted(v, d, rows, r);
    var later := Worlds(v.hash, w, arrivals);
    var two := Reaches(ConnOf(later, again), again.turn).value;
    CacheServesCalls(v.hash, w, arrivals);
    CacheOnlyByCalls(v.hash, ConnOf(later, again), later.cache, again.turn);
    DispatchedAfterRestart(v, d, keys, rows, r, Calls(v.hash, w, arrivals), two);
  }

  // ----- any number of restarts ---------------------------------------------

  datatype Daemon = Daemon(conns: map<nat, Conn>, disk: Disk)

  /** An envelope and the number its row would be sealed under, a restart, or a write by others to the namespace. */
  datatype Moment =
    | Comes(arrival: Arrival, number: nat)
    | Reboots(rows: seq<Row>, now: nat)
    | Writes(key: bytes, value: Option<bytes>)

  /** The connection an envelope arrives on. */
  function Receiver(s: Daemon, a: Arrival): Conn {
    ConnOf(World(s.conns, s.disk.cache), a)
  }

  function Answer(v: Vault, s: Daemon, a: Arrival): Outcome {
    Handle(v.hash, Receiver(s, a), s.disk.cache, a.turn.env, a.turn.inp)
  }

  function Then(v: Vault, s: Daemon, m: Moment): Daemon {
    match m
    case Comes(a, number) =>
      var out := Answer(v, s, a);
      Daemon(s.conns[a.on := out.conn],
             C.Recorded(v, Receiver(s, a), s.disk, out.effect, a.turn.inp, C.Write(number, true, true)))
    case Reboots(rows, now) => Daemon(map[], Restart(v, s.disk.store, rows, now))
    case Writes(key, value) => s.(disk := After(v, s.disk, Other(key, value)))
  }

  function Days(v: Vault, s: Daemon, ms: seq<Moment>): Daemon {
    if ms == [] then s else Then(v, Days(v, s, ms[..|ms| - 1]), ms[|ms| - 1])
  }

  /** The keyed call that a moment brings to the cache, if any. */
  function CallAt(s: Daemon, m: Moment): Option<Call> {
    if m.Comes? then Reaches(Receiver(s, m.arrival), m.arrival.turn) else None
  }

  /** Keys are among `keys`, numbers fit, restarts scan the store they find, and others keep to other keys. */
  ghost predicate CanCome(s: Daemon, keys: set<Key>, m: Moment) {
    match m
    case Comes(a, number) => number <= U64_MAX && (CallAt(s, m).Some? ==> CallAt(s, m).value.key in keys)
    case Reboots(rows, now) => Scan(rows, s.disk.store)
    case Writes(key, value) => !StartsWith(key, PREFIX)
  }

  ghost predicate AllCanCome(v: Vault, s: Daemon, keys: set<Key>, ms: seq<Moment>) {
    ms == [] || (AllCanCome(v, s, keys, ms[..|ms| - 1])
                 && CanCome(Days(v, s, ms[..|ms| - 1]), keys, ms[|ms| - 1]))
  }

  /** How many keys stand behind `k` after a moment, if `n` do before it. */
  function AgeAfter(v: Vault, s: Daemon, k: Key, n: nat, m: Moment): nat {
    match m
    case Comes(_, _) => if CallAt(s, m).Some? && CallAt(s, m).value.key !in s.disk.cache.entries then n + 1 else n
    case Reboots(_, now) => |Behind(v, s.disk.cache, now, k)|
    case Writes(_, _) => n
  }

  function Age(v: Vault, s: Daemon, k: Key, n: nat, ms: seq<Moment>): nat {
    if ms == [] then n
    else AgeAfter(v, Days(v, s, ms[..|ms| - 1]), k, Age(v, s, k, n, ms[..|ms| - 1]), ms[|ms| - 1])
  }

  /** Calls with the key and restarts come within the life of the entry, and fewer than 1024 keys stand behind it. */
  predicate Spares(v: Vault, s: Daemon, k: Key, at: nat, n: nat, m: Moment) {
    match m
    case Comes(_, _) =>
      (CallAt(s, m).Some? && CallAt(s, m).value.key == k ==> CallAt(s, m).value.now < Expiry(at))
      && AgeAfter(v, s, k, n, m) < CAP
    case Reboots(_, now) => now < Expiry(at)
    case Writes(_, _) => true
  }

  predicate AllSpare(v: Vault, s: Daemon, k: Key, at: nat, n: nat, ms: seq<Moment>) {
    ms == [] || (AllSpare(v, s, k, at, n, ms[..|ms| - 1])
                 && Spares(v, Days(v, s, ms[..|ms| - 1]), k, at, Age(v, s, k, n, ms[..|ms| - 1]), ms[|ms| - 1]))
  }

  /** What an envelope does to memory and store together. */
  lemma ComesRecords(v: Vault, s: Daemon, a: Arrival, number: nat)
    ensures var call := CallAt(s, Comes(a, number));
            var disk := Then(v, s, Comes(a, number)).disk;
            disk == if call.Some? && Dispatches(v.hash, s.disk.cache, call.value)
                    then InsertPersisted(v, s.disk, call.value.key, call.value.answer, call.value.payload,
                                         call.value.now, number, true, true)
                    else s.disk
  {
    CacheOnlyByCalls(v.hash, Receiver(s, a), s.disk.cache, a.turn);
    DispatchedKeyed(v.hash, Receiver(s, a), s.disk.cache, a.turn);
  }

  /** A keyed request that is dispatched is the call that reached the cache. */
  lemma DispatchedKeyed(hash: Hash, conn: Conn, cache: Cache, t: Turn)
    ensures var effect := Handle(hash, conn, cache, t.env, t.inp).effect;
            effect.Dispatched? && effect.request.key != [] ==>
              Reaches(conn, t) == Some(CallOf(conn, effect.request, t.inp))
    ensures var effect := Handle(hash, conn, cache, t.env, t.inp).effect;
            effect.Dispatched? && Reaches(conn, t).Some? ==> effect.request.key != []
  {
  }

  /** Memory and store agree after every moment. */
  lemma MomentAgrees(v: Vault, s: Daemon, keys: set<Key>, m: Moment)
    requires Sound(v) && NoCollision(v, keys) && Agree(v, s.disk, keys) && CanCome(s, keys, m)
    ensures Agree(v, Then(v, s, m).disk, keys)
  {
    match m
    case Comes(a, number) =>
      ComesRecords(v, s, a, number);
      var call := CallAt(s, m);
      if call.Some? {
        InsertPersistedAgrees(v, s.disk, keys, call.value.key, call.value.answer, call.value.payload,
                              call.value.now, number);
      }
    case Reboots(rows, now) => RestartAgrees(v, s.disk, keys, rows, now);
    case Writes(key, value) => OtherAgrees(v, s.disk, keys, key, value);
  }

  lemma {:induction false} DaysAgree(v: Vault, s: Daemon, keys: set<Key>, ms: seq<Moment>)
    requires Sound(v) && NoCollision(v, keys) && Agree(v, s.disk, keys) && AllCanCome(v, s, keys, ms)
    ensures Agree(v, Days(v, s, ms).disk, keys)
  {
    if ms != [] {
      DaysAgree(v, s, keys, ms[..|ms| - 1]);
      MomentAgrees(v, Days(v, s, ms[..|ms| - 1]), keys, ms[|ms| - 1]);
    }
  }

  lemma ComesServes(v: Vault, s: Daemon, a: Arrival, number: nat)
    ensures var call := CallAt(s, Comes(a, number));
            Then(v, s, Comes(a, number)).disk.cache
            == if call.Some? then Serve(v.hash, s.disk.cache, call.value) else s.disk.cache
  {
    ComesRecords(v, s, a, number);
  }

  /** A moment that spares an entry leaves it as it was stored. */
  lemma MomentHolds(v: Vault, s: Daemon, keys: set<Key>, m: Moment, k: Key, e: Entry, n: nat)
    requires NoCollision(v, keys) && Agree(v, s.disk, keys) && CanCome(s, keys, m)
    requires Holds(s.disk.cache, k, e, n) && Spares(v, s, k, e.at, n, m)
    ensures Holds(Then(v, s, m).disk.cache, k, e, AgeAfter(v, s, k, n, m))
  {
    match m
    case Comes(a, number) =>
      ComesServes(v, s, a, number);
      var call := CallAt(s, m);
      if call.Some? {
        ServeHolds(v.hash, s.disk.cache, call.value, k, e, n);
      }
    case Reboots(rows, now) => RestartHolds(v, s.disk, keys, rows, now, k);
    case Writes(_, _) =>
  }

  lemma {:induction false} DaysHold(
    v: Vault, s: Daemon, keys: set<Key>, ms: seq<Moment>, k: Key, e: Entry, n: nat)
    requires Sound(v) && NoCollision(v, keys) && Agree(v, s.disk, keys) && AllCanCome(v, s, keys, ms)
    requires Holds(s.disk.cache, k, e, n) && AllSpare(v, s, k, e.at, n, ms)
    ensures Holds(Days(v, s, ms).disk.cache, k, e, Age(v, s, k, n, ms))
  {
    if ms != [] {
      var front := ms[..|ms| - 1];
      DaysHold(v, s, keys, front, k, e, n);
      DaysAgree(v, s, keys, front);
      MomentHolds(v, Days(v, s, front), keys, ms[|ms| - 1], k, e, Age(v, s, k, n, front));
    }
  }

  /** `again` brings the key of the request that was dispatched at `first`, and everything up to it spares the entry. */
  ghost predicate RepeatedLater(
    v: Vault, s: Daemon, first: Arrival, number: nat, between: seq<Moment>, again: Arrival)
  {
    var one := Reaches(Receiver(s, first), first.turn);
    var stored := Then(v, s, Comes(first, number));
    var two := Reaches(Receiver(Days(v, stored, between), again), again.turn);
    one.Some? && Answer(v, s, first).effect.Dispatched? && two.Some? && two.value.key == one.value.key
    && two.value.now < Expiry(one.value.now)
    && AllSpare(v, stored, one.value.key, one.value.now,
                Followers(stored.disk.cache.order, one.value.key), between)
  }

  /** A request that is dispatched is in the cache afterwards, and memory and store agree. */
  lemma FirstStored(v: Vault, s: Daemon, keys: set<Key>, first: Arrival, number: nat)
    requires Sound(v) && NoCollision(v, keys) && Agree(v, s.disk, keys) && CanCome(s, keys, Comes(first, number))
    requires Reaches(Receiver(s, first), first.turn).Some? && Answer(v, s, first).effect.Dispatched?
    ensures var one := Reaches(Receiver(s, first), first.turn).value;
            var stored := Then(v, s, Comes(first, number)).disk;
            Agree(v, stored, keys)
            && Holds(stored.cache, one.key, Entry(one.answer, v.hash(one.payload), one.now),
                     Followers(stored.cache.order, one.key))
  {
    var one := Reaches(Receiver(s, first), first.turn).value;
    MomentAgrees(v, s, keys, Comes(first, number));
    ComesServes(v, s, first, number);
    CacheOnlyByCalls(v.hash, Receiver(s, first), s.disk.cache, first.turn);
    InsertKeepsInv(s.disk.cache, one.key, Entry(one.answer, v.hash(one.payload), one.now));
  }

  /**
   At most one dispatch through any number of restarts: a keyed request is dispatched at `first`; then envelopes on any
   connections, restarts and writes by others follow in any order; then `again` brings the same key. While calls with
   the key and restarts come within the entry's life and fewer than 1024 keys stand behind it in the queue, which a
   restart rebuilds in the order of the rows, the second request is not dispatched.
   */
  lemma AtMostOnceThroughRestarts(
    v: Vault, s: Daemon, keys: set<Key>, first: Arrival, number: nat, between: seq<Moment>, again: Arrival)
    requires Sound(v) && NoCollision(v, keys) && Agree(v, s.disk, keys) && CanCome(s, keys, Comes(first, number))
    requires AllCanCome(v, Then(v, s, Comes(first, number)), keys, between)
    requires RepeatedLater(v, s, first, number, between, again)
    ensures var one := Reaches(Receiver(s, first), first.turn).value;
            var later := Days(v, Then(v, s, Comes(first, number)), between);
            var two := Reaches(Receiver(later, again), again.turn).value;
            var out := Answer(v, later, again);
            !out.effect.Dispatched? && again.turn.env.body.Ask?
            && out.reply == if v.hash(two.payload) == v.hash(one.payload)
                            then Replayed(one.answer, again.turn.env.body.request.id)
                            else Refusal(again.turn.env.body.request.id, IdempotencyConflict)
  {
    var one := Reaches(Receiver(s, first), first.turn).value;
    var stored := Then(v, s, Comes(first, number));
    var later := Days(v, stored, between);
    FirstStored(v, s, keys, first, number);
    DaysHold(v, stored, keys, between, one.key, Entry(one.answer, v.hash(one.payload), one.now),
             Followers(stored.disk.cache.order, one.key));
    CacheOnlyByCalls(v.hash, Receiver(later, again), later.disk.cache, again.turn);
  }

  // ----- exactly when it is dispatched again --------------------------------

  /** No call of a moment uses `k`. */
  predicate Avoids(s: Daemon, k: Key, m: Moment) {
    CallAt(s, m).Some? ==> CallAt(s, m).value.key != k
  }

  predicate AllAvoid(v: Vault, s: Daemon, k: Key, ms: seq<Moment>) {
    ms == [] || (AllAvoid(v, s, k, ms[..|ms| - 1]) && Avoids(Days(v, s, ms[..|ms| - 1]), k, ms[|ms| - 1]))
  }

  /** A moment that does not spare an entry it does not use removes it. */
  lemma MomentRemoves(v: Vault, s: Daemon, keys: set<Key>, m: Moment, k: Key, e: Entry, n: nat)
    requires NoCollision(v, keys) && Agree(v, s.disk, keys) && CanCome(s, keys, m) && Avoids(s, k, m)
    requires Holds(s.disk.cache, k, e, n) && !Spares(v, s, k, e.at, n, m)
    ensures k !in Then(v, s, m).disk.cache.entries
  {
    match m
    case Comes(a, number) =>
      ComesServes(v, s, a, number);
      FollowersBound(s.disk.cache.order, k);
      if CallAt(s, m).Some? {
        ServeHolds(v.hash, s.disk.cache, CallAt(s, m).value, k, e, n);
      }
    case Reboots(rows, now) => RestartExact(v, s.disk, keys, rows, now);
  }

  /** An entry that is gone stays away until its key is used. */
  lemma MomentAddsNoOther(v: Vault, s: Daemon, keys: set<Key>, m: Moment, k: Key)
    requires NoCollision(v, keys) && Agree(v, s.disk, keys) && CanCome(s, keys, m) && Avoids(s, k, m)
    requires k !in s.disk.cache.entries
    ensures k !in Then(v, s, m).disk.cache.entries
  {
    match m
    case Comes(a, number) =>
      ComesServes(v, s, a, number);
      if CallAt(s, m).Some? {
        ServeAddsNoOther(v.hash, s.disk.cache, CallAt(s, m).value, k);
      }
    case Reboots(rows, now) => RestartExact(v, s.disk, keys, rows, now);
    case Writes(_, _) =>
  }

  /** While its key is not used, an entry is there exactly as long as everything that happens spares it. */
  lemma {:induction false} SparedExactly(
    v: Vault, s: Daemon, keys: set<Key>, ms: seq<Moment>, k: Key, e: Entry, n: nat)
    requires Sound(v) && NoCollision(v, keys) && Agree(v, s.disk, keys) && AllCanCome(v, s, keys, ms)
    requires Holds(s.disk.cache, k, e, n) && AllAvoid(v, s, k, ms)
    ensures k in Days(v, s, ms).disk.cache.entries <==> AllSpare(v, s, k, e.at, n, ms)
  {
    if ms != [] {
      var front, last := ms[..|ms| - 1], ms[|ms| - 1];
      var before := Days(v, s, front);
      SparedExactly(v, s, keys, front, k, e, n);
      DaysAgree(v, s, keys, front);
      if AllSpare(v, s, k, e.at, n, front) {
        DaysHold(v, s, keys, front, k, e, n);
        if Spares(v, before, k, e.at, Age(v, s, k, n, front), last) {
          MomentHolds(v, before, keys, last, k, e, Age(v, s, k, n, front));
        } else {
          MomentRemoves(v, before, keys, last, k, e, Age(v, s, k, n, front));
        }
      } else {
        MomentAddsNoOther(v, before, keys, last, k);
      }
    }
  }

  lemma DispatchedUnlessKept(v: Vault, s: Daemon, again: Arrival, e: Entry, kept: bool)
    requires Reaches(Receiver(s, again), again.turn).Some?
    requires var k := Reaches(Receiver(s, again), again.turn).value.key;
             (k in s.disk.cache.entries <==> kept) && (kept ==> s.disk.cache.entries[k] == e)
    ensures var two := Reaches(Receiver(s, again), again.turn).value;
            Answer(v, s, again).effect.Dispatched? <==> two.now >= Expiry(e.at) || !kept
  {
    CacheOnlyByCalls(v.hash, Receiver(s, again), s.disk.cache, again.turn);
  }

  /**
   A request that was dispatched comes again through any number of restarts, its key unused in between: it is dispatched
   a second time exactly when it comes too late or something in between did not spare its entry.
   */
  lemma DispatchedAgainThroughRestarts(
    v: Vault, s: Daemon, keys: set<Key>, first: Arrival, number: nat, between: seq<Moment>, again: Arrival)
    requires Sound(v) && NoCollision(v, keys) && Agree(v, s.disk, keys) && CanCome(s, keys, Comes(first, number))
    requires AllCanCome(v, Then(v, s, Comes(first, number)), keys, between)
    requires Reaches(Receiver(s, first), first.turn).Some? && Answer(v, s, first).effect.Dispatched?
    requires var one := Reaches(Receiver(s, first), first.turn).value;
             var stored := Then(v, s, Comes(first, number));
             var two := Reaches(Receiver(Days(v, stored, between), again), again.turn);
             AllAvoid(v, stored, one.key, between) && two.Some? && two.value.key == one.key
    ensures var one := Reaches(Receiver(s, first), first.turn).value;
            var stored := Then(v, s, Comes(first, number));
            var two := Reaches(Receiver(Days(v, stored, between), again), again.turn).value;
            Answer(v, Days(v, stored, between), again).effect.Dispatched?
            <==> two.now >= Expiry(one.now)
                 || !AllSpare(v, stored, one.key, one.now, Followers(stored.disk.cache.order, one.key), between)
  {
    var one := Reaches(Receiver(s, first), first.turn).value;
    var stored := Then(v, s, Comes(first, number));
    var later := Days(v, stored, between);
    var e, n := Entry(one.answer, v.hash(one.payload), one.now), Followers(stored.disk.cache.order, one.key);
    FirstStored(v, s, keys, first, number);
    SparedExactly(v, stored, keys, between, one.key, e, n);
    if AllSpare(v, stored, one.key, one.now, n, between) {
      DaysHold(v, stored, keys, between, one.key, e, n);
    }
    DispatchedUnlessKept(v, later, again, e, AllSpare(v, stored, one.key, one.now, n, between));
  }
}
