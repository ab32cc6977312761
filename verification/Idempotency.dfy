/**
 The bounded replay cache: a map of responses and the order in which its keys
 came in, with a lifetime per entry and first-in first-out eviction.

 `hash` stands for the 32-octet payload digest. Nothing here assumes that it is
 free of collisions; where that matters a statement says for which inputs.
 */
module Idempotency {
  import opened Bytes
  import opened Queues

  const TTL_MS: nat := 24 * 60 * 60 * 1000
  const CAP: nat := 1024

  type Hash = bytes -> bytes

  datatype Key = Key(scope: bytes, service: bytes, call: bytes, key: bytes)

  datatype Entry = Entry(response: bytes, digest: bytes, at: nat)

  datatype Cache = Cache(entries: map<Key, Entry>, order: seq<Key>)

  datatype Lookup = Miss | Replay(response: bytes) | Conflict

  const EMPTY_CACHE := Cache(map[], [])

  /** The end of an entry's life; the addition saturates. */
  function Expiry(at: nat): nat {
    if at + TTL_MS > U64_MAX then U64_MAX else at + TTL_MS
  }

  function Get(hash: Hash, c: Cache, k: Key, payload: bytes, now: nat): Lookup {
    if k !in c.entries then Miss
    else if now >= Expiry(c.entries[k].at) then Miss
    else if hash(payload) == c.entries[k].digest then Replay(c.entries[k].response)
    else Conflict
  }

  /** An entry answers for 24 hours, and never at the last moment of the clock. */
  lemma LookupExactly(hash: Hash, c: Cache, k: Key, payload: bytes, now: nat)
    requires now <= U64_MAX
    ensures Get(hash, c, k, payload, now)
            == if k !in c.entries || now >= c.entries[k].at + 86_400_000 || now == U64_MAX then Miss
               else if hash(payload) == c.entries[k].digest then Replay(c.entries[k].response)
               else Conflict
  {
  }

  /** Drop the oldest keys while there are too many. */
  function Evict(c: Cache): Cache
    decreases |c.order|
  {
    if |c.order| > CAP then Evict(Cache(c.entries - {c.order[0]}, c.order[1..])) else c
  }

  /** Re-keying refreshes an entry in place; a new key joins the queue at its end. */
  function Insert(c: Cache, k: Key, e: Entry): Cache {
    if k in c.entries then c.(entries := c.entries[k := e])
    else Evict(Cache(c.entries[k := e], c.order + [k]))
  }

  // ----- the invariant ------------------------------------------------------

  /** The queue lists each key of the map once, and there are at most 1024 of them. */
  ghost predicate CacheInv(c: Cache) {
    Distinct(c.order) && (forall k :: k in c.order <==> k in c.entries) && |c.order| <= CAP
  }

  /** One key too many: the oldest goes and the others stay. */
  lemma EvictOne(c: Cache)
    requires |c.order| == CAP + 1
    ensures Evict(c) == Cache(c.entries - {c.order[0]}, c.order[1..])
  {
  }

  lemma InsertNew(c: Cache, k: Key, e: Entry)
    requires CacheInv(c) && k !in c.entries
    ensures var full := |c.order| == CAP;
            Insert(c, k, e).order == (if full then c.order[1..] else c.order) + [k]
            && Insert(c, k, e).entries
               == if full then c.entries[k := e] - {c.order[0]} else c.entries[k := e]
  {
    if |c.order| == CAP {
      EvictOne(Cache(c.entries[k := e], c.order + [k]));
      assert (c.order + [k])[1..] == c.order[1..] + [k];
    }
  }

  lemma InsertKeepsInv(c: Cache, k: Key, e: Entry)
    requires CacheInv(c)
    ensures CacheInv(Insert(c, k, e))
    ensures k in Insert(c, k, e).entries && Insert(c, k, e).entries[k] == e
  {
    if k !in c.entries {
      InsertNew(c, k, e);
      DistinctAppend(c.order, k);
      var c' := Insert(c, k, e);
      if |c.order| == CAP {
        forall x ensures x in c'.order <==> x in c'.entries {
          DropFirst(c.order, x);
        }
      }
    }
  }

  lemma DropFirst<T>(q: seq<T>, x: T)
    requires Distinct(q)
    ensures q != [] ==> (x in q[1..] <==> x in q && x != q[0])
  {
    if q != [] {
      assert q == [q[0]] + q[1..];
    }
  }

  // ----- exactly when a key is evicted --------------------------------------

  /** How many keys joined the queue after `k`. */
  function Followers(q: seq<Key>, k: Key): nat {
    if q == [] || q[|q| - 1] == k then 0 else 1 + Followers(q[..|q| - 1], k)
  }

  lemma FollowersPush(q: seq<Key>, k: Key, x: Key)
    requires x != k
    ensures Followers(q + [x], k) == 1 + Followers(q, k)
  {
    assert (q + [x])[..|q|] == q;
  }

  /** The oldest key is the one that everything else follows. */
  lemma {:induction false} FollowersBound(q: seq<Key>, k: Key)
    requires k in q && Distinct(q)
    ensures Followers(q, k) < |q|
    ensures Followers(q, k) == |q| - 1 <==> q[0] == k
  {
    if q[|q| - 1] != k {
      assert q == q[..|q| - 1] + [q[|q| - 1]];
      FollowersBound(q[..|q| - 1], k);
    }
  }

  /** `less` puts the queue in its own order. */
  ghost predicate OrderedBy(less: (Key, Key) -> bool, q: seq<Key>) {
    forall i, j {:trigger less(q[i], q[j])} :: 0 <= i < |q| && 0 <= j < |q| ==> (less(q[i], q[j]) <==> i < j)
  }

  function Above(less: (Key, Key) -> bool, q: seq<Key>, k: Key): set<Key> {
    set x | x in q && less(k, x)
  }

  lemma {:induction false} FollowersIndex(q: seq<Key>, i: nat)
    requires i < |q| && Distinct(q)
    ensures Followers(q, q[i]) == |q| - 1 - i
  {
    if i < |q| - 1 {
      FollowersIndex(q[..|q| - 1], i);
    }
  }

  lemma AboveIndex(less: (Key, Key) -> bool, q: seq<Key>, i: nat)
    requires i < |q| && OrderedBy(less, q)
    ensures Above(less, q, q[i]) == Elements(q[i + 1..])
  {
    forall x ensures x in Above(less, q, q[i]) <==> x in Elements(q[i + 1..]) {
      if x in q {
        var j :| 0 <= j < |q| && q[j] == x;
        assert less(q[i], q[j]) <==> i < j;
        if i < j {
          assert q[i + 1..][j - i - 1] == x;
        }
      }
      if x in q[i + 1..] {
        var j :| 0 <= j < |q[i + 1..]| && q[i + 1..][j] == x;
        assert q[j + i + 1] == x;
        assert less(q[i], q[j + i + 1]);
      }
    }
  }

  /** Then the followers of a key are the greater ones. */
  lemma FollowersAbove(less: (Key, Key) -> bool, q: seq<Key>, k: Key)
    requires Distinct(q) && OrderedBy(less, q) && k in q
    ensures Followers(q, k) == |Above(less, q, k)|
  {
    var i :| 0 <= i < |q| && q[i] == k;
    FollowersIndex(q, i);
    AboveIndex(less, q, i);
    DistinctSize(q[i + 1..]);
  }

  lemma {:induction false} FollowersDrop(q: seq<Key>, k: Key)
    requires q != [] && k in q[1..]
    ensures Followers(q[1..], k) == Followers(q, k)
  {
    var t := q[1..];
    assert t[|t| - 1] == q[|q| - 1];
    if t[|t| - 1] != k {
      assert t == t[..|t| - 1] + [t[|t| - 1]];
      assert q[..|q| - 1][1..] == t[..|t| - 1];
      FollowersDrop(q[..|q| - 1], k);
    }
  }

  /** A new key: it has no followers, and any other key gains one or is evicted as the 1024th. */
  lemma NewKeyAges(c: Cache, x: Key, e: Entry, k: Key)
    requires CacheInv(c) && x !in c.entries && k in c.entries
    ensures k in Insert(c, x, e).entries <==> Followers(c.order, k) + 1 < CAP
    ensures k in Insert(c, x, e).entries ==>
              Insert(c, x, e).entries[k] == c.entries[k]
              && Followers(Insert(c, x, e).order, k) == Followers(c.order, k) + 1
    ensures Followers(Insert(c, x, e).order, x) == 0
  {
    InsertNew(c, x, e);
    FollowersBound(c.order, k);
    if |c.order| == CAP {
      DropFirst(c.order, k);
      if k != c.order[0] {
        FollowersDrop(c.order, k);
        FollowersPush(c.order[1..], k, x);
      }
    } else {
      FollowersPush(c.order, k, x);
    }
  }

  // ----- keyed calls --------------------------------------------------------

  /** A keyed request that reached the cache, and what dispatching it would answer. */
  datatype Call = Call(key: Key, payload: bytes, now: nat, answer: bytes)

  /** Serve a call: only a miss is dispatched, and then stored. */
  function Serve(hash: Hash, c: Cache, call: Call): Cache {
    if Get(hash, c, call.key, call.payload, call.now).Miss?
    then Insert(c, call.key, Entry(call.answer, hash(call.payload), call.now))
    else c
  }

  predicate Dispatches(hash: Hash, c: Cache, call: Call) {
    Get(hash, c, call.key, call.payload, call.now).Miss?
  }

  function ServeAll(hash: Hash, c: Cache, calls: seq<Call>): Cache {
    if calls == [] then c else Serve(hash, ServeAll(hash, c, calls[..|calls| - 1]), calls[|calls| - 1])
  }

  /** How many of the calls put a key into the queue that was not there. */
  function NewKeys(hash: Hash, c: Cache, calls: seq<Call>): nat {
    if calls == [] then 0 else
    var before := ServeAll(hash, c, calls[..|calls| - 1]);
    NewKeys(hash, c, calls[..|calls| - 1]) + if calls[|calls| - 1].key !in before.entries then 1 else 0
  }

  lemma ServeKeepsInv(hash: Hash, c: Cache, call: Call)
    requires CacheInv(c)
    ensures CacheInv(Serve(hash, c, call))
  {
    InsertKeepsInv(c, call.key, Entry(call.answer, hash(call.payload), call.now));
  }

  /** The entry of `k` is `e` and `n` keys have joined the queue since `k` did. */
  ghost predicate Holds(c: Cache, k: Key, e: Entry, n: nat) {
    CacheInv(c) && k in c.entries && c.entries[k] == e && Followers(c.order, k) == n
  }

  /** Calls with the key `k` come before the entry stored at `at` expires. */
  ghost predicate Timely(calls: seq<Call>, k: Key, at: nat) {
    forall i :: 0 <= i < |calls| && calls[i].key == k ==> calls[i].now < Expiry(at)
  }

  lemma ServeHolds(hash: Hash, c: Cache, call: Call, k: Key, e: Entry, n: nat)
    requires Holds(c, k, e, n)
    requires call.key == k ==> call.now < Expiry(e.at)
    ensures call.key == k ==> !Dispatches(hash, c, call) && Serve(hash, c, call) == c
    ensures var m := if call.key !in c.entries then n + 1 else n;
            (m < CAP ==> Holds(Serve(hash, c, call), k, e, m))
            && (m == CAP ==> k !in Serve(hash, c, call).entries)
  {
    ServeKeepsInv(hash, c, call);
    FollowersBound(c.order, k);
    if call.key !in c.entries {
      NewKeyAges(c, call.key, Entry(call.answer, hash(call.payload), call.now), k);
    }
  }

  /**
   While fewer than 1024 keys in all have joined the queue after `k`, its entry
   stays as it was stored; the 1024th evicts it.
   */
  lemma {:induction false} EntryStays(hash: Hash, c: Cache, calls: seq<Call>, k: Key, e: Entry, n: nat)
    requires Holds(c, k, e, n) && Timely(calls, k, e.at)
    requires n + NewKeys(hash, c, calls) < CAP
    ensures Holds(ServeAll(hash, c, calls), k, e, n + NewKeys(hash, c, calls))
  {
    if calls != [] {
      var front, last := calls[..|calls| - 1], calls[|calls| - 1];
      EntryStays(hash, c, front, k, e, n);
      ServeHolds(hash, ServeAll(hash, c, front), last, k, e, n + NewKeys(hash, c, front));
    }
  }

  /**
   At most one dispatch. Once a call has been dispatched and stored, a later
   call with the same key, in time and before 1024 new keys, is not dispatched:
   the same payload gets the stored answer, another payload a conflict.
   */
  lemma AtMostOneDispatch(hash: Hash, c: Cache, first: Call, between: seq<Call>, again: Call)
    requires CacheInv(c) && Dispatches(hash, c, first) && again.key == first.key
    requires Timely(between + [again], first.key, first.now)
    requires var stored := Serve(hash, c, first);
             Followers(stored.order, first.key) + NewKeys(hash, stored, between) < 1024
    ensures var later := ServeAll(hash, Serve(hash, c, first), between);
            !Dispatches(hash, later, again)
            && (hash(again.payload) == hash(first.payload) ==>
                  Get(hash, later, again.key, again.payload, again.now) == Replay(first.answer))
            && (hash(again.payload) != hash(first.payload) ==>
                  Get(hash, later, again.key, again.payload, again.now) == Conflict)
  {
    var stored := Serve(hash, c, first);
    var e := Entry(first.answer, hash(first.payload), first.now);
    InsertKeepsInv(c, first.key, e);
    var n := Followers(stored.order, first.key);
    assert Holds(stored, first.key, e, n);
    assert (between + [again])[|between|] == again;
    assert Timely(between, first.key, first.now) by {
      assert forall i :: 0 <= i < |between| ==> between[i] == (between + [again])[i];
    }
    EntryStays(hash, stored, between, first.key, e, n);
  }

  /** A key that was not in the queue before has all of the 1024 new keys to go. */
  lemma FreshKeyHasNoFollowers(hash: Hash, c: Cache, first: Call)
    requires CacheInv(c) && first.key !in c.entries
    ensures Followers(Serve(hash, c, first).order, first.key) == 0
  {
    InsertNew(c, first.key, Entry(first.answer, hash(first.payload), first.now));
  }

  /** The call that brings the 1024th new key is the one that evicts `k`, so the next use is dispatched again. */
  lemma EvictedByThe1024th(hash: Hash, c: Cache, calls: seq<Call>, last: Call, k: Key, e: Entry, n: nat, again: Call)
    requires Holds(c, k, e, n) && Timely(calls, k, e.at) && last.key != k && again.key == k
    requires n + NewKeys(hash, c, calls) == CAP - 1
    requires last.key !in ServeAll(hash, c, calls).entries
    ensures k !in ServeAll(hash, c, calls + [last]).entries
    ensures Dispatches(hash, ServeAll(hash, c, calls + [last]), again)
  {
    EntryStays(hash, c, calls, k, e, n);
    ServeHolds(hash, ServeAll(hash, c, calls), last, k, e, CAP - 1);
    assert (calls + [last])[..|calls|] == calls;
  }

  // ----- exactly when an entry survives -------------------------------------

  lemma {:induction false} ServeAllKeepsInv(hash: Hash, c: Cache, calls: seq<Call>)
    requires CacheInv(c)
    ensures CacheInv(ServeAll(hash, c, calls))
  {
    if calls != [] {
      ServeAllKeepsInv(hash, c, calls[..|calls| - 1]);
      ServeKeepsInv(hash, ServeAll(hash, c, calls[..|calls| - 1]), calls[|calls| - 1]);
    }
  }

  /** None of the calls uses `k`. */
  ghost predicate Unused(calls: seq<Call>, k: Key) {
    forall i :: 0 <= i < |calls| ==> calls[i].key != k
  }

  lemma ServeAddsNoOther(hash: Hash, c: Cache, call: Call, k: Key)
    requires CacheInv(c) && k !in c.entries && call.key != k
    ensures k !in Serve(hash, c, call).entries
  {
    if call.key !in c.entries {
      InsertNew(c, call.key, Entry(call.answer, hash(call.payload), call.now));
    }
  }

  /** While it is not used again, an entry is there exactly until 1024 keys have joined the queue after it. */
  lemma {:induction false} SurvivesExactly(hash: Hash, c: Cache, calls: seq<Call>, k: Key, e: Entry, n: nat)
    requires Holds(c, k, e, n) && Unused(calls, k)
    ensures var later := ServeAll(hash, c, calls);
            (k in later.entries <==> n + NewKeys(hash, c, calls) < 1024)
            && (k in later.entries ==> later.entries[k] == e)
  {
    if calls == [] {
      FollowersBound(c.order, k);
    } else {
      var front, last := calls[..|calls| - 1], calls[|calls| - 1];
      SurvivesExactly(hash, c, front, k, e, n);
      var before := ServeAll(hash, c, front);
      if n + NewKeys(hash, c, front) < CAP {
        EntryStays(hash, c, front, k, e, n);
        ServeHolds(hash, before, last, k, e, n + NewKeys(hash, c, front));
      } else {
        ServeAllKeepsInv(hash, c, front);
        ServeAddsNoOther(hash, before, last, k);
      }
    }
  }

  /** So the next use is dispatched exactly when it comes too late or after 1024 new keys. */
  lemma DispatchedAgainExactly(hash: Hash, c: Cache, calls: seq<Call>, e: Entry, n: nat, again: Call)
    requires Holds(c, again.key, e, n) && Unused(calls, again.key)
    ensures Dispatches(hash, ServeAll(hash, c, calls), again)
            <==> again.now >= Expiry(e.at) || n + NewKeys(hash, c, calls) >= 1024
  {
    SurvivesExactly(hash, c, calls, again.key, e, n);
  }
}
