/** The replay cache when its store fails: which rows there are then, and what a restart makes of any rows. */
module IdempotencyFaults {
  import opened Bytes
  import opened Store
  import opened Idempotency
  import opened IdempotencyStore

  // ----- insertions whose deletions and writes may fail ---------------------

  datatype Insertion = Insertion(
    key: Key, response: bytes, payload: bytes, now: nat, number: nat, deleteOk: bool, putOk: bool)

  function Made(v: Vault, d: Disk, i: Insertion): Disk {
    InsertPersisted(v, d, i.key, i.response, i.payload, i.now, i.number, i.deleteOk, i.putOk)
  }

  function MadeAll(v: Vault, d: Disk, insertions: seq<Insertion>): Disk {
    if insertions == [] then d
    else Made(v, MadeAll(v, d, insertions[..|insertions| - 1]), insertions[|insertions| - 1])
  }

  /** The record on disk for a key. */
  function RowOf(v: Vault, d: Disk, k: Key): Option<Persisted> {
    var key := StorageKey(v, k);
    if key in d.store then OpenedRow(v, key, d.store[key]) else None
  }

  /** The insertion pushes the oldest key out of 1024. */
  predicate PushesOut(c: Cache, i: Insertion, k: Key) {
    |c.order| >= 1024 && i.key !in c.entries && c.order[0] == k
  }

  ghost predicate Known(c: Cache, keys: set<Key>) {
    forall k :: k in c.order ==> k in keys
  }

  ghost predicate AllKnown(insertions: seq<Insertion>, keys: set<Key>) {
    forall i :: 0 <= i < |insertions| ==> insertions[i].key in keys && insertions[i].number <= U64_MAX
  }

  /**
   Whether or not the store does as it is told: memory takes the entry, the entry's row is the new record if the write
   succeeded, the row pushed out is gone if its deletion did, and every other row is as it was.
   */
  lemma InsertionExactly(v: Vault, d: Disk, keys: set<Key>, i: Insertion, k: Key)
    requires Sound(v) && NoCollision(v, keys) && Known(d.cache, keys) && i.key in keys && k in keys
    requires i.number <= U64_MAX
    ensures var after := Made(v, d, i);
            after.cache == Insert(d.cache, i.key, Entry(i.response, v.hash(i.payload), i.now))
            && RowOf(v, after, k)
               == if k == i.key && i.putOk then Some(Persisted(k, i.response, v.hash(i.payload), i.now))
                  else if PushesOut(d.cache, i, k) && i.deleteOk then None
                  else RowOf(v, d, k)
  {
    OpenedSealed(v, i.key, i.number, Record(i.key, Entry(i.response, v.hash(i.payload), i.now)));
    if StorageKey(v, k) == StorageKey(v, i.key) {
      StorageKeyInjective(v, keys, k, i.key);
    }
    var victim := Victim(d.cache, i.key);
    if victim.Some? {
      assert victim.value in d.cache.order;
      if StorageKey(v, k) == StorageKey(v, victim.value) {
        StorageKeyInjective(v, keys, k, victim.value);
      }
    }
  }

  /** Rows of others are untouched. */
  lemma InsertionKeepsOthers(v: Vault, d: Disk, i: Insertion, key: bytes)
    requires !StartsWith(key, Ascii("idempotency/"))
    ensures key in Made(v, d, i).store <==> key in d.store
    ensures key in d.store ==> Made(v, d, i).store[key] == d.store[key]
  {
    assert forall k :: StorageKey(v, k)[..|PREFIX|] == PREFIX;
  }

  // ----- every sequence of insertions ---------------------------------------

  /** What the last insertion that reached the row of `k` left there. */
  function Remembered(v: Vault, d: Disk, insertions: seq<Insertion>, k: Key): Option<Persisted> {
    if insertions == [] then RowOf(v, d, k) else
    var front, i := insertions[..|insertions| - 1], insertions[|insertions| - 1];
    if i.key == k && i.putOk then Some(Persisted(k, i.response, v.hash(i.payload), i.now))
    else if PushesOut(MadeAll(v, d, front).cache, i, k) && i.deleteOk then None
    else Remembered(v, d, front, k)
  }

  lemma {:induction false} InsertionsKnown(v: Vault, d: Disk, keys: set<Key>, insertions: seq<Insertion>)
    requires CacheInv(d.cache) && Known(d.cache, keys) && AllKnown(insertions, keys)
    ensures CacheInv(MadeAll(v, d, insertions).cache) && Known(MadeAll(v, d, insertions).cache, keys)
  {
    if insertions != [] {
      var front, i := insertions[..|insertions| - 1], insertions[|insertions| - 1];
      InsertionsKnown(v, d, keys, front);
      var c, e := MadeAll(v, d, front).cache, Entry(i.response, v.hash(i.payload), i.now);
      InsertKeepsInv(c, i.key, e);
      InsertEntries(c, i.key, e);
      forall k | k in Insert(c, i.key, e).order ensures k in keys {
        assert k == i.key || k in c.order;
      }
    }
  }

  /** Over every sequence of insertions, whatever fails: each row is what the last one that reached it left. */
  lemma {:induction false} InsertionsExactly(
    v: Vault, d: Disk, keys: set<Key>, insertions: seq<Insertion>, k: Key)
    requires Sound(v) && NoCollision(v, keys) && CacheInv(d.cache) && Known(d.cache, keys)
    requires AllKnown(insertions, keys) && k in keys
    ensures RowOf(v, MadeAll(v, d, insertions), k) == Remembered(v, d, insertions, k)
    decreases |insertions|
  {
    if insertions != [] {
      var front, i := insertions[..|insertions| - 1], insertions[|insertions| - 1];
      InsertionsExactly(v, d, keys, front, k);
      InsertionsKnown(v, d, keys, front);
      InsertionExactly(v, MadeAll(v, d, front), keys, i, k);
    }
  }

  // ----- what a restart makes of any rows -----------------------------------

  /** The row is intact, in time, and its digest has 32 octets. */
  predicate Live(v: Vault, row: Row, now: nat) {
    var p := OpenedRow(v, row.key, row.value);
    p.Some? && now < Expiry(p.value.at) && |p.value.digest| == 32
  }

  /** The places of the live rows, in order. */
  function Places(v: Vault, rows: seq<Row>, now: nat): (r: seq<nat>)
    ensures forall i :: 0 <= i < |r| ==> r[i] < |rows| && Live(v, rows[r[i]], now)
  {
    if rows == [] then []
    else
      var n := |rows| - 1;
      Places(v, rows[..n], now) + if Live(v, rows[n], now) then [n] else []
  }

  lemma {:induction false} PlacesExactly(v: Vault, rows: seq<Row>, now: nat)
    ensures forall i: nat :: i in Places(v, rows, now) <==> i < |rows| && Live(v, rows[i], now)
    ensures forall i, j :: 0 <= i < j < |Places(v, rows, now)| ==> Places(v, rows, now)[i] < Places(v, rows, now)[j]
  {
    if rows != [] {
      PlacesExactly(v, rows[..|rows| - 1], now);
    }
  }

  function Found(v: Vault, rows: seq<Row>, now: nat): seq<Persisted> {
    var places := Places(v, rows, now);
    seq(|places|, i requires 0 <= i < |places| => OpenedRow(v, rows[places[i]].key, rows[places[i]].value).value)
  }

  lemma FoundNext(v: Vault, rows: seq<Row>, now: nat)
    requires rows != []
    ensures var front, row := rows[..|rows| - 1], rows[|rows| - 1];
            Found(v, rows, now)
            == Found(v, front, now)
               + if Live(v, row, now) then [OpenedRow(v, row.key, row.value).value] else []
  {
    var front, places := rows[..|rows| - 1], Places(v, rows[..|rows| - 1], now);
    forall i | 0 <= i < |places| ensures rows[places[i]] == front[places[i]] {
    }
  }

  function KeysOf(found: seq<Persisted>): seq<Key> {
    seq(|found|, i requires 0 <= i < |found| => found[i].key)
  }

  /** Memory holds the records found, in the order found. */
  ghost predicate Holds(c: Cache, found: seq<Persisted>) {
    c.order == KeysOf(found)
    && (forall k :: k in c.entries <==> k in c.order)
    && forall i :: 0 <= i < |found| ==>
         found[i].key in c.entries
         && c.entries[found[i].key] == Entry(found[i].response, found[i].digest, found[i].at)
  }

  ghost predicate DifferentKeys(found: seq<Persisted>) {
    forall i, j :: 0 <= i < j < |found| ==> found[i].key != found[j].key
  }

  function Newest(found: seq<Persisted>): seq<Persisted> {
    if |found| <= 1024 then found else found[|found| - 1024..]
  }

  /**
   From any rows, those of an agreeing store or not: the live rows, if their keys differ, come back with their own
   response, digest and time, in the order of the scan, the last 1024 of them, and nothing else does.
   */
  lemma {:induction false} RestoredExactly(v: Vault, rows: seq<Row>, now: nat)
    requires DifferentKeys(Found(v, rows, now))
    ensures Holds(RestoreRows(v, rows, now), Newest(Found(v, rows, now)))
    decreases |rows|
  {
    if rows != [] {
      var front, row := rows[..|rows| - 1], rows[|rows| - 1];
      var before := Found(v, front, now);
      FoundNext(v, rows, now);
      if Live(v, row, now) {
        DifferentBefore(before, OpenedRow(v, row.key, row.value).value);
        RestoredExactly(v, front, now);
        RestoredNext(v, RestoreRows(v, front, now), before, row, now);
      } else {
        assert Found(v, rows, now) == before;
        RestoredExactly(v, front, now);
      }
    }
  }

  lemma RestoredNext(v: Vault, c: Cache, before: seq<Persisted>, row: Row, now: nat)
    requires Holds(c, Newest(before)) && Live(v, row, now)
    requires DifferentKeys(Newest(before) + [OpenedRow(v, row.key, row.value).value])
    ensures Holds(RestoreRow(v, c, row, now), Newest(before + [OpenedRow(v, row.key, row.value).value]))
  {
    var p := OpenedRow(v, row.key, row.value).value;
    RestoredOne(v, c, Newest(before), row, now);
    assert Newest(before + [p]) == Newest(Newest(before) + [p]);
  }

  lemma DifferentBefore(before: seq<Persisted>, p: Persisted)
    requires DifferentKeys(before + [p])
    ensures DifferentKeys(before) && DifferentKeys(Newest(before) + [p])
  {
    var all, kept := before + [p], Newest(before) + [p];
    forall i, j | 0 <= i < j < |before| ensures before[i].key != before[j].key {
      assert all[i].key != all[j].key;
    }
    forall i, j | 0 <= i < j < |kept| ensures kept[i].key != kept[j].key {
      var gap := |all| - |kept|;
      assert all[i + gap].key != all[j + gap].key;
    }
  }

  lemma RestoredOne(v: Vault, c: Cache, before: seq<Persisted>, row: Row, now: nat)
    requires Holds(c, before) && |before| <= 1024 && Live(v, row, now)
    requires DifferentKeys(before + [OpenedRow(v, row.key, row.value).value])
    ensures Holds(RestoreRow(v, c, row, now), Newest(before + [OpenedRow(v, row.key, row.value).value]))
  {
    var p := OpenedRow(v, row.key, row.value).value;
    var found := before + [p];
    forall i | 0 <= i < |before| ensures before[i].key != p.key {
      assert found[i].key != found[|before|].key;
    }
    InsertedLast(c, before, p, v.hash([]));
  }

  /** Inserting a new key drops the first of 1024. */
  lemma InsertedLast(c: Cache, before: seq<Persisted>, p: Persisted, digest: bytes)
    requires Holds(c, before) && |before| <= 1024 && DifferentKeys(before + [p])
    requires forall i :: 0 <= i < |before| ==> before[i].key != p.key
    ensures var after := Insert(c, p.key, Entry(p.response, digest, p.at));
            p.key in after.entries
            && Holds(after.(entries := after.entries[p.key := after.entries[p.key].(digest := p.digest)]),
                     Newest(before + [p]))
  {
    var e := Entry(p.response, digest, p.at);
    AppendedHolds(c, before, p);
    InsertShape(c, p.key, e);
    if |before| == 1024 {
      InsertedFull(c, before, p, e);
    } else {
      assert c.entries[p.key := e][p.key := e.(digest := p.digest)] == c.entries[p.key := e.(digest := p.digest)];
    }
  }

  lemma InsertShape(c: Cache, k: Key, e: Entry)
    requires k !in c.entries && |c.order| <= 1024
    ensures Insert(c, k, e)
            == if |c.order| == 1024 then Cache(c.entries[k := e] - {c.order[0]}, (c.order + [k])[1..])
               else Cache(c.entries[k := e], c.order + [k])
  {
    if |c.order| == 1024 {
      EvictOne(Cache(c.entries[k := e], c.order + [k]));
    }
  }

  lemma InsertedFull(c: Cache, before: seq<Persisted>, p: Persisted, e: Entry)
    requires Holds(c, before) && |before| == 1024 && DifferentKeys(before + [p])
    requires forall i :: 0 <= i < |before| ==> before[i].key != p.key
    requires e.response == p.response && e.at == p.at
    requires Holds(Cache(c.entries[p.key := e.(digest := p.digest)], c.order + [p.key]), before + [p])
    ensures p.key in c.entries[p.key := e] - {c.order[0]}
    ensures Holds(Cache((c.entries[p.key := e] - {c.order[0]})[p.key := e.(digest := p.digest)],
                        (c.order + [p.key])[1..]), Newest(before + [p]))
  {
    assert c.order[0] == before[0].key;
    FirstGone(Cache(c.entries[p.key := e.(digest := p.digest)], c.order + [p.key]), before + [p]);
    DigestLater(c.entries, p.key, c.order[0], e, p.digest);
  }

  lemma AppendedHolds(c: Cache, before: seq<Persisted>, p: Persisted)
    requires Holds(c, before) && forall i :: 0 <= i < |before| ==> before[i].key != p.key
    ensures Holds(Cache(c.entries[p.key := Entry(p.response, p.digest, p.at)], c.order + [p.key]), before + [p])
  {
    assert KeysOf(before + [p]) == KeysOf(before) + [p.key];
  }

  lemma DigestLater(entries: map<Key, Entry>, k: Key, gone: Key, e: Entry, digest: bytes)
    requires k != gone
    ensures (entries[k := e] - {gone})[k := e.(digest := digest)] == entries[k := e.(digest := digest)] - {gone}
  {
  }

  lemma FirstGone(c: Cache, found: seq<Persisted>)
    requires Holds(c, found) && DifferentKeys(found) && found != []
    ensures Holds(Cache(c.entries - {c.order[0]}, c.order[1..]), found[1..])
  {
    var rest := found[1..];
    assert KeysOf(rest) == KeysOf(found)[1..];
    forall i | 0 <= i < |rest| ensures rest[i].key != found[0].key {
      assert found[0].key != found[i + 1].key;
    }
  }

  /** The row is intact but too late or without a digest of 32 octets. */
  predicate Dead(v: Vault, key: bytes, value: bytes, now: nat) {
    var p := OpenedRow(v, key, value);
    p.Some? && (now >= Expiry(p.value.at) || |p.value.digest| != 32)
  }

  /** A restart removes exactly the dead rows that the store lets it delete; one whose scan fails finds nothing. */
  lemma RestartLeaves(
    v: Vault, store: Rows, scan: Option<seq<Row>>, now: nat, deleteOk: bytes -> bool, key: bytes)
    ensures var d := RestartWith(v, store, scan, now, deleteOk);
            (scan.None? ==> d.store == store && d.cache == Cache(map[], []))
            && (scan.Some? ==> d.cache == RestoreRows(v, scan.value, now)
                               && (key in d.store <==>
                                     key in store && !(Dead(v, key, store[key], now) && deleteOk(key))))
            && (key in d.store ==> key in store && d.store[key] == store[key])
  {
  }

  // ----- which rows are intact ----------------------------------------------

  /** What unseals was sealed. */
  ghost predicate Authentic(v: Vault) {
    forall number: nat, aad, x {:trigger v.unseal(number, aad, x)} ::
      v.unseal(number, aad, x).Some? ==> x == v.seal(number, aad, v.unseal(number, aad, x).value)
  }

  ghost predicate Sealed(v: Vault, key: bytes, value: bytes, number: nat, x: bytes, p: Persisted) {
    number <= U64_MAX && value == BigEndian(number, 8) + v.seal(number, Ascii("UMC-IDEMPOTENCY-V1") + key, x)
    && v.decode(x) == Some(p)
  }

  /** Whatever the cipher, a row without room for a number and a tag does not open. */
  lemma ShortRowsRefused(v: Vault, key: bytes, value: bytes)
    requires |value| < 24
    ensures OpenedRow(v, key, value).None?
  {
  }

  /** A row opens exactly if its key has the prefix and it is a number and a record sealed for that key. */
  lemma OpensExactly(v: Vault, key: bytes, value: bytes, p: Persisted)
    requires Sound(v) && Authentic(v)
    ensures OpenedRow(v, key, value) == Some(p)
            <==> StartsWith(key, Ascii("idempotency/"))
                 && exists number: nat, x: bytes :: Sealed(v, key, value, number, x, p)
  {
    Pow256Values();
    if OpenedRow(v, key, value) == Some(p) {
      var number := FromBigEndian(value[..8]);
      var x := v.unseal(number, AAD + key, value[8..]).value;
      FromBigEndianBound(value[..8]);
      FromBigEndianRoundTrip(value[..8]);
      assert value == value[..8] + value[8..];
      assert Sealed(v, key, value, number, x, p);
    }
    forall number: nat, x: bytes | StartsWith(key, PREFIX) && Sealed(v, key, value, number, x, p)
      ensures OpenedRow(v, key, value) == Some(p)
    {
      BigEndianRoundTrip(number, 8);
      assert value[..8] == BigEndian(number, 8) && value[8..] == v.seal(number, AAD + key, x);
    }
  }
}
