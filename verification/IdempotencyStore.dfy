/**
 The replay cache mirrored to disk: every insertion seals its entry under a key
 derived from the call, and a restart rebuilds the cache from the sealed rows.

 The sealing cipher, the digest and the row encoding are functions of the
 `Vault`; `Sound` says what is used of them.
 */
module IdempotencyStore {
  import opened Bytes
  import opened Queues
  import opened Store
  import opened Idempotency

  const PREFIX: bytes := Ascii("idempotency/")
  const AAD: bytes := Ascii("UMC-IDEMPOTENCY-V1")
  const TAG_LEN: nat := 16
  const DIGEST_LEN: nat := 32

  datatype Persisted = Persisted(key: Key, response: bytes, digest: bytes, at: nat)

  datatype Vault = Vault(
    hash: bytes -> bytes,
    seal: (nat, bytes, bytes) -> bytes,
    unseal: (nat, bytes, bytes) -> Option<bytes>,
    encode: Persisted -> bytes,
    decode: bytes -> Option<Persisted>)

  /** Unsealing undoes sealing under the same number and context, and decoding undoes encoding. */
  ghost predicate Sound(v: Vault) {
    (forall n, aad, x {:trigger v.seal(n, aad, x)} ::
       v.unseal(n, aad, v.seal(n, aad, x)) == Some(x) && |v.seal(n, aad, x)| == |x| + TAG_LEN)
    && (forall p {:trigger v.encode(p)} :: v.decode(v.encode(p)) == Some(p))
    && (forall x {:trigger v.hash(x)} :: |v.hash(x)| == DIGEST_LEN)
  }

  // ----- storage keys -------------------------------------------------------

  /** Each part preceded by its length as eight octets. */
  function Framed(parts: seq<bytes>): bytes {
    if parts == [] then [] else BigEndian(|parts[0]|, 8) + parts[0] + Framed(parts[1..])
  }

  function Parts(k: Key): seq<bytes> {
    [k.scope, k.service, k.call, k.key]
  }

  function StorageKey(v: Vault, k: Key): bytes {
    PREFIX + v.hash(Framed(Parts(k)))
  }

  ghost predicate Sized(parts: seq<bytes>) {
    forall i :: 0 <= i < |parts| ==> |parts[i]| <= U64_MAX
  }

  /** The length prefixes make the framing unambiguous. */
  lemma {:induction false} FramedInjective(a: seq<bytes>, b: seq<bytes>)
    requires |a| == |b| && Sized(a) && Sized(b) && Framed(a) == Framed(b)
    ensures a == b
  {
    if a != [] {
      var x, y := Framed(a), Framed(b);
      assert x[..8] == BigEndian(|a[0]|, 8) && y[..8] == BigEndian(|b[0]|, 8);
      Pow256Values();
      BigEndianInjective(|a[0]|, |b[0]|, 8);
      var n := |a[0]|;
      assert x[8..8 + n] == a[0] && y[8..8 + n] == b[0];
      assert x[8 + n..] == Framed(a[1..]) && y[8 + n..] == Framed(b[1..]);
      FramedInjective(a[1..], b[1..]);
      assert a == [a[0]] + a[1..] && b == [b[0]] + b[1..];
    }
  }

  /** The digest tells the framed calls of `keys` apart, and their parts have machine sizes. */
  ghost predicate NoCollision(v: Vault, keys: set<Key>) {
    (forall k :: k in keys ==> Sized(Parts(k)))
    && (forall a, b {:trigger StorageKey(v, a), StorageKey(v, b)} ::
          a in keys && b in keys && v.hash(Framed(Parts(a))) == v.hash(Framed(Parts(b)))
          ==> Framed(Parts(a)) == Framed(Parts(b)))
  }

  lemma StorageKeyInjective(v: Vault, keys: set<Key>, a: Key, b: Key)
    requires NoCollision(v, keys) && a in keys && b in keys && StorageKey(v, a) == StorageKey(v, b)
    ensures a == b
  {
    assert StorageKey(v, a)[|PREFIX|..] == v.hash(Framed(Parts(a)));
    assert StorageKey(v, b)[|PREFIX|..] == v.hash(Framed(Parts(b)));
    FramedInjective(Parts(a), Parts(b));
    assert Parts(a)[0] == a.scope && Parts(a)[1] == a.service && Parts(a)[2] == a.call && Parts(a)[3] == a.key;
    assert Parts(b)[0] == b.scope && Parts(b)[1] == b.service && Parts(b)[2] == b.call && Parts(b)[3] == b.key;
  }

  // ----- rows ---------------------------------------------------------------

  function Record(k: Key, e: Entry): Persisted {
    Persisted(k, e.response, e.digest, e.at)
  }

  /** A packet number in clear, then the sealed record bound to its storage key. */
  function SealedRow(v: Vault, key: bytes, number: nat, p: Persisted): bytes {
    BigEndian(number, 8) + v.seal(number, AAD + key, v.encode(p))
  }

  /** What a row opens to, if it is a replay row and intact. */
  function OpenedRow(v: Vault, key: bytes, value: bytes): Option<Persisted> {
    if !StartsWith(key, PREFIX) || |value| < 8 + TAG_LEN then None
    else
      var plain := v.unseal(FromBigEndian(value[..8]), AAD + key, value[8..]);
      if plain.None? then None else v.decode(plain.value)
  }

  lemma OpenedSealed(v: Vault, k: Key, number: nat, p: Persisted)
    requires Sound(v) && number <= U64_MAX
    ensures OpenedRow(v, StorageKey(v, k), SealedRow(v, StorageKey(v, k), number, p)) == Some(p)
  {
    var key := StorageKey(v, k);
    var row := SealedRow(v, key, number, p);
    assert key[..|PREFIX|] == PREFIX;
    Pow256Values();
    BigEndianRoundTrip(number, 8);
    assert row[..8] == BigEndian(number, 8);
    assert row[8..] == v.seal(number, AAD + key, v.encode(p));
  }

  // ----- insertion ----------------------------------------------------------

  datatype Disk = Disk(cache: Cache, store: Rows)

  /** The key whose row an insertion of `k` deletes. */
  function Victim(c: Cache, k: Key): Option<Key> {
    if k !in c.entries && |c.order| >= CAP then Some(c.order[0]) else None
  }

  /**
   Insert in memory, then bring the disk along. A deletion or a write that fails
   leaves the store as it was; memory stays authoritative.
   */
  function InsertPersisted(
    v: Vault, d: Disk, k: Key, response: bytes, payload: bytes, now: nat, number: nat,
    deleteOk: bool, putOk: bool): Disk
  {
    var victim := Victim(d.cache, k);
    var e := Entry(response, v.hash(payload), now);
    var cache := Insert(d.cache, k, e);
    var store := if victim.Some? && deleteOk then d.store - {StorageKey(v, victim.value)} else d.store;
    var key := StorageKey(v, k);
    Disk(cache, if putOk then store[key := SealedRow(v, key, number, Record(k, e))] else store)
  }

  /** The replay rows on disk are exactly the entries in memory. */
  ghost predicate DiskMatches(v: Vault, d: Disk) {
    (forall k :: k in d.cache.entries ==>
       StorageKey(v, k) in d.store
       && OpenedRow(v, StorageKey(v, k), d.store[StorageKey(v, k)]) == Some(Record(k, d.cache.entries[k])))
    && (forall key :: key in d.store && StartsWith(key, PREFIX) ==> KeyOfEntry(v, d.cache, key))
  }

  ghost predicate KeyOfEntry(v: Vault, c: Cache, key: bytes) {
    exists k :: k in c.entries && StorageKey(v, k) == key
  }

  ghost predicate DigestsWhole(c: Cache) {
    forall k :: k in c.entries ==> |c.entries[k].digest| == DIGEST_LEN
  }

  /** Memory, queue and disk agree; all keys are among `keys`. */
  ghost predicate Agree(v: Vault, d: Disk, keys: set<Key>) {
    CacheInv(d.cache) && DiskMatches(v, d) && DigestsWhole(d.cache) && d.cache.entries.Keys <= keys
  }

  /** Every insertion whose store operations succeed keeps memory, queue and disk in agreement. */
  lemma InsertPersistedAgrees(
    v: Vault, d: Disk, keys: set<Key>, k: Key, response: bytes, payload: bytes, now: nat, number: nat)
    requires Sound(v) && NoCollision(v, keys) && Agree(v, d, keys) && k in keys && number <= U64_MAX
    ensures Agree(v, InsertPersisted(v, d, k, response, payload, now, number, true, true), keys)
  {
    var e := Entry(response, v.hash(payload), now);
    var d' := InsertPersisted(v, d, k, response, payload, now, number, true, true);
    InsertKeepsInv(d.cache, k, e);
    InsertEntries(d.cache, k, e);
    InsertMatches(v, d, keys, k, response, payload, now, number);
  }

  lemma InsertMatches(
    v: Vault, d: Disk, keys: set<Key>, k: Key, response: bytes, payload: bytes, now: nat, number: nat)
    requires Sound(v) && NoCollision(v, keys) && k in keys && number <= U64_MAX
    requires CacheInv(d.cache) && DiskMatches(v, d) && d.cache.entries.Keys <= keys
    ensures DiskMatches(v, InsertPersisted(v, d, k, response, payload, now, number, true, true))
  {
    var d' := InsertPersisted(v, d, k, response, payload, now, number, true, true);
    forall x | x in d'.cache.entries
      ensures StorageKey(v, x) in d'.store
      ensures OpenedRow(v, StorageKey(v, x), d'.store[StorageKey(v, x)]) == Some(Record(x, d'.cache.entries[x]))
    {
      RowPresent(v, d, keys, k, response, payload, now, number, x);
    }
    forall key | key in d'.store && StartsWith(key, PREFIX) ensures KeyOfEntry(v, d'.cache, key) {
      RowKnown(v, d, k, response, payload, now, number, key);
    }
  }

  lemma RowPresent(
    v: Vault, d: Disk, keys: set<Key>, k: Key, response: bytes, payload: bytes, now: nat, number: nat, x: Key)
    requires Sound(v) && NoCollision(v, keys) && number <= U64_MAX
    requires CacheInv(d.cache) && DiskMatches(v, d) && d.cache.entries.Keys <= keys && k in keys
    requires x in InsertPersisted(v, d, k, response, payload, now, number, true, true).cache.entries
    ensures var d' := InsertPersisted(v, d, k, response, payload, now, number, true, true);
            StorageKey(v, x) in d'.store
            && OpenedRow(v, StorageKey(v, x), d'.store[StorageKey(v, x)]) == Some(Record(x, d'.cache.entries[x]))
  {
    var e := Entry(response, v.hash(payload), now);
    InsertEntries(d.cache, k, e);
    OpenedSealed(v, k, number, Record(k, e));
    if x != k {
      if StorageKey(v, x) == StorageKey(v, k) { StorageKeyInjective(v, keys, x, k); }
      var victim := Victim(d.cache, k);
      if victim.Some? && StorageKey(v, x) == StorageKey(v, victim.value) {
        StorageKeyInjective(v, keys, x, victim.value);
      }
    }
  }

  lemma RowKnown(
    v: Vault, d: Disk, k: Key, response: bytes, payload: bytes, now: nat, number: nat, key: bytes)
    requires CacheInv(d.cache) && DiskMatches(v, d) && StartsWith(key, PREFIX)
    requires key in InsertPersisted(v, d, k, response, payload, now, number, true, true).store
    ensures KeyOfEntry(v, InsertPersisted(v, d, k, response, payload, now, number, true, true).cache, key)
  {
    var e := Entry(response, v.hash(payload), now);
    InsertEntries(d.cache, k, e);
    InsertKeepsInv(d.cache, k, e);
    if key != StorageKey(v, k) {
      assert KeyOfEntry(v, d.cache, key);
      var x :| x in d.cache.entries && StorageKey(v, x) == key;
      assert x in Insert(d.cache, k, e).entries;
    }
  }

  /** An insertion replaces `k` and removes at most the victim. */
  lemma InsertEntries(c: Cache, k: Key, e: Entry)
    requires CacheInv(c)
    ensures var gone := if Victim(c, k).Some? then {Victim(c, k).value} else {};
            Insert(c, k, e).entries == c.entries[k := e] - gone && k !in gone
    ensures Victim(c, k).Some? ==> Victim(c, k).value in c.entries
  {
    if k !in c.entries {
      InsertNew(c, k, e);
      if |c.order| == CAP {
        assert c.order[0] in c.order;
      }
    }
  }

  // ----- restart ------------------------------------------------------------

  predicate StaleRow(v: Vault, key: bytes, value: bytes, now: nat) {
    var p := OpenedRow(v, key, value);
    p.Some? && Stale(p.value, now)
  }

  /** A row that a restart deletes: intact but out of date or with a bad digest. */
  predicate Stale(p: Persisted, now: nat) {
    now >= Expiry(p.at) || |p.digest| != DIGEST_LEN
  }

  /** One row of the scan enters the cache under its own digest. */
  function RestoreRow(v: Vault, c: Cache, row: Row, now: nat): Cache {
    var p := OpenedRow(v, row.key, row.value);
    if p.None? || Stale(p.value, now) then c
    else
      var k := p.value.key;
      var c' := Insert(c, k, Entry(p.value.response, v.hash([]), p.value.at));
      if k in c'.entries then c'.(entries := c'.entries[k := c'.entries[k].(digest := p.value.digest)]) else c'
  }

  function RestoreRows(v: Vault, rows: seq<Row>, now: nat): Cache {
    if rows == [] then EMPTY_CACHE
    else RestoreRow(v, RestoreRows(v, rows[..|rows| - 1], now), rows[|rows| - 1], now)
  }

  /** The store without the stale rows whose deletion succeeds. */
  function Purged(v: Vault, store: Rows, now: nat, deleteOk: bytes -> bool): Rows {
    map key | key in store && !(StaleRow(v, key, store[key], now) && deleteOk(key)) :: store[key]
  }

  function Restart(v: Vault, store: Rows, rows: seq<Row>, now: nat): Disk {
    Disk(RestoreRows(v, rows, now), Purged(v, store, now, key => true))
  }

  /** With a scan that may fail, which leaves the cache empty, and deletions that may fail, which leave stale rows. */
  function RestartWith(v: Vault, store: Rows, scan: Option<seq<Row>>, now: nat, deleteOk: bytes -> bool): Disk {
    if scan.None? then Disk(EMPTY_CACHE, store)
    else Disk(RestoreRows(v, scan.value, now), Purged(v, store, now, deleteOk))
  }

  /** The entries of `c` that are alive at `now` and whose rows are among `rows`. */
  ghost predicate Restored(v: Vault, c: Cache, rows: seq<Row>, now: nat, r: Cache) {
    CacheInv(r)
    && (forall k :: k in r.entries <==>
          k in c.entries && now < Expiry(c.entries[k].at) && HasKey(rows, StorageKey(v, k)))
    && (forall k :: k in r.entries ==> r.entries[k] == c.entries[k])
  }

  lemma HasKeyPush(rows: seq<Row>, key: bytes)
    requires rows != []
    ensures HasKey(rows, key) <==> HasKey(rows[..|rows| - 1], key) || rows[|rows| - 1].key == key
  {
    if HasKey(rows[..|rows| - 1], key) {
      var i :| 0 <= i < |rows| - 1 && rows[..|rows| - 1][i].key == key;
      assert rows[i].key == key;
    }
    if HasKey(rows, key) && rows[|rows| - 1].key != key {
      var i :| 0 <= i < |rows| && rows[i].key == key;
      assert rows[..|rows| - 1][i].key == key;
    }
  }

  /** Fewer entries than a full cache leave room for one more. */
  lemma RoomLeft(r: Cache, c: Cache, k: Key)
    requires CacheInv(r) && CacheInv(c) && r.entries.Keys <= c.entries.Keys
    requires k in c.entries && k !in r.entries
    ensures |r.order| < CAP
  {
    DistinctSize(r.order);
    DistinctSize(c.order);
    var mine, all := Elements(r.order), Elements(c.order);
    assert mine <= all - {k};
    assert all == (all - {k}) + {k};
    SubsetSize(mine, all - {k});
  }

  lemma RestoreStep(v: Vault, d: Disk, keys: set<Key>, front: seq<Row>, row: Row, now: nat, r: Cache)
    requires NoCollision(v, keys) && Agree(v, d, keys)
    requires Restored(v, d.cache, front, now, r)
    requires row.key in d.store && d.store[row.key] == row.value && !HasKey(front, row.key)
    ensures Restored(v, d.cache, front + [row], now, RestoreRow(v, r, row, now))
  {
    assert (front + [row])[..|front|] == front;
    forall key ensures HasKey(front + [row], key) <==> HasKey(front, key) || row.key == key {
      HasKeyPush(front + [row], key);
    }
    if !StartsWith(row.key, PREFIX) {
      forall k | k in d.cache.entries ensures StorageKey(v, k) != row.key {
        assert StorageKey(v, k)[..|PREFIX|] == PREFIX;
      }
    } else {
      var k := OnlyEntryOfRow(v, d, keys, row.key);
      if now < Expiry(d.cache.entries[k].at) {
        RestoreEntry(v, d.cache, k, r, row, now);
      }
    }
  }

  lemma OnlyEntryOfRow(v: Vault, d: Disk, keys: set<Key>, key: bytes) returns (k: Key)
    requires NoCollision(v, keys) && Agree(v, d, keys) && key in d.store && StartsWith(key, PREFIX)
    ensures k in d.cache.entries && StorageKey(v, k) == key
    ensures forall x :: x in d.cache.entries && StorageKey(v, x) == key ==> x == k
  {
    assert KeyOfEntry(v, d.cache, key);
    k :| k in d.cache.entries && StorageKey(v, k) == key;
    forall x | x in d.cache.entries && StorageKey(v, x) == key ensures x == k {
      StorageKeyInjective(v, keys, x, k);
    }
  }

  /** The row of a live entry puts that entry back. */
  lemma RestoreEntry(v: Vault, c: Cache, k: Key, r: Cache, row: Row, now: nat)
    requires CacheInv(c) && CacheInv(r) && r.entries.Keys <= c.entries.Keys && k !in r.entries
    requires k in c.entries && now < Expiry(c.entries[k].at) && |c.entries[k].digest| == DIGEST_LEN
    requires OpenedRow(v, row.key, row.value) == Some(Record(k, c.entries[k]))
    ensures CacheInv(RestoreRow(v, r, row, now))
    ensures RestoreRow(v, r, row, now).entries == r.entries[k := c.entries[k]]
    ensures RestoreRow(v, r, row, now).order == r.order + [k]
  {
    var e := Entry(c.entries[k].response, v.hash([]), c.entries[k].at);
    RoomLeft(r, c, k);
    InsertNew(r, k, e);
    InsertKeepsInv(r, k, e);
    var c' := Insert(r, k, e);
    assert c'.entries == r.entries[k := e];
    assert c'.entries[k].(digest := c.entries[k].digest) == c.entries[k];
    assert c'.entries[k := c.entries[k]] == r.entries[k := c.entries[k]];
    assert c'.entries[k := c.entries[k]].Keys == c'.entries.Keys;
  }

  lemma {:induction false} RestoreRowsExact(v: Vault, d: Disk, keys: set<Key>, rows: seq<Row>, n: nat, now: nat)
    requires NoCollision(v, keys) && Agree(v, d, keys) && Scan(rows, d.store) && n <= |rows|
    ensures Restored(v, d.cache, rows[..n], now, RestoreRows(v, rows[..n], now))
  {
    if n > 0 {
      RestoreRowsExact(v, d, keys, rows, n - 1, now);
      var front, row := rows[..n - 1], rows[n - 1];
      assert rows[..n] == front + [row];
      RestoreRowsPush(v, front, row, now);
      NotYetScanned(rows, n);
      RestoreStep(v, d, keys, front, row, now, RestoreRows(v, front, now));
    }
  }

  lemma RestoreRowsPush(v: Vault, front: seq<Row>, row: Row, now: nat)
    ensures RestoreRows(v, front + [row], now) == RestoreRow(v, RestoreRows(v, front, now), row, now)
  {
    assert (front + [row])[..|front|] == front;
  }

  lemma NotYetScanned(rows: seq<Row>, n: nat)
    requires Sorted(rows) && 0 < n <= |rows|
    ensures !HasKey(rows[..n - 1], rows[n - 1].key)
  {
    var front := rows[..n - 1];
    if HasKey(front, rows[n - 1].key) {
      var i :| 0 <= i < |front| && front[i].key == rows[n - 1].key;
      ScanOnce(rows, i, n - 1);
    }
  }

  /** A restart brings back exactly the entries that are still alive. */
  lemma RestartExact(v: Vault, d: Disk, keys: set<Key>, rows: seq<Row>, now: nat)
    requires NoCollision(v, keys) && Agree(v, d, keys) && Scan(rows, d.store)
    ensures var r := Restart(v, d.store, rows, now).cache;
            CacheInv(r)
            && (forall k :: k in r.entries <==> k in d.cache.entries && now < Expiry(d.cache.entries[k].at))
            && (forall k :: k in r.entries ==> r.entries[k] == d.cache.entries[k])
  {
    RestoreRowsExact(v, d, keys, rows, |rows|, now);
    assert rows[..|rows|] == rows;
    forall k | k in d.cache.entries ensures HasKey(rows, StorageKey(v, k)) {
      assert StorageKey(v, k) in d.store;
    }
  }

  /** After a restart every lookup answers what it would have answered without it, whichever deletions fail. */
  lemma RestartKeepsLookups(
    v: Vault, d: Disk, keys: set<Key>, rows: seq<Row>, r: nat, deleteOk: bytes -> bool,
    k: Key, payload: bytes, now: nat)
    requires NoCollision(v, keys) && Agree(v, d, keys) && Scan(rows, d.store) && now >= r
    ensures Get(v.hash, RestartWith(v, d.store, Some(rows), r, deleteOk).cache, k, payload, now)
            == Get(v.hash, d.cache, k, payload, now)
  {
    RestartExact(v, d, keys, rows, r);
  }

  /** After a restart memory and disk agree again. */
  lemma RestartAgrees(v: Vault, d: Disk, keys: set<Key>, rows: seq<Row>, now: nat)
    requires NoCollision(v, keys) && Agree(v, d, keys) && Scan(rows, d.store)
    ensures Agree(v, Restart(v, d.store, rows, now), keys)
  {
    RestartExact(v, d, keys, rows, now);
    var d' := Restart(v, d.store, rows, now);
    forall key | key in d'.store && StartsWith(key, PREFIX) ensures KeyOfEntry(v, d'.cache, key) {
      assert KeyOfEntry(v, d.cache, key);
      var k :| k in d.cache.entries && StorageKey(v, k) == key;
      assert k in d'.cache.entries;
    }
  }

  // ----- runs with restarts -------------------------------------------------

  datatype Event =
    | Inserted(k: Key, response: bytes, payload: bytes, now: nat, number: nat)
    | Restarted(rows: seq<Row>, now: nat)
    | Other(key: bytes, value: Option<bytes>)

  function After(v: Vault, d: Disk, ev: Event): Disk {
    match ev
    case Inserted(k, response, payload, now, number) =>
      InsertPersisted(v, d, k, response, payload, now, number, true, true)
    case Restarted(rows, now) => Restart(v, d.store, rows, now)
    case Other(key, value) =>
      d.(store := if value.Some? then d.store[key := value.value] else d.store - {key})
  }

  function AfterAll(v: Vault, d: Disk, evs: seq<Event>): Disk {
    if evs == [] then d else After(v, AfterAll(v, d, evs[..|evs| - 1]), evs[|evs| - 1])
  }

  /**
   Keys are among `keys`, packet numbers fit, every restart scans the store it
   finds, and the other users of the namespace keep to other keys.
   */
  ghost predicate Possible(v: Vault, d: Disk, keys: set<Key>, evs: seq<Event>) {
    evs == [] ||
    (Possible(v, d, keys, evs[..|evs| - 1])
     && match evs[|evs| - 1]
        case Inserted(k, response, payload, now, number) => k in keys && number <= U64_MAX
        case Restarted(rows, now) => Scan(rows, AfterAll(v, d, evs[..|evs| - 1]).store)
        case Other(key, value) => !StartsWith(key, PREFIX))
  }

  /** Over any run of insertions, restarts and writes by others, memory, queue and disk agree. */
  lemma {:induction false} RunAgrees(v: Vault, d: Disk, keys: set<Key>, evs: seq<Event>)
    requires Sound(v) && NoCollision(v, keys) && Agree(v, d, keys) && Possible(v, d, keys, evs)
    ensures Agree(v, AfterAll(v, d, evs), keys)
  {
    if evs != [] {
      var before := AfterAll(v, d, evs[..|evs| - 1]);
      RunAgrees(v, d, keys, evs[..|evs| - 1]);
      match evs[|evs| - 1]
      case Inserted(k, response, payload, now, number) =>
        InsertPersistedAgrees(v, before, keys, k, response, payload, now, number);
      case Restarted(rows, now) =>
        RestartAgrees(v, before, keys, rows, now);
      case Other(key, value) =>
        OtherAgrees(v, before, keys, key, value);
    }
  }

  lemma OtherAgrees(v: Vault, d: Disk, keys: set<Key>, key: bytes, value: Option<bytes>)
    requires Agree(v, d, keys) && !StartsWith(key, PREFIX)
    ensures Agree(v, After(v, d, Other(key, value)), keys)
  {
    forall k | k in d.cache.entries ensures StorageKey(v, k) != key {
      assert StorageKey(v, k)[..|PREFIX|] == PREFIX;
    }
  }

  /** A store without replay rows agrees with an empty cache, whatever else it holds. */
  lemma EmptyAgrees(v: Vault, store: Rows, keys: set<Key>)
    requires forall key :: key in store ==> !StartsWith(key, PREFIX)
    ensures Agree(v, Disk(EMPTY_CACHE, store), keys)
  {
  }

  // ----- dropping stale rows one by one -------------------------------------

  /** `kept` is the store without the stale rows among those scanned so far. */
  ghost predicate KeptAfter(
    v: Vault, store: Rows, scanned: seq<Row>, now: nat, deleteOk: bytes -> bool, kept: Rows)
  {
    (forall key :: key in kept <==>
       key in store && !(HasKey(scanned, key) && StaleRow(v, key, store[key], now) && deleteOk(key)))
    && (forall key :: key in kept ==> kept[key] == store[key])
  }

  lemma KeptStep(
    v: Vault, store: Rows, rows: seq<Row>, i: nat, now: nat, deleteOk: bytes -> bool, kept: Rows)
    requires i < |rows| && rows[i].key in store && store[rows[i].key] == rows[i].value
    requires KeptAfter(v, store, rows[..i], now, deleteOk, kept)
    ensures KeptAfter(v, store, rows[..i + 1], now, deleteOk,
                      if StaleRow(v, rows[i].key, rows[i].value, now) && deleteOk(rows[i].key)
                      then kept - {rows[i].key} else kept)
  {
    assert rows[..i + 1][..i] == rows[..i];
    forall key ensures HasKey(rows[..i + 1], key) <==> HasKey(rows[..i], key) || rows[i].key == key {
      HasKeyPush(rows[..i + 1], key);
    }
  }

  /** The store after the rows scanned so far. */
  function KeptRows(v: Vault, store: Rows, scanned: seq<Row>, now: nat, deleteOk: bytes -> bool): Rows {
    if scanned == [] then store
    else
      var kept, row := KeptRows(v, store, scanned[..|scanned| - 1], now, deleteOk), scanned[|scanned| - 1];
      if StaleRow(v, row.key, row.value, now) && deleteOk(row.key) then kept - {row.key} else kept
  }

  /** One more row of the scan, for the cache and for the rows that are kept. */
  lemma RestoreStepAt(v: Vault, store: Rows, rows: seq<Row>, i: nat, now: nat, deleteOk: bytes -> bool)
    requires i < |rows|
    ensures RestoreRows(v, rows[..i + 1], now) == RestoreRow(v, RestoreRows(v, rows[..i], now), rows[i], now)
    ensures var kept := KeptRows(v, store, rows[..i], now, deleteOk);
            KeptRows(v, store, rows[..i + 1], now, deleteOk)
            == if StaleRow(v, rows[i].key, rows[i].value, now) && deleteOk(rows[i].key)
               then kept - {rows[i].key} else kept
  {
    assert rows[..i + 1][..i] == rows[..i];
  }

  lemma {:induction false} KeptRowsAfter(
    v: Vault, store: Rows, rows: seq<Row>, i: nat, now: nat, deleteOk: bytes -> bool)
    requires i <= |rows| && Scan(rows, store)
    ensures KeptAfter(v, store, rows[..i], now, deleteOk, KeptRows(v, store, rows[..i], now, deleteOk))
  {
    if i == 0 {
      assert forall key :: !HasKey(rows[..0], key);
    } else {
      KeptRowsAfter(v, store, rows, i - 1, now, deleteOk);
      ScannedRow(rows, store, i - 1);
      KeptStep(v, store, rows, i - 1, now, deleteOk, KeptRows(v, store, rows[..i - 1], now, deleteOk));
      RestoreStepAt(v, store, rows, i - 1, now, deleteOk);
    }
  }

  lemma ScannedRow(rows: seq<Row>, store: Rows, i: nat)
    requires Scan(rows, store) && i < |rows|
    ensures rows[i].key in store && store[rows[i].key] == rows[i].value
  {
  }

  lemma KeptAll(v: Vault, store: Rows, rows: seq<Row>, now: nat, deleteOk: bytes -> bool)
    requires Scan(rows, store)
    ensures KeptRows(v, store, rows, now, deleteOk) == Purged(v, store, now, deleteOk)
  {
    KeptRowsAfter(v, store, rows, |rows|, now, deleteOk);
    assert rows[..|rows|] == rows;
  }

  // ----- the queue after a restart ------------------------------------------

  /** The queue lists the keys in the order of their rows. */
  ghost predicate InRowOrder(v: Vault, order: seq<Key>) {
    forall i, j {:trigger order[i], order[j]} :: 0 <= i < j < |order| ==>
      Before(StorageKey(v, order[i]), StorageKey(v, order[j]))
  }

  lemma InRowOrderPush(v: Vault, order: seq<Key>, k: Key)
    requires InRowOrder(v, order) && forall x :: x in order ==> Before(StorageKey(v, x), StorageKey(v, k))
    ensures InRowOrder(v, order + [k])
  {
    forall i, j | 0 <= i < j < |order + [k]|
      ensures Before(StorageKey(v, (order + [k])[i]), StorageKey(v, (order + [k])[j]))
    {
      if j == |order| {
        assert order[i] in order;
      }
    }
  }

  /** One more row: either the queue stays, or the key of the row joins it. */
  lemma RestoreRowOrder(v: Vault, d: Disk, keys: set<Key>, front: seq<Row>, row: Row, now: nat, r: Cache)
    requires NoCollision(v, keys) && Agree(v, d, keys) && Restored(v, d.cache, front, now, r)
    requires row.key in d.store && d.store[row.key] == row.value && !HasKey(front, row.key)
    ensures var after := RestoreRow(v, r, row, now);
            after == r || exists k :: after.order == r.order + [k] && StorageKey(v, k) == row.key
  {
    if StartsWith(row.key, PREFIX) {
      assert KeyOfEntry(v, d.cache, row.key);
      var k :| k in d.cache.entries && StorageKey(v, k) == row.key;
      if now < Expiry(d.cache.entries[k].at) {
        RestoreEntry(v, d.cache, k, r, row, now);
      }
    }
  }

  lemma EarlierRow(v: Vault, c: Cache, rows: seq<Row>, n: nat, now: nat, r: Cache, x: Key)
    requires Sorted(rows) && 0 < n <= |rows| && Restored(v, c, rows[..n - 1], now, r) && x in r.order
    ensures Before(StorageKey(v, x), rows[n - 1].key)
  {
    assert HasKey(rows[..n - 1], StorageKey(v, x));
    var i :| 0 <= i < n - 1 && rows[..n - 1][i].key == StorageKey(v, x);
    assert rows[i].key == StorageKey(v, x);
  }

  lemma {:induction false} RestoreRowsOrder(v: Vault, d: Disk, keys: set<Key>, rows: seq<Row>, n: nat, now: nat)
    requires NoCollision(v, keys) && Agree(v, d, keys) && Scan(rows, d.store) && n <= |rows|
    ensures InRowOrder(v, RestoreRows(v, rows[..n], now).order)
  {
    if n > 0 {
      RestoreRowsOrder(v, d, keys, rows, n - 1, now);
      RestoreRowsExact(v, d, keys, rows, n - 1, now);
      var front, row := rows[..n - 1], rows[n - 1];
      var r := RestoreRows(v, front, now);
      assert rows[..n] == front + [row];
      RestoreRowsPush(v, front, row, now);
      NotYetScanned(rows, n);
      RestoreRowOrder(v, d, keys, front, row, now, r);
      var after := RestoreRow(v, r, row, now);
      if after != r {
        var k :| after.order == r.order + [k] && StorageKey(v, k) == row.key;
        forall x | x in r.order ensures Before(StorageKey(v, x), StorageKey(v, k)) {
          EarlierRow(v, d.cache, rows, n, now, r, x);
        }
        InRowOrderPush(v, r.order, k);
      }
    }
  }

  /** The row of `x` comes before that of `y`. */
  predicate RowBefore(v: Vault, x: Key, y: Key) {
    Before(StorageKey(v, x), StorageKey(v, y))
  }

  lemma RowOrder(v: Vault, order: seq<Key>)
    requires InRowOrder(v, order)
    ensures OrderedBy((x: Key, y: Key) => RowBefore(v, x, y), order)
  {
    forall i, j | 0 <= i < |order| && 0 <= j < |order| ensures RowBefore(v, order[i], order[j]) <==> i < j {
      if i > j {
        BeforeAsymmetric(StorageKey(v, order[j]), StorageKey(v, order[i]));
      } else if i == j {
        BeforeIrreflexive(StorageKey(v, order[i]));
      }
    }
  }

  /** The entries alive at `now` whose rows come after that of `k`. */
  function Behind(v: Vault, c: Cache, now: nat, k: Key): set<Key> {
    set x | x in c.entries && now < Expiry(c.entries[x].at) && RowBefore(v, k, x)
  }

  /** After a restart an entry stands in the queue before exactly the live entries whose rows come after its own. */
  lemma RestartHolds(v: Vault, d: Disk, keys: set<Key>, rows: seq<Row>, now: nat, k: Key)
    requires NoCollision(v, keys) && Agree(v, d, keys) && Scan(rows, d.store)
    requires k in d.cache.entries && now < Expiry(d.cache.entries[k].at)
    ensures Holds(Restart(v, d.store, rows, now).cache, k, d.cache.entries[k], |Behind(v, d.cache, now, k)|)
  {
    RestartExact(v, d, keys, rows, now);
    RestoreRowsOrder(v, d, keys, rows, |rows|, now);
    assert rows[..|rows|] == rows;
    FollowersBehind(v, Restart(v, d.store, rows, now).cache, d.cache, now, k);
  }

  lemma FollowersBehind(v: Vault, r: Cache, c: Cache, now: nat, k: Key)
    requires CacheInv(r) && InRowOrder(v, r.order) && k in r.entries
    requires forall x :: x in r.entries <==> x in c.entries && now < Expiry(c.entries[x].at)
    ensures Followers(r.order, k) == |Behind(v, c, now, k)|
  {
    var less := (x: Key, y: Key) => RowBefore(v, x, y);
    RowOrder(v, r.order);
    FollowersAbove(less, r.order, k);
    assert Above(less, r.order, k) == Behind(v, c, now, k);
  }

  /**
   A stored request that comes again after a restart is dispatched exactly when it comes too late, or when the live
   entries with later rows and the new keys since the restart are 1024 or more.
   */
  lemma DispatchedAfterRestart(
    v: Vault, d: Disk, keys: set<Key>, rows: seq<Row>, r: nat, calls: seq<Call>, again: Call)
    requires NoCollision(v, keys) && Agree(v, d, keys) && Scan(rows, d.store)
    requires again.key in d.cache.entries && r < Expiry(d.cache.entries[again.key].at) && Unused(calls, again.key)
    ensures var cache := Restart(v, d.store, rows, r).cache;
            Dispatches(v.hash, ServeAll(v.hash, cache, calls), again)
            <==> again.now >= Expiry(d.cache.entries[again.key].at)
                 || |Behind(v, d.cache, r, again.key)| + NewKeys(v.hash, cache, calls) >= 1024
  {
    RestartHolds(v, d, keys, rows, r, again.key);
    DispatchedAgainExactly(v.hash, Restart(v, d.store, rows, r).cache, calls, d.cache.entries[again.key],
                           |Behind(v, d.cache, r, again.key)|, again);
  }
}
