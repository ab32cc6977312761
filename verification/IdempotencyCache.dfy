/** The replay cache as the object that updates its map and queue in place. */
module IdempotencyCache {
  import opened Bytes
  import opened Store
  import opened Idempotency
  import opened IdempotencyStore

  class IdempotencyCache {
    var entries: map<Key, Entry>
    var order: seq<Key>

    ghost function Snapshot(): Cache
      reads this
    {
      Cache(entries, order)
    }

    constructor ()
      ensures Snapshot() == EMPTY_CACHE
    {
      entries, order := map[], [];
    }

    method Insert(k: Key, response: bytes, digest: bytes, now: nat)
      modifies this
      ensures Snapshot() == Idempotency.Insert(old(Snapshot()), k, Entry(response, digest, now))
      ensures old(CacheInv(Snapshot())) ==> CacheInv(Snapshot())
    {
      if CacheInv(Snapshot()) { InsertKeepsInv(Snapshot(), k, Entry(response, digest, now)); }
      if k in entries {
        entries := entries[k := Entry(response, digest, now)];
        return;
      }
      entries := entries[k := Entry(response, digest, now)];
      order := order + [k];
      ghost var grown := Snapshot();
      while |order| > CAP
        invariant Evict(Snapshot()) == Evict(grown)
        decreases |order|
      {
        var oldest := order[0];
        order := order[1..];
        entries := entries - {oldest};
      }
    }

    method Lookup(hash: Hash, k: Key, payload: bytes, now: nat) returns (found: Lookup)
      ensures found == Get(hash, Snapshot(), k, payload, now)
    {
      if k !in entries {
        return Miss;
      }
      var entry := entries[k];
      if now >= Expiry(entry.at) {
        return Miss;
      }
      found := if hash(payload) == entry.digest then Replay(entry.response) else Conflict;
    }

    /** `deleteOk` and `putOk` say whether the store operations succeed. */
    method InsertPersisted(
      v: Vault, store: Rows, k: Key, response: bytes, payload: bytes, now: nat, number: nat,
      deleteOk: bool, putOk: bool)
      returns (store': Rows)
      requires CacheInv(Snapshot())
      modifies this
      ensures CacheInv(Snapshot())
      ensures Disk(Snapshot(), store')
              == IdempotencyStore.InsertPersisted(v, Disk(old(Snapshot()), store), k, response, payload, now, number,
                                                  deleteOk, putOk)
    {
      var evicted := if k !in entries && |order| >= CAP then Some(order[0]) else None;
      InsertKeepsInv(Snapshot(), k, Entry(response, v.hash(payload), now));
      Insert(k, response, v.hash(payload), now);
      store' := store;
      if evicted.Some? && deleteOk {
        store' := store' - {StorageKey(v, evicted.value)};
      }
      var entry := entries[k];
      var key := StorageKey(v, k);
      var value := SealedRow(v, key, number, Persisted(k, entry.response, entry.digest, entry.at));
      if putOk {
        store' := store'[key := value];
      }
    }

    method RestoreOne(v: Vault, row: Row, now: nat) returns (stale: bool)
      modifies this
      ensures Snapshot() == RestoreRow(v, old(Snapshot()), row, now)
      ensures old(CacheInv(Snapshot())) ==> CacheInv(Snapshot())
      ensures stale == StaleRow(v, row.key, row.value, now)
    {
      var persisted := OpenedRow(v, row.key, row.value);
      if persisted.None? {
        return false;
      }
      var p := persisted.value;
      if now >= Expiry(p.at) || |p.digest| != DIGEST_LEN {
        return true;
      }
      Insert(p.key, p.response, v.hash([]), p.at);
      if p.key in entries {
        entries := entries[p.key := entries[p.key].(digest := p.digest)];
      }
      stale := false;
    }

    /** A failed scan leaves the cache empty; a failed deletion is ignored. */
    static method Restore(v: Vault, store: Rows, scan: Option<seq<Row>>, now: nat, deleteOk: bytes -> bool)
      returns (cache: IdempotencyCache, kept: Rows)
      requires scan.Some? ==> Scan(scan.value, store)
      ensures Disk(cache.Snapshot(), kept) == RestartWith(v, store, scan, now, deleteOk)
      ensures CacheInv(cache.Snapshot())
    {
      cache := new IdempotencyCache();
      kept := store;
      if scan.None? {
        return;
      }
      var rows := scan.value;
      var i := 0;
      while i < |rows|
        invariant 0 <= i <= |rows| && fresh(cache)
        invariant CacheInv(cache.Snapshot())
        invariant cache.Snapshot() == RestoreRows(v, rows[..i], now)
        invariant kept == KeptRows(v, store, rows[..i], now, deleteOk)
      {
        var stale := cache.RestoreOne(v, rows[i], now);
        RestoreStepAt(v, store, rows, i, now, deleteOk);
        if stale && deleteOk(rows[i].key) {
          kept := kept - {rows[i].key};
        }
        i := i + 1;
      }
      assert rows[..i] == rows;
      KeptAll(v, store, rows, now, deleteOk);
    }
  }
}
