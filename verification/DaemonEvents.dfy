/** The event log as an object that its operations update in place. */
module DaemonEvents {
  import opened Bytes
  import opened Store
  import opened AuditRing

  class DaemonEvents {
    const size: nat
    const format: Format
    var log: seq<Event>
    var top: nat
    var rows: Rows

    function Snapshot(): Ring
      reads this
    {
      Ring(log, top, rows)
    }

    constructor (format: Format, size: nat, rows: Rows)
      ensures this.format == format && this.size == size && Snapshot() == Ring([], 0, rows)
    {
      this.format, this.size := format, size;
      log, top, this.rows := [], 0, rows;
    }

    /** Persisting comes first; either store operation may fail without stopping the other. */
    method Push(e: Event, putOk: bool, deleteOk: bool)
      modifies this
      ensures Snapshot() == AuditRing.Push(format, size, old(Snapshot()), e, putOk, deleteOk)
    {
      PersistEvent(e, putOk, deleteOk);
      log := log + [e];
      Trim();
    }

    method PersistEvent(e: Event, putOk: bool, deleteOk: bool)
      modifies this
      ensures log == old(log) && top == old(top) + 1
      ensures rows == Persist(format, old(rows), top, e, putOk, deleteOk)
    {
      top := top + 1;
      if putOk {
        rows := rows[format.key(top) := format.encode(e)];
      }
      if top > CAP && deleteOk {
        rows := rows - {format.key(top - CAP)};
      }
    }

    method Trim()
      modifies this
      ensures log == Last(old(log), size) && top == old(top) && rows == old(rows)
    {
      var excess := SaturatingSub(|log|, size);
      if excess > 0 {
        log := log[excess..];
      }
    }

    /** Rows are taken in the order of the scan. */
    method RestorePersisted(listing: seq<Row>)
      modifies this
      ensures Snapshot() == Restore(format, size, old(Snapshot()), listing)
    {
      var highest: nat := 0;
      ghost var loaded: seq<Event> := [];
      var i := 0;
      assert listing[..0] == [];
      while i < |listing|
        invariant i <= |listing| && Load(format, listing[..i]) == (loaded, highest)
        invariant log == old(log) + loaded && top == old(top) && rows == old(rows)
      {
        var row := listing[i];
        assert listing[..i + 1][..i] == listing[..i];
        if !StartsWith(row.key, TOKEN_PREFIX) && format.number(row.key).Some? {
          var number := format.number(row.key).value;
          if number > highest {
            highest := number;
          }
          var e := format.decode(row.value);
          if e.Some? {
            log := log + [e.value];
            loaded := loaded + [e.value];
          }
        }
        i := i + 1;
      }
      assert listing[..i] == listing;
      Trim();
      if highest > top {
        top := highest;
      }
    }

    method RecentEvents(limit: nat) returns (r: seq<Event>)
      ensures r == Recent(Snapshot(), limit)
    {
      var newest := Last(log, limit);
      r := [];
      var i := 0;
      while i < |newest|
        invariant i <= |newest| && r == NewestFirst(newest[..i])
      {
        assert newest[..i + 1][..i] == newest[..i];
        r := [newest[i]] + r;
        i := i + 1;
      }
      assert newest[..i] == newest;
    }
  }
}
