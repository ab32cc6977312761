/** The audit log when the store fails or holds rows that are not read back: pushes, and restores, of any kind. */
module AuditFaults {
  import opened Bytes
  import opened Store
  import opened AuditRing

  // ----- pushes whose writes and deletions may fail -------------------------

  datatype Pushed = Pushed(event: Event, putOk: bool, deleteOk: bool)

  function PushAll(f: Format, size: nat, r: Ring, pushes: seq<Pushed>): Ring {
    if pushes == [] then r else
    var last := pushes[|pushes| - 1];
    Push(f, size, PushAll(f, size, r, pushes[..|pushes| - 1]), last.event, last.putOk, last.deleteOk)
  }

  function Events(pushes: seq<Pushed>): seq<Event> {
    seq(|pushes|, i requires 0 <= i < |pushes| => pushes[i].event)
  }

  /** The push that takes number `i`, counting from `top`, is among the pushes. */
  predicate Takes(top: nat, pushes: seq<Pushed>, i: nat) {
    top < i <= top + |pushes|
  }

  /** The row of number `i` was deleted, by the push that comes 10000 numbers later. */
  predicate Deleted(top: nat, pushes: seq<Pushed>, i: nat) {
    i > 0 && Takes(top, pushes, i + 10_000) && pushes[i + 10_000 - top - 1].deleteOk
  }

  predicate Written(top: nat, pushes: seq<Pushed>, i: nat) {
    Takes(top, pushes, i) && pushes[i - top - 1].putOk
  }

  /** The row of number `i` after the pushes. */
  function RowOf(f: Format, r: Ring, pushes: seq<Pushed>, i: nat): Option<bytes> {
    if Deleted(r.top, pushes, i) then None
    else if Written(r.top, pushes, i) then Some(f.encode(pushes[i - r.top - 1].event))
    else Get(r.rows, f.key(i))
  }

  function Get(rows: Rows, key: bytes): Option<bytes> {
    if key in rows then Some(rows[key]) else None
  }

  lemma DifferentKeys(f: Format, i: nat, j: nat)
    requires ReadsBack(f) && i <= U64_MAX && j <= U64_MAX
    ensures f.key(i) == f.key(j) <==> i == j
  {
    assert f.number(f.key(i)) == Some(i) && f.number(f.key(j)) == Some(j);
  }

  /** One push writes its own row and deletes the one 10000 numbers before. */
  lemma PushedRow(f: Format, size: nat, r: Ring, p: Pushed, i: nat)
    requires ReadsBack(f) && r.top < U64_MAX && i <= U64_MAX
    ensures Get(Push(f, size, r, p.event, p.putOk, p.deleteOk).rows, f.key(i))
            == if i > 0 && r.top + 1 == i + 10_000 && p.deleteOk then None
               else if i == r.top + 1 && p.putOk then Some(f.encode(p.event))
               else Get(r.rows, f.key(i))
  {
    DifferentKeys(f, i, r.top + 1);
    if r.top + 1 > 10_000 {
      DifferentKeys(f, i, r.top + 1 - 10_000);
    }
  }

  lemma RowNext(f: Format, r: Ring, pushes: seq<Pushed>, i: nat)
    requires pushes != []
    ensures var n := |pushes| - 1;
            RowOf(f, r, pushes, i)
            == if i > 0 && r.top + n + 1 == i + 10_000 && pushes[n].deleteOk then None
               else if i == r.top + n + 1 && pushes[n].putOk then Some(f.encode(pushes[n].event))
               else RowOf(f, r, pushes[..n], i)
  {
  }

  /**
   For any ring and any pushes, whether or not the store took them: the numbers go on by one, and the row of each number
   is there exactly as its own write and its own deletion left it.
   */
  lemma {:induction false} PushesExactly(f: Format, size: nat, r: Ring, pushes: seq<Pushed>, i: nat)
    requires ReadsBack(f) && r.top + |pushes| <= U64_MAX && i <= U64_MAX
    ensures var after := PushAll(f, size, r, pushes);
            after.top == r.top + |pushes| && Get(after.rows, f.key(i)) == RowOf(f, r, pushes, i)
    decreases |pushes|
  {
    if pushes != [] {
      var n := |pushes| - 1;
      PushesExactly(f, size, r, pushes[..n], i);
      PushedRow(f, size, PushAll(f, size, r, pushes[..n]), pushes[n], i);
      RowNext(f, r, pushes, i);
    }
  }

  lemma {:induction false} PushesLog(f: Format, size: nat, r: Ring, pushes: seq<Pushed>)
    requires |r.log| <= size
    ensures PushAll(f, size, r, pushes).log == Last(r.log + Events(pushes), size)
    decreases |pushes|
  {
    if pushes == [] {
      assert r.log + Events(pushes) == r.log;
    } else {
      var front, last := pushes[..|pushes| - 1], pushes[|pushes| - 1];
      PushesLog(f, size, r, front);
      LastPush(r.log + Events(front), last.event, size);
      EventsNext(r.log, pushes);
    }
  }

  lemma EventsNext(log: seq<Event>, pushes: seq<Pushed>)
    requires pushes != []
    ensures log + Events(pushes)
            == log + Events(pushes[..|pushes| - 1]) + [pushes[|pushes| - 1].event]
  {
    assert Events(pushes) == Events(pushes[..|pushes| - 1]) + [pushes[|pushes| - 1].event];
  }

  /** Rows without a number stay as they are. */
  lemma {:induction false} PushesKeepOthers(f: Format, size: nat, r: Ring, pushes: seq<Pushed>, k: bytes)
    requires ReadsBack(f) && r.top + |pushes| <= U64_MAX && f.number(k).None?
    ensures Get(PushAll(f, size, r, pushes).rows, k) == Get(r.rows, k)
    ensures PushAll(f, size, r, pushes).top == r.top + |pushes|
    decreases |pushes|
  {
    if pushes != [] {
      var n := |pushes| - 1;
      PushesKeepOthers(f, size, r, pushes[..n], k);
      assert f.number(f.key(r.top + n + 1)).Some?;
      if r.top + n + 1 > 10_000 {
        assert f.number(f.key(r.top + n + 1 - 10_000)).Some?;
      }
    }
  }

  // ----- restoring from any listing into any ring ---------------------------

  /** A row that is neither a token nor without a number. */
  predicate Numbered(f: Format, row: Row) {
    !StartsWith(row.key, Ascii("control-token/")) && f.number(row.key).Some?
  }

  predicate Readable(f: Format, row: Row) {
    Numbered(f, row) && f.decode(row.value).Some?
  }

  /** The places of the rows that are read back, in order. */
  function Places(f: Format, listing: seq<Row>): (r: seq<nat>)
    ensures forall i :: 0 <= i < |r| ==> r[i] < |listing| && Readable(f, listing[r[i]])
  {
    if listing == [] then []
    else
      var n := |listing| - 1;
      Places(f, listing[..n]) + if Readable(f, listing[n]) then [n] else []
  }

  lemma {:induction false} PlacesExactly(f: Format, listing: seq<Row>)
    ensures forall i: nat :: i in Places(f, listing) <==> i < |listing| && Readable(f, listing[i])
    ensures forall i, j :: 0 <= i < j < |Places(f, listing)| ==> Places(f, listing)[i] < Places(f, listing)[j]
  {
    if listing != [] {
      PlacesExactly(f, listing[..|listing| - 1]);
    }
  }

  function EventsRead(f: Format, listing: seq<Row>): seq<Event> {
    var places := Places(f, listing);
    seq(|places|, i requires 0 <= i < |places| => f.decode(listing[places[i]].value).value)
  }

  lemma {:induction false} LoadedExactly(f: Format, listing: seq<Row>)
    ensures Load(f, listing).0 == EventsRead(f, listing)
    ensures forall row :: row in listing && Numbered(f, row) ==> f.number(row.key).value <= Load(f, listing).1
    ensures Load(f, listing).1 == 0
            || exists row :: row in listing && Numbered(f, row) && f.number(row.key).value == Load(f, listing).1
  {
    if listing != [] {
      var front, row := listing[..|listing| - 1], listing[|listing| - 1];
      LoadedExactly(f, front);
      ReadNext(f, listing);
      assert listing == front + [row];
    }
  }

  lemma ReadNext(f: Format, listing: seq<Row>)
    requires listing != []
    ensures var front, row := listing[..|listing| - 1], listing[|listing| - 1];
            EventsRead(f, listing)
            == EventsRead(f, front) + if Readable(f, row) then [f.decode(row.value).value] else []
  {
    var front := listing[..|listing| - 1];
    forall i | 0 <= i < |Places(f, front)| ensures listing[Places(f, front)[i]] == front[Places(f, front)[i]] {
    }
  }

  /**
   Whatever rows the store lists and whatever the ring holds: the events that are read back are added in their order
   and the last of all are kept, and the next number exceeds the ring's own and that of every numbered row.
   */
  lemma RestoredExactly(f: Format, size: nat, r: Ring, listing: seq<Row>)
    ensures var after := Restore(f, size, r, listing);
            after.log == Last(r.log + EventsRead(f, listing), size) && after.rows == r.rows
            && after.top >= r.top
            && (forall row :: row in listing && Numbered(f, row) ==> f.number(row.key).value <= after.top)
            && (after.top == r.top
                || exists row :: row in listing && Numbered(f, row) && f.number(row.key).value == after.top)
  {
    LoadedExactly(f, listing);
  }
}
