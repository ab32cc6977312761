/**
 The audit log: a bounded ring of events in memory, mirrored to numbered rows of a
 store that other components share, and read back after a restart.
 */
module AuditRing {
  import opened Bytes
  import opened Queues
  import opened Store
  import DecimalKeys

  const CAP: nat := 10_000
  const TOKEN_PREFIX: bytes := Ascii("control-token/")

  datatype Event = Event(kind: bytes, at: nat, detail: bytes)

  /** Row keys and the serialisation of events. */
  datatype Format = Format(
    key: nat -> bytes, number: bytes -> Option<nat>, encode: Event -> bytes, decode: bytes -> Option<Event>)

  ghost predicate ReadsBack(f: Format) {
    forall n: nat {:trigger f.key(n)} :: n <= U64_MAX ==>
      f.number(f.key(n)) == Some(n) && !StartsWith(f.key(n), TOKEN_PREFIX)
  }

  ghost predicate Ordered(f: Format) {
    forall m: nat, n: nat {:trigger Before(f.key(m), f.key(n))} ::
      m <= U64_MAX && n <= U64_MAX ==> (Before(f.key(m), f.key(n)) <==> m < n)
  }

  /** Keys are read back and ordered as their numbers, and events are read back. */
  ghost predicate Sound(f: Format) {
    ReadsBack(f) && Ordered(f) && forall e {:trigger f.encode(e)} :: f.decode(f.encode(e)) == Some(e)
  }

  /** `top` is the number of the row written last. */
  datatype Ring = Ring(log: seq<Event>, top: nat, rows: Rows)

  function Last<T>(s: seq<T>, k: nat): (r: seq<T>)
    ensures |r| <= k && |r| <= |s|
  {
    if |s| <= k then s else s[|s| - k..]
  }

  // ----- operations ---------------------------------------------------------

  /** The row of the new event is written, and the one that falls out of the cap is deleted. */
  function Persist(f: Format, rows: Rows, number: nat, e: Event, putOk: bool, deleteOk: bool): Rows {
    var written := if putOk then rows[f.key(number) := f.encode(e)] else rows;
    if number > CAP && deleteOk then written - {f.key(number - CAP)} else written
  }

  function Push(f: Format, size: nat, r: Ring, e: Event, putOk: bool, deleteOk: bool): Ring {
    Ring(Last(r.log + [e], size), r.top + 1, Persist(f, r.rows, r.top + 1, e, putOk, deleteOk))
  }

  /** What scanning the rows in key order loads: events, and the highest number seen. */
  function Load(f: Format, listing: seq<Row>): (seq<Event>, nat) {
    if listing == [] then ([], 0)
    else
      var (log, top) := Load(f, listing[..|listing| - 1]);
      var row := listing[|listing| - 1];
      if StartsWith(row.key, TOKEN_PREFIX) || f.number(row.key).None? then (log, top)
      else
        var number := f.number(row.key).value;
        var e := f.decode(row.value);
        (if e.Some? then log + [e.value] else log, if number > top then number else top)
  }

  /** Restoring into a ring that may already hold events. */
  function Restore(f: Format, size: nat, r: Ring, listing: seq<Row>): Ring {
    var (log, top) := Load(f, listing);
    Ring(Last(r.log + log, size), if top > r.top then top else r.top, r.rows)
  }

  /** From the last event back to the first. */
  function NewestFirst(log: seq<Event>): (r: seq<Event>)
    ensures |r| == |log|
  {
    if log == [] then [] else [log[|log| - 1]] + NewestFirst(log[..|log| - 1])
  }

  /** The newest first. */
  function Recent(r: Ring, limit: nat): seq<Event> {
    NewestFirst(Last(r.log, limit))
  }

  // ----- the rows of a history ----------------------------------------------

  /** The rows of which numbers are kept when `n` events were pushed. */
  predicate Kept(n: nat, i: nat) {
    1 <= i <= n < i + CAP
  }

  /** Rows of other components in the same namespace. */
  ghost predicate Foreign(f: Format, rows: Rows) {
    forall k :: k in rows ==> f.number(k).None?
  }

  ghost predicate IsKept(f: Format, n: nat, k: bytes) {
    exists i: nat :: Kept(n, i) && k == f.key(i)
  }

  /** Besides the foreign rows there are exactly the rows of the last events of the history. */
  ghost predicate Mirrors(f: Format, foreign: Rows, history: seq<Event>, rows: Rows) {
    (forall k :: k in rows <==> k in foreign || IsKept(f, |history|, k))
    && (forall k :: k in foreign ==> k in rows && rows[k] == foreign[k])
    && forall i: nat {:trigger f.key(i)} :: Kept(|history|, i) ==>
         f.key(i) in rows && rows[f.key(i)] == f.encode(history[i - 1])
  }

  lemma PersistMirrors(f: Format, foreign: Rows, history: seq<Event>, rows: Rows, e: Event)
    requires ReadsBack(f) && Foreign(f, foreign) && Mirrors(f, foreign, history, rows) && |history| < U64_MAX
    ensures Mirrors(f, foreign, history + [e], Persist(f, rows, |history| + 1, e, true, true))
  {
    var n := |history| + 1;
    var after := Persist(f, rows, n, e, true, true);
    forall k ensures k in after <==> k in foreign || IsKept(f, n, k) {
      if k in after {
        KeyWasKept(f, foreign, history, rows, e, k);
      }
      if IsKept(f, n, k) {
        var i: nat :| Kept(n, i) && k == f.key(i);
        KeptRow(f, foreign, history, rows, e, i);
      }
      if k in foreign {
        ForeignRow(f, foreign, history, rows, e, k);
      }
    }
    forall k | k in foreign ensures k in after && after[k] == foreign[k] {
      ForeignRow(f, foreign, history, rows, e, k);
    }
    forall i: nat | Kept(n, i) ensures f.key(i) in after && after[f.key(i)] == f.encode((history + [e])[i - 1]) {
      KeptRow(f, foreign, history, rows, e, i);
    }
  }

  lemma ForeignRow(f: Format, foreign: Rows, history: seq<Event>, rows: Rows, e: Event, k: bytes)
    requires ReadsBack(f) && Foreign(f, foreign) && |history| < U64_MAX
    requires k in foreign && k in rows && rows[k] == foreign[k]
    ensures var after := Persist(f, rows, |history| + 1, e, true, true); k in after && after[k] == foreign[k]
  {
    var n := |history| + 1;
    assert f.number(k).None?;
    assert f.key(n) != k;
    if n > CAP {
      var stale: nat := n - CAP;
      assert f.key(stale) != k;
    }
  }

  lemma KeptRow(f: Format, foreign: Rows, history: seq<Event>, rows: Rows, e: Event, i: nat)
    requires ReadsBack(f) && Mirrors(f, foreign, history, rows) && |history| < U64_MAX && Kept(|history| + 1, i)
    ensures var after := Persist(f, rows, |history| + 1, e, true, true);
            f.key(i) in after && after[f.key(i)] == f.encode((history + [e])[i - 1])
  {
    var n := |history| + 1;
    KeysDiffer(f, i, n);
    if n > CAP {
      KeysDiffer(f, i, n - CAP);
    }
    assert i < n ==> Kept(n - 1, i);
  }

  lemma KeysDiffer(f: Format, i: nat, j: nat)
    requires ReadsBack(f) && i <= U64_MAX && j <= U64_MAX
    ensures f.key(i) == f.key(j) <==> i == j
  {
    assert f.number(f.key(i)) == Some(i) && f.number(f.key(j)) == Some(j);
  }

  lemma KeyWasKept(f: Format, foreign: Rows, history: seq<Event>, rows: Rows, e: Event, k: bytes)
    requires ReadsBack(f) && Mirrors(f, foreign, history, rows) && |history| < U64_MAX
    requires k in Persist(f, rows, |history| + 1, e, true, true)
    ensures k in foreign || IsKept(f, |history| + 1, k)
  {
    var n := |history| + 1;
    if k == f.key(n) {
      assert Kept(n, n);
    } else if k !in foreign {
      assert IsKept(f, n - 1, k);
      var i: nat :| Kept(n - 1, i) && k == f.key(i);
      assert Kept(n, i);
    }
  }

  // ----- loading the rows of a history --------------------------------------

  predicate Counts(f: Format, row: Row) {
    !StartsWith(row.key, TOKEN_PREFIX) && f.number(row.key).Some?
  }

  /** The numbers of the event rows in a listing. */
  function Numbers(f: Format, listing: seq<Row>): seq<nat> {
    if listing == [] then []
    else
      var front, row := Numbers(f, listing[..|listing| - 1]), listing[|listing| - 1];
      if Counts(f, row) then front + [f.number(row.key).value] else front
  }

  function EventsAt(history: seq<Event>, numbers: seq<nat>): seq<Event>
    requires forall i :: 0 <= i < |numbers| ==> 1 <= numbers[i] <= |history|
  {
    seq(|numbers|, i requires 0 <= i < |numbers| => history[numbers[i] - 1])
  }

  /** Every row of the listing is foreign or the row of a kept event. */
  ghost predicate RowsKnown(f: Format, history: seq<Event>, listing: seq<Row>) {
    forall i :: 0 <= i < |listing| && Counts(f, listing[i]) ==>
      var n := f.number(listing[i].key).value;
      Kept(|history|, n) && listing[i] == Row(f.key(n), f.encode(history[n - 1]))
  }

  /** The numbers of a listing are kept ones, in increasing order. */
  lemma {:induction false} NumbersKnown(f: Format, history: seq<Event>, listing: seq<Row>)
    requires Sound(f) && |history| <= U64_MAX && Sorted(listing) && RowsKnown(f, history, listing)
    ensures var numbers := Numbers(f, listing);
            Increasing(numbers) && forall i :: 0 <= i < |numbers| ==> NumberListed(f, |history|, listing, numbers[i])
  {
    if listing != [] {
      var front, row := listing[..|listing| - 1], listing[|listing| - 1];
      NumbersKnown(f, history, front);
      var before := Numbers(f, front);
      forall i | 0 <= i < |before| ensures NumberListed(f, |history|, listing, before[i]) {
        assert NumberListed(f, |history|, front, before[i]);
        var j :| 0 <= j < |front| && front[j].key == f.key(before[i]);
        assert listing[j].key == f.key(before[i]);
      }
      if Counts(f, row) {
        var n := f.number(row.key).value;
        assert row == Row(f.key(n), f.encode(history[n - 1]));
        forall i | 0 <= i < |before| ensures before[i] < n {
          NumberBefore(f, history, listing, before[i], n);
        }
        assert NumberListed(f, |history|, listing, n);
      }
    }
  }

  ghost predicate NumberListed(f: Format, n: nat, listing: seq<Row>, x: nat) {
    Kept(n, x) && HasKey(listing, f.key(x))
  }

  lemma NumberBefore(f: Format, history: seq<Event>, listing: seq<Row>, x: nat, n: nat)
    requires Sound(f) && |history| <= U64_MAX && Sorted(listing) && listing != []
    requires NumberListed(f, |history|, listing[..|listing| - 1], x)
    requires Kept(|history|, n) && listing[|listing| - 1].key == f.key(n)
    ensures x < n
  {
    var front := listing[..|listing| - 1];
    var j :| 0 <= j < |front| && front[j].key == f.key(x);
    assert Before(listing[j].key, listing[|listing| - 1].key);
    assert Before(f.key(x), f.key(n));
  }

  function Top(numbers: seq<nat>): nat {
    if numbers == [] then 0 else numbers[|numbers| - 1]
  }

  /** So loading a listing gives the events of those numbers and the last of them. */
  lemma {:induction false} LoadNumbers(f: Format, history: seq<Event>, listing: seq<Row>)
    requires Sound(f) && |history| <= U64_MAX && Sorted(listing) && RowsKnown(f, history, listing)
    ensures var numbers := Numbers(f, listing);
            (forall i :: 0 <= i < |numbers| ==> 1 <= numbers[i] <= |history|)
            && Load(f, listing) == (EventsAt(history, numbers), Top(numbers))
  {
    if listing != [] {
      var front, row := listing[..|listing| - 1], listing[|listing| - 1];
      LoadNumbers(f, history, front);
      NumbersKnown(f, history, listing);
      if Counts(f, row) {
        var before, n := Numbers(f, front), f.number(row.key).value;
        assert row == Row(f.key(n), f.encode(history[n - 1]));
        assert Numbers(f, listing) == before + [n];
        assert forall i :: 0 <= i < |before| ==> before[i] == (before + [n])[i];
        EventsPush(history, before, n);
        assert f.decode(row.value) == Some(history[n - 1]);
        assert before != [] ==> (before + [n])[|before| - 1] < (before + [n])[|before|];
      }
    } else {
      assert EventsAt(history, Numbers(f, listing)) == [];
    }
  }

  lemma EventsPush(history: seq<Event>, before: seq<nat>, n: nat)
    requires (forall i :: 0 <= i < |before| ==> 1 <= before[i] <= |history|) && 1 <= n <= |history|
    ensures forall i :: 0 <= i < |before + [n]| ==> 1 <= (before + [n])[i] <= |history|
    ensures EventsAt(history, before + [n]) == EventsAt(history, before) + [history[n - 1]]
  {
  }

  lemma {:induction false} AllNumbers(f: Format, listing: seq<Row>, i: nat)
    requires i < |listing| && Counts(f, listing[i])
    ensures f.number(listing[i].key).value in Numbers(f, listing)
  {
    var front := listing[..|listing| - 1];
    if i < |front| {
      AllNumbers(f, front, i);
      assert f.number(front[i].key).value in Numbers(f, front);
    }
    assert forall x: nat :: x in Numbers(f, front) ==> x in Numbers(f, listing);
  }

  /** An increasing sequence that holds exactly an interval is that interval. */
  lemma {:induction false} Interval(s: seq<nat>, lo: nat, hi: nat)
    requires Increasing(s) && lo <= hi && (forall x: nat :: x in s <==> lo <= x < hi)
    ensures |s| == hi - lo && forall i :: 0 <= i < |s| ==> s[i] == lo + i
    decreases hi - lo
  {
    if s == [] {
      assert lo < hi ==> lo in s;
    } else {
      assert s[0] in s;
      assert lo in s;
      assert s[0] == lo;
      var rest := s[1..];
      forall x: nat ensures x in rest <==> lo + 1 <= x < hi {
        if x in rest {
          var i :| 0 <= i < |rest| && rest[i] == x;
          assert s[i + 1] == x && s[i + 1] in s;
        }
        if lo + 1 <= x < hi {
          assert x in s;
          var i :| 0 <= i < |s| && s[i] == x;
          assert rest[i - 1] == x;
        }
      }
      Interval(rest, lo + 1, hi);
    }
  }

  /** The first kept number. */
  function Oldest(n: nat): nat {
    if n > CAP then n - CAP + 1 else 1
  }

  lemma ListingKnown(f: Format, foreign: Rows, history: seq<Event>, rows: Rows, listing: seq<Row>)
    requires Sound(f) && Foreign(f, foreign) && Mirrors(f, foreign, history, rows) && |history| <= U64_MAX
    requires Scan(listing, rows)
    ensures RowsKnown(f, history, listing)
  {
    forall i | 0 <= i < |listing| && Counts(f, listing[i])
      ensures var n := f.number(listing[i].key).value;
              Kept(|history|, n) && listing[i] == Row(f.key(n), f.encode(history[n - 1]))
    {
      assert IsKept(f, |history|, listing[i].key);
      var n: nat :| Kept(|history|, n) && listing[i].key == f.key(n);
      assert f.number(f.key(n)) == Some(n);
    }
  }

  lemma NumbersExact(f: Format, foreign: Rows, history: seq<Event>, rows: Rows, listing: seq<Row>, x: nat)
    requires Sound(f) && Foreign(f, foreign) && Mirrors(f, foreign, history, rows) && |history| <= U64_MAX
    requires Scan(listing, rows) && RowsKnown(f, history, listing)
    ensures x in Numbers(f, listing) <==> Kept(|history|, x)
  {
    if x in Numbers(f, listing) {
      NumbersKnown(f, history, listing);
    }
    if Kept(|history|, x) {
      assert f.key(x) in rows;
      assert HasKey(listing, f.key(x));
      var i :| 0 <= i < |listing| && listing[i].key == f.key(x);
      assert f.number(f.key(x)) == Some(x);
      AllNumbers(f, listing, i);
    }
  }

  /** Loading gives the last events of the history, oldest first, and the number of the newest. */
  lemma LoadMirror(f: Format, foreign: Rows, history: seq<Event>, rows: Rows, listing: seq<Row>)
    requires Sound(f) && Foreign(f, foreign) && Mirrors(f, foreign, history, rows) && |history| <= U64_MAX
    requires Scan(listing, rows)
    ensures Load(f, listing) == (Last(history, CAP), |history|)
  {
    ListingKnown(f, foreign, history, rows, listing);
    LoadNumbers(f, history, listing);
    NumbersKnown(f, history, listing);
    forall x: nat ensures x in Numbers(f, listing) <==> Kept(|history|, x) {
      NumbersExact(f, foreign, history, rows, listing, x);
    }
    KeptEvents(history, Numbers(f, listing));
  }

  /** The events of the kept numbers are the last ones. */
  lemma KeptEvents(history: seq<Event>, numbers: seq<nat>)
    requires Increasing(numbers) && forall x: nat :: x in numbers <==> Kept(|history|, x)
    ensures forall i :: 0 <= i < |numbers| ==> 1 <= numbers[i] <= |history|
    ensures EventsAt(history, numbers) == Last(history, CAP) && Top(numbers) == |history|
  {
    var n := |history|;
    forall i | 0 <= i < |numbers| ensures 1 <= numbers[i] <= n {
      assert numbers[i] in numbers;
    }
    Interval(numbers, Oldest(n), n + 1);
    assert EventsAt(history, numbers) == Last(history, CAP);
  }

  // ----- runs with restarts -------------------------------------------------

  /** A restart makes a new ring of the same size over the same store; others write and delete rows of their own. */
  datatype Op = Record(event: Event) | Restart(listing: seq<Row>) | Other(key: bytes, value: Option<bytes>)

  function Wrote(rows: Rows, key: bytes, value: Option<bytes>): Rows {
    if value.Some? then rows[key := value.value] else rows - {key}
  }

  /** The rows of others after a step. */
  function ForeignAfter(foreign: Rows, op: Op): Rows {
    if op.Other? then Wrote(foreign, op.key, op.value) else foreign
  }

  function ForeignAfterAll(foreign: Rows, ops: seq<Op>): Rows
    decreases |ops|
  {
    if ops == [] then foreign else ForeignAfterAll(ForeignAfter(foreign, ops[0]), ops[1..])
  }

  function Step(f: Format, size: nat, r: Ring, op: Op): Ring {
    match op
    case Record(e) => Push(f, size, r, e, true, true)
    case Restart(listing) => Restore(f, size, Ring([], 0, r.rows), listing)
    case Other(key, value) => r.(rows := Wrote(r.rows, key, value))
  }

  /** The listings of a run are what scanning its store returned, and others keep to keys without a number. */
  ghost predicate Honest(f: Format, size: nat, r: Ring, ops: seq<Op>)
    decreases |ops|
  {
    ops == [] || ((ops[0].Restart? ==> Scan(ops[0].listing, r.rows))
                  && (ops[0].Other? ==> f.number(ops[0].key).None?)
                  && Honest(f, size, Step(f, size, r, ops[0]), ops[1..]))
  }

  function Run(f: Format, size: nat, r: Ring, ops: seq<Op>): Ring
    decreases |ops|
  {
    if ops == [] then r else Run(f, size, Step(f, size, r, ops[0]), ops[1..])
  }

  function Recorded(ops: seq<Op>): seq<Event> {
    if ops == [] then [] else (if ops[0].Record? then [ops[0].event] else []) + Recorded(ops[1..])
  }

  function Longer(history: seq<Event>, op: Op): seq<Event> {
    if op.Record? then history + [op.event] else history
  }

  lemma RecordedNext(history: seq<Event>, ops: seq<Op>)
    requires ops != []
    ensures Longer(history, ops[0]) + Recorded(ops[1..]) == history + Recorded(ops)
  {
    if ops[0].Record? {
      Associative(history, [ops[0].event], Recorded(ops[1..]));
    } else {
      assert [] + Recorded(ops[1..]) == Recorded(ops[1..]);
    }
  }

  lemma LastPush(history: seq<Event>, e: Event, size: nat)
    ensures Last(Last(history, size) + [e], size) == Last(history + [e], size)
  {
  }

  lemma LastLast(history: seq<Event>, a: nat, b: nat)
    ensures Last(Last(history, a), b) == Last(history, if a < b then a else b)
  {
  }

  /** Memory and store follow the history. */
  ghost predicate Follows(f: Format, foreign: Rows, size: nat, history: seq<Event>, r: Ring) {
    r.log == Last(history, size) && r.top == |history| && Mirrors(f, foreign, history, r.rows)
  }

  /** A restart finds everything the ring can hold among the stored rows. */
  predicate Covered(size: nat, recorded: nat, op: Op) {
    op.Restart? ==> size <= CAP || recorded <= CAP
  }

  predicate AllCovered(size: nat, recorded: nat, ops: seq<Op>)
    decreases |ops|
  {
    ops == [] || (Covered(size, recorded, ops[0])
                  && AllCovered(size, if ops[0].Record? then recorded + 1 else recorded, ops[1..]))
  }

  /** A step keeps memory and store in step with the history exactly if it is no restart that comes too late. */
  lemma StepFollows(f: Format, foreign: Rows, size: nat, history: seq<Event>, r: Ring, op: Op)
    requires Sound(f) && Foreign(f, foreign) && |history| < U64_MAX
    requires Follows(f, foreign, size, history, r) && (op.Restart? ==> Scan(op.listing, r.rows))
    requires op.Other? ==> f.number(op.key).None?
    ensures Follows(f, ForeignAfter(foreign, op), size, Longer(history, op), Step(f, size, r, op))
            <==> Covered(size, |history|, op)
    ensures Foreign(f, ForeignAfter(foreign, op))
  {
    match op
    case Record(e) =>
      PersistMirrors(f, foreign, history, r.rows, e);
      LastPush(history, e, size);
    case Restart(listing) =>
      LoadMirror(f, foreign, history, r.rows, listing);
      LastLast(history, CAP, size);
      assert [] + Last(history, CAP) == Last(history, CAP);
    case Other(key, value) => OtherMirrors(f, foreign, history, r.rows, key, value);
  }

  /** Memory and store follow the history at every point of a run. */
  ghost predicate FollowsThroughout(
    f: Format, foreign: Rows, size: nat, history: seq<Event>, r: Ring, ops: seq<Op>)
    decreases |ops|
  {
    Follows(f, foreign, size, history, r)
    && (ops == [] || FollowsThroughout(f, ForeignAfter(foreign, ops[0]), size, Longer(history, ops[0]),
                                       Step(f, size, r, ops[0]), ops[1..]))
  }

  /** For rings of every size: a run is followed throughout exactly when none of its restarts comes too late. */
  lemma {:induction false} RunFollowsExactly(
    f: Format, foreign: Rows, size: nat, history: seq<Event>, r: Ring, ops: seq<Op>)
    requires Sound(f) && Foreign(f, foreign) && |history| + |ops| <= U64_MAX
    requires Follows(f, foreign, size, history, r) && Honest(f, size, r, ops)
    ensures FollowsThroughout(f, foreign, size, history, r, ops) <==> AllCovered(size, |history|, ops)
    decreases |ops|
  {
    if ops != [] {
      var foreign', history', r' := ForeignAfter(foreign, ops[0]), Longer(history, ops[0]), Step(f, size, r, ops[0]);
      StepFollows(f, foreign, size, history, r, ops[0]);
      if Covered(size, |history|, ops[0]) {
        RunFollowsExactly(f, foreign', size, history', r', ops[1..]);
      } else {
        StartsFollowed(f, foreign', size, history', r', ops[1..]);
      }
    }
  }

  lemma StartsFollowed(f: Format, foreign: Rows, size: nat, history: seq<Event>, r: Ring, ops: seq<Op>)
    ensures FollowsThroughout(f, foreign, size, history, r, ops) ==> Follows(f, foreign, size, history, r)
  {
  }

  /** A row without a number makes no difference to the event rows. */
  lemma OtherMirrors(f: Format, foreign: Rows, history: seq<Event>, rows: Rows, key: bytes, value: Option<bytes>)
    requires ReadsBack(f) && Mirrors(f, foreign, history, rows) && |history| <= U64_MAX && f.number(key).None?
    ensures Mirrors(f, Wrote(foreign, key, value), history, Wrote(rows, key, value))
  {
    forall i: nat | Kept(|history|, i) ensures f.key(i) != key {
      assert f.number(f.key(i)) == Some(i);
    }
  }

  /** Over any run of events, writes by others and restarts in time, a ring holds the last events recorded. */
  lemma {:induction false} RunFollows(
    f: Format, foreign: Rows, size: nat, history: seq<Event>, r: Ring, ops: seq<Op>)
    requires Sound(f) && Foreign(f, foreign) && |history| + |ops| <= U64_MAX
    requires Follows(f, foreign, size, history, r) && Honest(f, size, r, ops) && AllCovered(size, |history|, ops)
    ensures Follows(f, ForeignAfterAll(foreign, ops), size, history + Recorded(ops), Run(f, size, r, ops))
    decreases |ops|
  {
    if ops == [] {
      assert history + [] == history;
    } else {
      StepFollows(f, foreign, size, history, r, ops[0]);
      RunFollows(f, ForeignAfter(foreign, ops[0]), size, Longer(history, ops[0]), Step(f, size, r, ops[0]), ops[1..]);
      RecordedNext(history, ops);
    }
  }

  /** At the start the store holds only rows of other components. */
  lemma StartFollows(f: Format, foreign: Rows, size: nat)
    requires Foreign(f, foreign)
    ensures Follows(f, foreign, size, [], Ring([], 0, foreign))
  {
    assert forall i: nat :: !Kept(0, i);
  }

  /** A restart answers every query as before exactly when nothing older than the stored rows was in memory. */
  lemma RestartExact(f: Format, foreign: Rows, size: nat, history: seq<Event>, r: Ring, listing: seq<Row>)
    requires Sound(f) && Foreign(f, foreign) && |history| <= U64_MAX
    requires Follows(f, foreign, size, history, r) && Scan(listing, r.rows)
    ensures (forall k: nat :: Recent(Restore(f, size, Ring([], 0, r.rows), listing), k) == Recent(r, k))
            <==> size <= 10_000 || |history| <= 10_000
  {
    LoadMirror(f, foreign, history, r.rows, listing);
    assert [] + Last(history, CAP) == Last(history, CAP);
    RecentExact(history, size, Restore(f, size, Ring([], 0, r.rows), listing), r);
  }

  lemma RecentExact(history: seq<Event>, size: nat, a: Ring, b: Ring)
    requires a.log == Last(Last(history, CAP), size) && b.log == Last(history, size)
    ensures (forall k: nat :: Recent(a, k) == Recent(b, k)) <==> size <= CAP || |history| <= CAP
  {
    LastLast(history, CAP, size);
    if size > CAP && |history| > CAP {
      assert |Recent(a, CAP + 1)| == CAP;
      assert |Recent(b, CAP + 1)| == CAP + 1;
    }
  }

  // ----- a ring larger than the store ---------------------------------------

  function Records(events: seq<Event>): seq<Op> {
    seq(|events|, i requires 0 <= i < |events| => Record(events[i]))
  }

  lemma {:induction false} RecordsRun(f: Format, size: nat, r: Ring, recorded: nat, events: seq<Event>)
    ensures Honest(f, size, r, Records(events)) && AllCovered(size, recorded, Records(events))
    ensures Recorded(Records(events)) == events
    decreases |events|
  {
    if events != [] {
      assert Records(events)[1..] == Records(events[1..]);
      RecordsRun(f, size, Step(f, size, r, Record(events[0])), recorded + 1, events[1..]);
      assert events == [events[0]] + events[1..];
    }
  }

  /** The rows of the last events in key order. */
  function KeptListing(f: Format, history: seq<Event>): seq<Row>
    requires |history| >= CAP
  {
    seq(CAP, i requires 0 <= i < CAP =>
      Row(f.key(|history| - CAP + 1 + i), f.encode(history[|history| - CAP + i])))
  }

  lemma KeptListingScans(f: Format, history: seq<Event>, rows: Rows)
    requires Sound(f) && CAP <= |history| <= U64_MAX && Mirrors(f, map[], history, rows)
    ensures Scan(KeptListing(f, history), rows)
  {
    var listing, first := KeptListing(f, history), |history| - CAP + 1;
    forall i, j | 0 <= i < j < |listing| ensures Before(listing[i].key, listing[j].key) {
      assert Before(f.key(first + i), f.key(first + j));
    }
    forall i | 0 <= i < |listing| ensures listing[i].key in rows && rows[listing[i].key] == listing[i].value {
      assert Kept(|history|, first + i);
    }
    forall key | key in rows ensures HasKey(listing, key) {
      assert IsKept(f, |history|, key);
      var n: nat :| Kept(|history|, n) && key == f.key(n);
      assert listing[n - first].key == key;
    }
  }

  /**
   Every ring of more than 10000, over an empty store, into which more than 10000 events were recorded: a restart
   brings back 10000, although the ring held more.
   */
  lemma LargeRingForgets(f: Format, size: nat, events: seq<Event>)
    requires Sound(f) && size > CAP && CAP < |events| <= U64_MAX
    ensures var r := Run(f, size, Ring([], 0, map[]), Records(events));
            var listing := KeptListing(f, events);
            Scan(listing, r.rows) && |Recent(r, size)| > CAP
            && |Recent(Step(f, size, r, Restart(listing)), size)| == CAP
  {
    var r := Run(f, size, Ring([], 0, map[]), Records(events));
    RecordsFollow(f, size, events);
    KeptListingScans(f, events, r.rows);
    LoadMirror(f, map[], events, r.rows, KeptListing(f, events));
    RestoredSize(f, size, r.rows, KeptListing(f, events), Last(events, CAP));
  }

  lemma RecordsFollow(f: Format, size: nat, events: seq<Event>)
    requires Sound(f) && |events| <= U64_MAX
    ensures var r := Run(f, size, Ring([], 0, map[]), Records(events));
            r.log == Last(events, size) && Mirrors(f, map[], events, r.rows)
  {
    var start := Ring([], 0, map[]);
    StartFollows(f, map[], size);
    RecordsRun(f, size, start, 0, events);
    RunFollows(f, map[], size, [], start, Records(events));
    NoForeign(Records(events));
    assert [] + events == events;
  }

  lemma RestoredSize(f: Format, size: nat, rows: Rows, listing: seq<Row>, log: seq<Event>)
    requires Load(f, listing).0 == log && |log| <= size
    ensures |Recent(Restore(f, size, Ring([], 0, rows), listing), size)| == |log|
  {
    assert [] + log == log;
  }

  lemma {:induction false} NoForeign(ops: seq<Op>)
    requires forall i :: 0 <= i < |ops| ==> ops[i].Record?
    ensures ForeignAfterAll(map[], ops) == map[]
    decreases |ops|
  {
    if ops != [] {
      NoForeign(ops[1..]);
    }
  }

  /** A query gives the newest events of the ring, as many as asked for if there are so many, newest first. */
  lemma RecentNewest(r: Ring, limit: nat, i: nat)
    requires i < limit && i < |r.log|
    ensures |Recent(r, limit)| == if limit < |r.log| then limit else |r.log|
    ensures Recent(r, limit)[i] == r.log[|r.log| - 1 - i]
  {
    CountingBack(Last(r.log, limit), i);
  }

  lemma {:induction false} CountingBack(log: seq<Event>, i: nat)
    requires i < |log|
    ensures NewestFirst(log)[i] == log[|log| - 1 - i]
  {
    if i > 0 {
      CountingBack(log[..|log| - 1], i - 1);
    }
  }

  // ----- the format of the daemon -------------------------------------------

  function Decimal(encode: Event -> bytes, decode: bytes -> Option<Event>): Format {
    Format(DecimalKeys.Key, DecimalKeys.Parse, encode, decode)
  }

  lemma DecimalSound(encode: Event -> bytes, decode: bytes -> Option<Event>)
    requires forall e {:trigger encode(e)} :: decode(encode(e)) == Some(e)
    ensures Sound(Decimal(encode, decode))
  {
    var f := Decimal(encode, decode);
    forall n: nat | n <= U64_MAX
      ensures f.number(f.key(n)) == Some(n) && !StartsWith(f.key(n), TOKEN_PREFIX)
    {
      DecimalKeys.ParseKey(n);
      DecimalKeys.WidthSuffices();
      DecimalKeys.DigitsValue(n, DecimalKeys.WIDTH);
      assert DecimalKeys.IsDigit(f.key(n)[0]);
      assert TOKEN_PREFIX[0] == 0x63;
    }
    forall m: nat, n: nat | m <= U64_MAX && n <= U64_MAX
      ensures Before(f.key(m), f.key(n)) <==> m < n
    {
      DecimalKeys.KeyOrder(m, n);
    }
  }
}
