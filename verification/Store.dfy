/** The key-value store of one namespace: a map, scanned in key order. */
module Store {
  import opened Bytes

  datatype Row = Row(key: bytes, value: bytes)

  type Rows = map<bytes, bytes>

  /** The order of keys: octet by octet, a proper prefix first. */
  predicate Before(a: bytes, b: bytes) {
    b != [] && (a == [] || a[0] < b[0] || (a[0] == b[0] && Before(a[1..], b[1..])))
  }

  lemma {:induction false} BeforeIrreflexive(a: bytes)
    ensures !Before(a, a)
  {
    if a != [] {
      BeforeIrreflexive(a[1..]);
    }
  }

  lemma {:induction false} BeforeAsymmetric(a: bytes, b: bytes)
    requires Before(a, b)
    ensures !Before(b, a)
  {
    if a != [] && a[0] == b[0] {
      BeforeAsymmetric(a[1..], b[1..]);
    }
  }

  ghost predicate Sorted(rows: seq<Row>) {
    forall i, j {:trigger rows[i], rows[j]} :: 0 <= i < j < |rows| ==> Before(rows[i].key, rows[j].key)
  }

  ghost predicate DistinctKeys(rows: seq<Row>) {
    forall i, j {:trigger rows[i], rows[j]} :: 0 <= i < j < |rows| ==> rows[i].key != rows[j].key
  }

  ghost predicate HasKey(rows: seq<Row>, key: bytes) {
    exists i :: 0 <= i < |rows| && rows[i].key == key
  }

  /** `rows` is what scanning `store` returns: every row once, in key order. */
  ghost predicate Scan(rows: seq<Row>, store: Rows) {
    Sorted(rows)
    && (forall i :: 0 <= i < |rows| ==> rows[i].key in store && store[rows[i].key] == rows[i].value)
    && (forall key :: key in store ==> HasKey(rows, key))
  }

  /** No key is scanned twice. */
  lemma ScanOnce(rows: seq<Row>, i: nat, j: nat)
    requires Sorted(rows) && i < |rows| && j < |rows| && rows[i].key == rows[j].key
    ensures i == j
  {
    BeforeIrreflexive(rows[i].key);
  }

  predicate StartsWith(key: bytes, prefix: bytes) {
    prefix <= key
  }
}
