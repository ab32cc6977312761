/** First-in first-out queues kept as sequences, and queues of byte chunks. */
module Queues {
  import opened Bytes

  ghost predicate Distinct<T>(q: seq<T>) {
    forall i, j :: 0 <= i < j < |q| ==> q[i] != q[j]
  }

  /** `retain` with "is in `s`". */
  function Keep<T(==,!new)>(q: seq<T>, s: set<T>): (r: seq<T>)
    ensures forall x :: x in r <==> x in q && x in s
  {
    if q == [] then [] else
    var front, last := q[..|q| - 1], q[|q| - 1];
    assert q == front + [last];
    if last in s then Keep(front, s) + [last] else Keep(front, s)
  }

  /** `retain` with "is not in `s`". */
  function Without<T(==,!new)>(q: seq<T>, s: set<T>): (r: seq<T>)
    ensures forall x :: x in r <==> x in q && x !in s
  {
    if q == [] then [] else
    var front, last := q[..|q| - 1], q[|q| - 1];
    assert q == front + [last];
    if last in s then Without(front, s) else Without(front, s) + [last]
  }

  lemma {:induction false} KeepDistinct<T(!new)>(q: seq<T>, s: set<T>)
    requires Distinct(q)
    ensures Distinct(Keep(q, s))
  {
    if q != [] {
      KeepDistinct(q[..|q| - 1], s);
    }
  }

  lemma {:induction false} WithoutDistinct<T(!new)>(q: seq<T>, s: set<T>)
    requires Distinct(q)
    ensures Distinct(Without(q, s))
  {
    if q != [] {
      WithoutDistinct(q[..|q| - 1], s);
    }
  }

  lemma {:induction false} KeepAll<T(!new)>(q: seq<T>, s: set<T>)
    requires forall x :: x in q ==> x in s
    ensures Keep(q, s) == q
  {
    if q != [] {
      assert q == q[..|q| - 1] + [q[|q| - 1]];
      KeepAll(q[..|q| - 1], s);
    }
  }

  lemma {:induction false} WithoutNone<T(!new)>(q: seq<T>, s: set<T>)
    requires forall x :: x in q ==> x !in s
    ensures Without(q, s) == q
  {
    if q != [] {
      assert q == q[..|q| - 1] + [q[|q| - 1]];
      WithoutNone(q[..|q| - 1], s);
    }
  }

  lemma KeepPush<T(!new)>(q: seq<T>, x: T, s: set<T>)
    ensures Keep(q + [x], s) == if x in s then Keep(q, s) + [x] else Keep(q, s)
  {
    assert (q + [x])[..|q|] == q;
  }

  lemma WithoutPush<T(!new)>(q: seq<T>, x: T, s: set<T>)
    ensures Without(q + [x], s) == if x in s then Without(q, s) else Without(q, s) + [x]
  {
    assert (q + [x])[..|q|] == q;
  }

  lemma {:induction false} KeepKeep<T(!new)>(q: seq<T>, a: set<T>, b: set<T>)
    ensures Keep(Keep(q, a), b) == Keep(q, a * b)
  {
    if q != [] {
      var front, last := q[..|q| - 1], q[|q| - 1];
      KeepKeep(front, a, b);
      if last in a {
        KeepPush(Keep(front, a), last, b);
      }
    }
  }

  lemma {:induction false} WithoutWithout<T(!new)>(q: seq<T>, a: set<T>, b: set<T>)
    ensures Without(Without(q, a), b) == Without(q, a + b)
  {
    if q != [] {
      var front, last := q[..|q| - 1], q[|q| - 1];
      WithoutWithout(front, a, b);
      if last !in a {
        WithoutPush(Without(front, a), last, b);
      }
    }
  }

  /** Keeping `s` is dropping everything of the queue that is outside `s`. */
  lemma {:induction false} KeepIsWithout<T(!new)>(q: seq<T>, s: set<T>, dropped: set<T>)
    requires forall x :: x in q ==> (x in s <==> x !in dropped)
    ensures Keep(q, s) == Without(q, dropped)
  {
    if q != [] {
      assert q == q[..|q| - 1] + [q[|q| - 1]];
      KeepIsWithout(q[..|q| - 1], s, dropped);
    }
  }

  lemma DistinctAppend<T>(q: seq<T>, x: T)
    requires Distinct(q) && x !in q
    ensures Distinct(q + [x])
  {
  }

  /** The elements with the property `f`, in their order. */
  function Filter<T>(q: seq<T>, f: T -> bool): seq<T> {
    if q == [] then [] else
    var front, last := q[..|q| - 1], q[|q| - 1];
    if f(last) then Filter(front, f) + [last] else Filter(front, f)
  }

  lemma {:induction false} FilterAgrees<T>(q: seq<T>, f: T -> bool, g: T -> bool)
    requires forall i :: 0 <= i < |q| ==> f(q[i]) == g(q[i])
    ensures Filter(q, f) == Filter(q, g)
  {
    if q != [] {
      FilterAgrees(q[..|q| - 1], f, g);
    }
  }

  lemma Associative<T>(a: seq<T>, b: seq<T>, c: seq<T>)
    ensures (a + b) + c == a + (b + c)
  {
  }

  ghost predicate Increasing(s: seq<nat>) {
    forall i, j :: 0 <= i < j < |s| ==> s[i] < s[j]
  }

  lemma SubsetSize<T>(a: set<T>, b: set<T>)
    requires a <= b
    ensures |a| <= |b|
  {
    assert b == a + (b - a);
  }

  // ----- queues of byte chunks ----------------------------------------------

  /** The bytes of a chunk queue in delivery order. */
  function Flatten(chunks: seq<bytes>): bytes {
    if chunks == [] then [] else chunks[0] + Flatten(chunks[1..])
  }

  lemma {:induction false} FlattenAppend(a: seq<bytes>, b: seq<bytes>)
    ensures Flatten(a + b) == Flatten(a) + Flatten(b)
  {
    if a == [] {
      assert a + b == b;
    } else {
      FlattenAppend(a[1..], b);
      assert (a + b)[1..] == a[1..] + b;
      assert a[0] + (Flatten(a[1..]) + Flatten(b)) == (a[0] + Flatten(a[1..])) + Flatten(b);
    }
  }

  lemma FlattenPush(a: seq<bytes>, chunk: bytes)
    ensures Flatten(a + [chunk]) == Flatten(a) + chunk
  {
    FlattenAppend(a, [chunk]);
    assert [chunk][1..] == [];
  }

  function Elements<T>(q: seq<T>): set<T> {
    set x | x in q
  }

  lemma {:induction false} DistinctSize<T(!new)>(q: seq<T>)
    requires Distinct(q)
    ensures |Elements(q)| == |q|
  {
    if q != [] {
      var front, last := q[..|q| - 1], q[|q| - 1];
      DistinctSize(front);
      assert q == front + [last];
      assert Elements(q) == Elements(front) + {last};
    }
  }
}
