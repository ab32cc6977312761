/**
 Readers over a cursor paired with printers, and how they combine: a run of a
 given number of values, a counted list, and a row of parts. A codec is exact
 when reading accepts precisely the printed forms; every combination of exact
 codecs is exact.
 */
module Codecs {
  import opened Bytes
  import opened Wire

  datatype Codec<!T> = Codec(read: (bytes, nat) -> Option<(T, nat)>, fits: T -> bool, show: T -> bytes)

  /** Reading at `offset` yields `v`, leaving the cursor at `end` inside the input. */
  predicate Reads<T(==)>(c: Codec<T>, data: bytes, offset: nat, v: T, end: nat) {
    c.read(data, offset) == Some((v, end)) && end <= |data|
  }

  /** The printed form of an acceptable `v` fills the input from `offset` to `end`. */
  predicate Stands<T>(c: Codec<T>, data: bytes, offset: nat, v: T, end: nat) {
    c.fits(v) && end == offset + |c.show(v)| && At(data, offset, c.show(v))
  }

  ghost predicate Exact<T(!new)>(c: Codec<T>) {
    (forall data, offset: nat, v, end: nat
       {:trigger Reads(c, data, offset, v, end)} {:trigger Stands(c, data, offset, v, end)} ::
       Reads(c, data, offset, v, end) <==> Stands(c, data, offset, v, end))
    && forall data, offset: nat {:trigger c.read(data, offset)} ::
         c.read(data, offset).Some? ==> offset <= c.read(data, offset).value.1
  }

  // ----- a run of values ----------------------------------------------------

  function ReadMany<T>(c: Codec<T>, data: bytes, offset: nat, count: nat): Option<(seq<T>, nat)> {
    if count == 0 then Some(([], offset)) else
    var (front, next) :- ReadMany(c, data, offset, count - 1);
    var (v, end) :- c.read(data, next);
    Some((front + [v], end))
  }

  predicate AllFit<T>(c: Codec<T>, vs: seq<T>) {
    forall i :: 0 <= i < |vs| ==> c.fits(vs[i])
  }

  function PrintMany<T>(c: Codec<T>, vs: seq<T>): bytes {
    if vs == [] then [] else PrintMany(c, vs[..|vs| - 1]) + c.show(vs[|vs| - 1])
  }

  predicate ManyStand<T>(c: Codec<T>, data: bytes, offset: nat, vs: seq<T>, end: nat) {
    AllFit(c, vs) && end == offset + |PrintMany(c, vs)| && At(data, offset, PrintMany(c, vs))
  }

  lemma {:induction false} ReadManyForward<T(!new)>(c: Codec<T>, data: bytes, offset: nat, count: nat)
    requires Exact(c)
    ensures var r := ReadMany(c, data, offset, count);
            r.Some? ==> offset <= r.value.1 && |r.value.0| == count
  {
    if count > 0 {
      ReadManyForward(c, data, offset, count - 1);
    }
  }

  lemma {:induction false} ReadManySound<T(!new)>(c: Codec<T>, data: bytes, offset: nat, count: nat)
    requires Exact(c)
    ensures var r := ReadMany(c, data, offset, count);
            r.Some? && r.value.1 <= |data| ==> |r.value.0| == count && ManyStand(c, data, offset, r.value.0, r.value.1)
  {
    if count > 0 {
      ReadManySound(c, data, offset, count - 1);
      var r := ReadMany(c, data, offset, count);
      if r.Some? && r.value.1 <= |data| {
        var (front, next) := ReadMany(c, data, offset, count - 1).value;
        var (last, end) := c.read(data, next).value;
        assert Reads(c, data, next, last, end);
        var vs := front + [last];
        assert vs[..|vs| - 1] == front;
        AtSplit(data, offset, PrintMany(c, front), c.show(last));
      }
    }
  }

  lemma {:induction false} ReadManyComplete<T(!new)>(c: Codec<T>, data: bytes, offset: nat, vs: seq<T>, end: nat)
    requires Exact(c) && ManyStand(c, data, offset, vs, end)
    ensures ReadMany(c, data, offset, |vs|) == Some((vs, end))
    decreases |vs|
  {
    if vs != [] {
      var front, last := vs[..|vs| - 1], vs[|vs| - 1];
      AtSplit(data, offset, PrintMany(c, front), c.show(last));
      var next := offset + |PrintMany(c, front)|;
      ReadManyComplete(c, data, offset, front, next);
      assert Stands(c, data, next, last, end);
      assert front + [last] == vs;
    }
  }

  /** The loop that appends one value after another. */
  method ReadManyLoop<T>(c: Codec<T>, data: bytes, offset: nat, count: nat) returns (r: Option<(seq<T>, nat)>)
    ensures r == ReadMany(c, data, offset, count)
  {
    var values: seq<T>, cursor := [], offset;
    var i := 0;
    while i < count
      invariant i <= count && ReadMany(c, data, offset, i) == Some((values, cursor))
    {
      var next := c.read(data, cursor);
      if next.None? {
        ReadManyStops(c, data, offset, i + 1, count);
        return None;
      }
      values, cursor := values + [next.value.0], next.value.1;
      i := i + 1;
    }
    return Some((values, cursor));
  }

  /** Once reading has failed, asking for more values fails too. */
  lemma {:induction false} ReadManyStops<T>(c: Codec<T>, data: bytes, offset: nat, i: nat, count: nat)
    requires i <= count && ReadMany(c, data, offset, i).None?
    ensures ReadMany(c, data, offset, count).None?
  {
    if i < count {
      ReadManyStops(c, data, offset, i, count - 1);
    }
  }

  // ----- a counted list -----------------------------------------------------

  function ReadCounted<T>(n: Codec<nat>, c: Codec<T>, data: bytes, offset: nat): Option<(seq<T>, nat)> {
    var (count, start) :- n.read(data, offset);
    ReadMany(c, data, start, count)
  }

  function Counted<T>(n: Codec<nat>, c: Codec<T>): Codec<seq<T>> {
    Codec((data: bytes, offset: nat) => ReadCounted(n, c, data, offset),
          (vs: seq<T>) => n.fits(|vs|) && AllFit(c, vs),
          (vs: seq<T>) => n.show(|vs|) + PrintMany(c, vs))
  }

  lemma CountedExact<T(!new)>(n: Codec<nat>, c: Codec<T>)
    requires Exact(n) && Exact(c)
    ensures Exact(Counted(n, c))
  {
    var l := Counted(n, c);
    forall data, offset: nat, vs, end: nat
      ensures Reads(l, data, offset, vs, end) <==> Stands(l, data, offset, vs, end)
    {
      CountedAt(n, c, data, offset, vs, end);
    }
    forall data, offset: nat | l.read(data, offset).Some?
      ensures offset <= l.read(data, offset).value.1
    {
      var (count, start) := n.read(data, offset).value;
      ReadManyForward(c, data, start, count);
    }
  }

  lemma CountedAt<T(!new)>(n: Codec<nat>, c: Codec<T>, data: bytes, offset: nat, vs: seq<T>, end: nat)
    requires Exact(n) && Exact(c)
    ensures Reads(Counted(n, c), data, offset, vs, end) <==> Stands(Counted(n, c), data, offset, vs, end)
  {
    var l := Counted(n, c);
    AtSplit(data, offset, n.show(|vs|), PrintMany(c, vs));
    if Reads(l, data, offset, vs, end) {
      var (count, start) := n.read(data, offset).value;
      ReadManySound(c, data, start, count);
      ReadManyForward(c, data, start, count);
      assert Reads(n, data, offset, count, start);
    } else if Stands(l, data, offset, vs, end) {
      var start := offset + |n.show(|vs|)|;
      assert Stands(n, data, offset, |vs|, start);
      ReadManyComplete(c, data, start, vs, end);
    }
  }

  // ----- one after the other ------------------------------------------------

  function ReadPair<A, B>(a: Codec<A>, b: Codec<B>, data: bytes, offset: nat): Option<((A, B), nat)> {
    var (x, next) :- a.read(data, offset);
    var (y, end) :- b.read(data, next);
    Some(((x, y), end))
  }

  function Pair<A, B>(a: Codec<A>, b: Codec<B>): Codec<(A, B)> {
    Codec((data: bytes, offset: nat) => ReadPair(a, b, data, offset),
          (p: (A, B)) => a.fits(p.0) && b.fits(p.1),
          (p: (A, B)) => a.show(p.0) + b.show(p.1))
  }

  lemma PairExact<A(!new), B(!new)>(a: Codec<A>, b: Codec<B>)
    requires Exact(a) && Exact(b)
    ensures Exact(Pair(a, b))
  {
    var l := Pair(a, b);
    forall data, offset: nat, p, end: nat
      ensures Reads(l, data, offset, p, end) <==> Stands(l, data, offset, p, end)
    {
      PairAt(a, b, data, offset, p, end);
    }
  }

  lemma PairAt<A(!new), B(!new)>(a: Codec<A>, b: Codec<B>, data: bytes, offset: nat, p: (A, B), end: nat)
    requires Exact(a) && Exact(b)
    ensures Reads(Pair(a, b), data, offset, p, end) <==> Stands(Pair(a, b), data, offset, p, end)
  {
    AtSplit(data, offset, a.show(p.0), b.show(p.1));
    if Reads(Pair(a, b), data, offset, p, end) {
      var next := a.read(data, offset).value.1;
      assert Reads(b, data, next, p.1, end);
      assert Reads(a, data, offset, p.0, next);
    } else if Stands(Pair(a, b), data, offset, p, end) {
      var next := offset + |a.show(p.0)|;
      assert Stands(a, data, offset, p.0, next);
      assert Stands(b, data, next, p.1, end);
    }
  }

  // ----- the whole input ----------------------------------------------------

  /** The value that fills the whole input; anything left over is an error. */
  function ReadWhole<T>(c: Codec<T>, data: bytes): Option<T> {
    var (v, end) :- c.read(data, 0);
    if end != |data| then None else Some(v)
  }

  lemma WholeExact<T(!new)>(c: Codec<T>, data: bytes, v: T)
    requires Exact(c)
    ensures ReadWhole(c, data) == Some(v) <==> c.fits(v) && data == c.show(v)
  {
    assert Reads(c, data, 0, v, |data|) <==> Stands(c, data, 0, v, |data|);
    AtWhole(data, c.show(v));
  }

  // ----- texts and runs of octets -------------------------------------------

  /** Codecs of numbers that read at least one octet of the input and cover the wire range. */
  ghost predicate Numeric(n: Codec<nat>) {
    Exact(n)
    && (forall v: nat {:trigger n.fits(v)} :: n.fits(v) <==> v <= MAX_VARINT)
    && forall data, offset: nat {:trigger n.read(data, offset)} ::
         n.read(data, offset).Some? ==> offset < n.read(data, offset).value.1 <= |data|
  }

  /** Reading moves on, and a printed number is read back wherever it stands. */
  ghost predicate Inverts(v: Codec<nat>) {
    (forall data, offset: nat, x: nat, end: nat {:trigger Stands(v, data, offset, x, end)} ::
       Stands(v, data, offset, x, end) ==> v.read(data, offset) == Some((x, end)))
    && forall data, offset: nat {:trigger v.read(data, offset)} ::
         v.read(data, offset).Some? ==> offset < v.read(data, offset).value.1
  }

  lemma NumericInverts(n: Codec<nat>)
    requires Numeric(n)
    ensures Inverts(n)
  {
    forall data, offset: nat, x: nat, end: nat | Stands(n, data, offset, x, end)
      ensures n.read(data, offset) == Some((x, end))
    {
      assert Reads(n, data, offset, x, end);
    }
  }

  /** A printed number is read back, and takes at least one octet. */
  lemma ReadShown(v: Codec<nat>, data: bytes, offset: nat, x: nat)
    requires Inverts(v) && v.fits(x) && At(data, offset, v.show(x))
    ensures v.read(data, offset) == Some((x, offset + |v.show(x)|)) && |v.show(x)| >= 1
  {
    assert Stands(v, data, offset, x, offset + |v.show(x)|);
  }

  function ReadText(n: Codec<nat>, data: bytes, offset: nat, limit: nat): Option<(bytes, nat)> {
    var (size, start) :- n.read(data, offset);
    if size > limit || start + size > |data| then None else Some((data[start..start + size], start + size))
  }

  function ShowText(n: Codec<nat>, value: bytes): bytes {
    n.show(|value|) + value
  }

  /** A length-prefixed text; a length over the limit or past the end is an error. */
  function Text(n: Codec<nat>, limit: nat): Codec<bytes> {
    Codec((data: bytes, offset: nat) => ReadText(n, data, offset, limit),
          (v: bytes) => |v| <= limit && n.fits(|v|),
          (v: bytes) => ShowText(n, v))
  }

  /** A length-prefixed text whose end is cut to the input without an error. */
  function ReadClamped(n: Codec<nat>, data: bytes, offset: nat): Option<(bytes, nat)> {
    var (size, start) :- n.read(data, offset);
    Some((Slice(data, start, start + size), start + size))
  }

  function Clamped(n: Codec<nat>): Codec<bytes> {
    Codec((data: bytes, offset: nat) => ReadClamped(n, data, offset),
          (v: bytes) => n.fits(|v|),
          (v: bytes) => ShowText(n, v))
  }

  /** A run of octets is sliced without a bounds check; only a later read notices that it was short. */
  function ReadOctets(data: bytes, offset: nat, size: nat): Option<(bytes, nat)> {
    Some((Slice(data, offset, offset + size), offset + size))
  }

  function Octets(size: nat): Codec<bytes> {
    Codec((data: bytes, offset: nat) => ReadOctets(data, offset, size),
          (v: bytes) => |v| == size,
          (v: bytes) => v)
  }

  function ReadOctet(data: bytes, offset: nat): Option<(byte, nat)> {
    if offset < |data| then Some((data[offset], offset + 1)) else None
  }

  function Octet(): Codec<byte> {
    Codec(ReadOctet, (v: byte) => true, (v: byte) => [v])
  }

  lemma TextExact(n: Codec<nat>, limit: nat)
    requires Exact(n)
    ensures Exact(Text(n, limit))
  {
    var l := Text(n, limit);
    forall data, offset: nat, v, end: nat
      ensures Reads(l, data, offset, v, end) <==> Stands(l, data, offset, v, end)
    {
      TextAt(n, limit, data, offset, v, end);
    }
  }

  lemma TextAt(n: Codec<nat>, limit: nat, data: bytes, offset: nat, v: bytes, end: nat)
    requires Exact(n)
    ensures Reads(Text(n, limit), data, offset, v, end) <==> Stands(Text(n, limit), data, offset, v, end)
  {
    AtSplit(data, offset, n.show(|v|), v);
    if Reads(Text(n, limit), data, offset, v, end) {
      assert Reads(n, data, offset, |v|, n.read(data, offset).value.1);
    } else if Stands(Text(n, limit), data, offset, v, end) {
      assert Stands(n, data, offset, |v|, offset + |n.show(|v|)|);
    }
  }

  lemma ClampedExact(n: Codec<nat>)
    requires Exact(n)
    ensures Exact(Clamped(n))
  {
    var l := Clamped(n);
    forall data, offset: nat, v, end: nat
      ensures Reads(l, data, offset, v, end) <==> Stands(l, data, offset, v, end)
    {
      ClampedAt(n, data, offset, v, end);
    }
  }

  lemma ClampedAt(n: Codec<nat>, data: bytes, offset: nat, v: bytes, end: nat)
    requires Exact(n)
    ensures Reads(Clamped(n), data, offset, v, end) <==> Stands(Clamped(n), data, offset, v, end)
  {
    AtSplit(data, offset, n.show(|v|), v);
    if Reads(Clamped(n), data, offset, v, end) {
      var (size, start) := n.read(data, offset).value;
      assert Slice(data, start, start + size) == data[start..start + size];
      assert Reads(n, data, offset, |v|, start);
    }
    if Stands(Clamped(n), data, offset, v, end) {
      var start := offset + |n.show(|v|)|;
      assert Stands(n, data, offset, |v|, start);
      assert Slice(data, start, start + |v|) == v;
    }
  }

  lemma OctetsExact(size: nat)
    ensures Exact(Octets(size))
  {
    var l := Octets(size);
    forall data, offset: nat, v, end: nat
      ensures Reads(l, data, offset, v, end) <==> Stands(l, data, offset, v, end)
    {
      assert offset + size <= |data| ==> Slice(data, offset, offset + size) == data[offset..offset + size];
    }
  }

  lemma OctetExact()
    ensures Exact(Octet())
  {
    var l := Octet();
    forall data, offset: nat, v, end: nat
      ensures Reads(l, data, offset, v, end) <==> Stands(l, data, offset, v, end)
    {
    }
  }

  /** A number held in one octet. */
  function ReadSmall(data: bytes, offset: nat): Option<(nat, nat)> {
    if offset < |data| then Some((data[offset], offset + 1)) else None
  }

  function Small(): Codec<nat> {
    Codec(ReadSmall, (v: nat) => v < 256, (v: nat) => if v < 256 then [v] else [])
  }

  lemma SmallExact()
    ensures Exact(Small())
  {
    var l := Small();
    forall data, offset: nat, v, end: nat
      ensures Reads(l, data, offset, v, end) <==> Stands(l, data, offset, v, end)
    {
    }
  }

  /** A big-endian number of a fixed width. */
  function ReadFixed(data: bytes, offset: nat, width: nat): Option<(nat, nat)> {
    if offset + width > |data| then None else Some((FromBigEndian(data[offset..offset + width]), offset + width))
  }

  function Fixed(width: nat): Codec<nat> {
    Codec((data: bytes, offset: nat) => ReadFixed(data, offset, width),
          (v: nat) => v < Pow256(width),
          (v: nat) => BigEndian(v, width))
  }

  lemma FixedExact(width: nat)
    ensures Exact(Fixed(width))
  {
    var l := Fixed(width);
    forall data, offset: nat, v, end: nat
      ensures Reads(l, data, offset, v, end) <==> Stands(l, data, offset, v, end)
    {
      if Reads(l, data, offset, v, end) {
        FromBigEndianRoundTrip(data[offset..end]);
        FromBigEndianBound(data[offset..end]);
      }
      if Stands(l, data, offset, v, end) {
        BigEndianRoundTrip(v, width);
      }
    }
  }

  // ----- the numbers of the wire format -------------------------------------

  /** Section 16 of RFC 9000, shortest forms only. */
  function Number(): Codec<nat> {
    Codec(ReadVarint, (v: nat) => v <= MAX_VARINT, (v: nat) => if v <= MAX_VARINT then Varint(v) else [])
  }

  lemma NumberNumeric()
    ensures Numeric(Number())
  {
    var l := Number();
    forall data, offset: nat, v, end: nat
      ensures Reads(l, data, offset, v, end) <==> Stands(l, data, offset, v, end)
    {
      ReadVarintExact(data, offset, v, end);
    }
  }
}
