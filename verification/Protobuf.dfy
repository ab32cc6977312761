/** Base-128 numbers and the field stream of the Protocol Buffers encoding. */
module Protobuf {
  import opened Bytes
  import opened Wire
  import opened Codecs

  // ----- base-128 numbers ---------------------------------------------------

  const MAX_OCTETS: nat := 10
  const TWO_63: int := 0x8000_0000_0000_0000
  const TWO_64: int := 0x1_0000_0000_0000_0000

  function Pow128(n: nat): (r: nat)
    ensures r > 0
  {
    if n == 0 then 1 else 128 * Pow128(n - 1)
  }

  /** Least significant group first; every octet but the last has its top bit set. */
  function Base128(v: nat): (r: bytes)
    ensures |r| > 0
  {
    if v < 128 then [v] else [v % 128 + 128] + Base128(v / 128)
  }

  /** At most `left` octets are read; the top bit of the last is clear. */
  function ReadBase128(data: bytes, offset: nat, left: nat): Option<(nat, nat)>
    decreases left
  {
    if offset >= |data| || left == 0 then None
    else if data[offset] < 128 then Some((data[offset], offset + 1))
    else
      var (rest, end) :- ReadBase128(data, offset + 1, left - 1);
      Some((data[offset] - 128 + 128 * rest, end))
  }

  /** A negative number is taken modulo 2^64 before it is printed. */
  function Mask64(v: int): nat {
    if v < 0 then v % TWO_64 else v
  }

  function Signed64(v: nat): int {
    if v / TWO_63 % 2 == 1 then v - TWO_64 else v
  }

  /** The two's-complement mask is undone exactly on the 64-bit range, and on larger numbers with bit 63 clear. */
  lemma SignedMasked(v: int)
    ensures Signed64(Mask64(v)) == v <==> -TWO_63 <= v < TWO_63 || (v >= TWO_64 && v / TWO_63 % 2 == 0)
  {
    if v < 0 {
      var m := v % TWO_64;
      assert v == TWO_64 * (v / TWO_64) + m;
      assert m / TWO_63 == if m < TWO_63 then 0 else 1;
    } else if v < TWO_64 {
      assert v / TWO_63 == if v < TWO_63 then 0 else 1;
    }
  }

  lemma {:induction false} ReadPrinted128(data: bytes, offset: nat, v: nat, left: nat)
    requires left > 0 && At(data, offset, Base128(v))
    ensures ReadBase128(data, offset, left) == if v < Pow128(left) then Some((v, offset + |Base128(v)|)) else None
    decreases left
  {
    var piece := data[offset..offset + |Base128(v)|];
    assert data[offset] == piece[0];
    assert Pow128(left) == 128 * Pow128(left - 1);
    if v >= 128 && left > 1 {
      AtSplit(data, offset, [v % 128 + 128], Base128(v / 128));
      ReadPrinted128(data, offset + 1, v / 128, left - 1);
      assert v / 128 < Pow128(left - 1) <==> v < Pow128(left);
    }
  }

  /** Ten octets hold the numbers below 2^70, and reading inverts printing exactly there. */
  lemma ReadBase128Inverts(v: nat)
    ensures ReadBase128(Base128(v), 0, MAX_OCTETS) == Some((v, |Base128(v)|)) <==> v < Pow128(MAX_OCTETS)
  {
    AtWhole(Base128(v), Base128(v));
    ReadPrinted128(Base128(v), 0, v, MAX_OCTETS);
  }

  lemma Pow128Ten()
    ensures Pow128(MAX_OCTETS) == 0x40_0000_0000_0000_0000 > TWO_64
  {
    assert Pow128(3) == 0x20_0000;
    assert Pow128(5) == 0x8_0000_0000;
    assert Pow128(7) == 0x2_0000_0000_0000;
    assert Pow128(9) == 0x8000_0000_0000_0000;
  }

  // ----- the loops over octets ----------------------------------------------

  lemma PrintStep(out: bytes, v: nat)
    requires v >= 128
    ensures out + Base128(v) == out + [v % 128 + 128] + Base128(v / 128)
  {
    assert Base128(v) == [v % 128 + 128] + Base128(v / 128);
  }

  method Print(value: int) returns (out: bytes)
    ensures out == Base128(Mask64(value))
  {
    var v: nat := if value < 0 then value % TWO_64 else value;
    ghost var whole := Base128(v);
    out := [];
    while v > 0x7F
      invariant whole == out + Base128(v)
    {
      PrintStep(out, v);
      out := out + [v % 128 + 128];
      v := v / 128;
    }
    out := out + [v];
  }

  /** One more group, `p` times its own size. */
  function Grown(value: nat, p: nat, group: nat): nat {
    value + p * group
  }

  /** What is read in all when `value` is read already and the rest weighs `p`. */
  ghost function Shifted(value: nat, p: nat, rest: Option<(nat, nat)>): Option<(nat, nat)> {
    if rest.None? then None else Some((Grown(value, p, rest.value.0), rest.value.1))
  }

  lemma ShiftStep(data: bytes, offset: nat, left: nat, value: nat, p: nat)
    requires offset < |data| && left > 0
    ensures Shifted(value, p, ReadBase128(data, offset, left))
            == if data[offset] < 128 then Some((Grown(value, p, data[offset]), offset + 1))
               else Shifted(Grown(value, p, data[offset] - 128), 128 * p, ReadBase128(data, offset + 1, left - 1))
  {
    var rest := ReadBase128(data, offset + 1, left - 1);
    if data[offset] >= 128 && rest.Some? {
      GrownTwice(value, p, data[offset] - 128, rest.value.0);
    }
  }

  lemma GrownTwice(value: nat, p: nat, low: nat, high: nat)
    ensures Grown(value, p, low + 128 * high) == Grown(Grown(value, p, low), 128 * p, high)
  {
    assert p * (low + 128 * high) == p * low + (128 * p) * high;
  }

  lemma ShiftFirst(data: bytes, offset: nat)
    ensures Shifted(0, 1, ReadBase128(data, offset, MAX_OCTETS)) == ReadBase128(data, offset, MAX_OCTETS)
  {
  }

  /** The value grows by one shifted group an octet. */
  method Read(data: bytes, start: nat) returns (r: Option<(nat, nat)>)
    ensures r == ReadBase128(data, start, MAX_OCTETS)
  {
    var value: nat, weight: nat, left: nat, offset: nat := 0, 1, MAX_OCTETS, start;
    ShiftFirst(data, start);
    while offset < |data| && left > 0
      invariant Shifted(value, weight, ReadBase128(data, offset, left)) == ReadBase128(data, start, MAX_OCTETS)
    {
      ShiftStep(data, offset, left, value, weight);
      if data[offset] < 128 {
        return Some((Grown(value, weight, data[offset]), offset + 1));
      }
      value, weight := Grown(value, weight, data[offset] - 128), 128 * weight;
      offset, left := offset + 1, left - 1;
    }
    return None;
  }

  // ----- fields -------------------------------------------------------------

  datatype Field = Varint(number: nat, value: nat)
                 | Block(number: nat, octets: bytes)
                 | Fixed(number: nat, octets: bytes)

  /** One field at `offset`; `v` is the codec of its numbers. */
  function ReadField(v: Codec<nat>, data: bytes, offset: nat): Option<(Field, nat)> {
    var (key, o1) :- v.read(data, offset);
    ReadPayload(v, data, o1, key / 8, key % 8)
  }

  function ReadPayload(v: Codec<nat>, data: bytes, offset: nat, number: nat, wire: nat): Option<(Field, nat)> {
    if number == 0 then None
    else if wire == 0 then
      var (value, end) :- v.read(data, offset);
      Some((Varint(number, value), end))
    else if wire == 2 then
      var (size, start) :- v.read(data, offset);
      if start + size > |data| then None
      else Some((Block(number, data[start..start + size]), start + size))
    else if wire == 1 then
      if offset + 8 > |data| then None else Some((Fixed(number, data[offset..offset + 8]), offset + 8))
    else if wire == 5 then
      if offset + 4 > |data| then None else Some((Fixed(number, data[offset..offset + 4]), offset + 4))
    else None
  }

  lemma ReadFieldForward(v: Codec<nat>, data: bytes, offset: nat)
    requires Inverts(v)
    ensures var r := ReadField(v, data, offset); r.Some? ==> offset < r.value.1
  {
  }

  /** Splitting a message into its fields. */
  function Split(v: Codec<nat>, data: bytes, offset: nat): Option<seq<Field>>
    requires Inverts(v)
    decreases SaturatingSub(|data|, offset)
  {
    if offset >= |data| then Some([]) else
    var (field, next) :- ReadField(v, data, offset);
    ReadFieldForward(v, data, offset);
    var rest :- Split(v, data, next);
    Some([field] + rest)
  }

  /** The loop that yields one field after another. */
  method Fields(v: Codec<nat>, data: bytes) returns (r: Option<seq<Field>>)
    requires Inverts(v)
    ensures r == Split(v, data, 0)
  {
    var fields: seq<Field>, offset: nat := [], 0;
    ghost var whole := Split(v, data, 0);
    assert whole.Some? ==> [] + whole.value == whole.value;
    while offset < |data|
      invariant Split(v, data, offset).None? ==> whole.None?
      invariant Split(v, data, offset).Some? ==> whole == Some(fields + Split(v, data, offset).value)
      decreases SaturatingSub(|data|, offset)
    {
      var next := ReadField(v, data, offset);
      ReadFieldForward(v, data, offset);
      if next.None? {
        return None;
      }
      ghost var rest := Split(v, data, next.value.1);
      assert rest.Some? ==> fields + ([next.value.0] + rest.value) == fields + [next.value.0] + rest.value;
      fields, offset := fields + [next.value.0], next.value.1;
    }
    assert fields + [] == fields;
    return Some(fields);
  }

  // ----- printing fields ----------------------------------------------------

  function PrintField(v: Codec<nat>, f: Field): bytes {
    match f
    case Varint(number, value) => v.show(8 * number) + v.show(value)
    case Block(number, octets) => v.show(8 * number + 2) + (v.show(|octets|) + octets)
    case Fixed(number, octets) => v.show(8 * number + if |octets| == 8 then 1 else 5) + octets
  }

  function PrintFields(v: Codec<nat>, fields: seq<Field>): bytes {
    if fields == [] then [] else PrintField(v, fields[0]) + PrintFields(v, fields[1..])
  }

  predicate Printable(v: Codec<nat>, f: Field) {
    f.number > 0
    && match f
       case Varint(number, value) => v.fits(8 * number) && v.fits(value)
       case Block(number, octets) => v.fits(8 * number + 2) && v.fits(|octets|)
       case Fixed(number, octets) =>
         (|octets| == 8 && v.fits(8 * number + 1)) || (|octets| == 4 && v.fits(8 * number + 5))
  }

  predicate AllPrintable(v: Codec<nat>, fields: seq<Field>) {
    forall i :: 0 <= i < |fields| ==> Printable(v, fields[i])
  }

  lemma SplitNumber(v: Codec<nat>, data: bytes, offset: nat, x: nat, rest: bytes)
    requires Inverts(v) && v.fits(x) && At(data, offset, v.show(x) + rest)
    ensures v.read(data, offset) == Some((x, offset + |v.show(x)|)) && At(data, offset + |v.show(x)|, rest)
  {
    AtSplit(data, offset, v.show(x), rest);
    ReadShown(v, data, offset, x);
  }

  lemma ReadFieldPrinted(v: Codec<nat>, data: bytes, offset: nat, f: Field)
    requires Inverts(v) && Printable(v, f) && At(data, offset, PrintField(v, f))
    ensures ReadField(v, data, offset) == Some((f, offset + |PrintField(v, f)|))
  {
    match f
    case Varint(number, value) => ReadVarintPrinted(v, data, offset, number, value);
    case Block(number, octets) => ReadBlockPrinted(v, data, offset, number, octets);
    case Fixed(number, octets) =>
      SplitNumber(v, data, offset, 8 * number + if |octets| == 8 then 1 else 5, octets);
  }

  lemma ReadVarintPrinted(v: Codec<nat>, data: bytes, offset: nat, number: nat, value: nat)
    requires Inverts(v) && number > 0 && v.fits(8 * number) && v.fits(value)
    requires At(data, offset, v.show(8 * number) + v.show(value))
    ensures ReadField(v, data, offset) == Some((Varint(number, value), offset + |v.show(8 * number) + v.show(value)|))
  {
    SplitNumber(v, data, offset, 8 * number, v.show(value));
    assert v.show(value) + [] == v.show(value);
    SplitNumber(v, data, offset + |v.show(8 * number)|, value, []);
  }

  lemma ReadBlockPrinted(v: Codec<nat>, data: bytes, offset: nat, number: nat, octets: bytes)
    requires Inverts(v) && number > 0 && v.fits(8 * number + 2) && v.fits(|octets|)
    requires At(data, offset, v.show(8 * number + 2) + (v.show(|octets|) + octets))
    ensures ReadField(v, data, offset)
            == Some((Block(number, octets), offset + |v.show(8 * number + 2) + (v.show(|octets|) + octets)|))
  {
    SplitNumber(v, data, offset, 8 * number + 2, v.show(|octets|) + octets);
    SplitNumber(v, data, offset + |v.show(8 * number + 2)|, |octets|, octets);
  }

  lemma {:induction false} SplitPrintedFrom(v: Codec<nat>, data: bytes, offset: nat, fields: seq<Field>)
    requires Inverts(v) && AllPrintable(v, fields) && Tail(data, offset, PrintFields(v, fields))
    ensures Split(v, data, offset) == Some(fields)
    decreases |fields|
  {
    if fields != [] {
      PrintableRest(v, fields);
      var next := ReadFirstField(v, data, offset, fields);
      SplitPrintedFrom(v, data, next, fields[1..]);
      SplitCons(v, data, offset, fields[0], next, fields[1..]);
      assert [fields[0]] + fields[1..] == fields;
    }
  }

  lemma PrintableRest(v: Codec<nat>, fields: seq<Field>)
    requires AllPrintable(v, fields) && fields != []
    ensures Printable(v, fields[0]) && AllPrintable(v, fields[1..])
  {
  }

  lemma ReadFirstField(v: Codec<nat>, data: bytes, offset: nat, fields: seq<Field>) returns (next: nat)
    requires Inverts(v) && fields != [] && Printable(v, fields[0]) && Tail(data, offset, PrintFields(v, fields))
    ensures offset < |data| && ReadField(v, data, offset) == Some((fields[0], next))
    ensures Tail(data, next, PrintFields(v, fields[1..]))
  {
    next := ReadPeeled(v, data, offset, fields[0], PrintFields(v, fields[1..]));
  }

  lemma ReadPeeled(v: Codec<nat>, data: bytes, offset: nat, f: Field, rest: bytes) returns (next: nat)
    requires Inverts(v) && Printable(v, f) && Tail(data, offset, PrintField(v, f) + rest)
    ensures offset < |data| && ReadField(v, data, offset) == Some((f, next)) && Tail(data, next, rest)
  {
    Peel(data, offset, PrintField(v, f), rest);
    ReadFieldPrinted(v, data, offset, f);
    ReadFieldForward(v, data, offset);
    next := offset + |PrintField(v, f)|;
  }

  lemma SplitCons(v: Codec<nat>, data: bytes, offset: nat, f: Field, next: nat, rest: seq<Field>)
    requires Inverts(v) && offset < |data| && ReadField(v, data, offset) == Some((f, next))
    requires Split(v, data, next) == Some(rest)
    ensures Split(v, data, offset) == Some([f] + rest)
  {
  }

  /** Splitting any concatenation of printed fields gives those fields. */
  lemma SplitPrinted(v: Codec<nat>, fields: seq<Field>)
    requires Inverts(v) && AllPrintable(v, fields)
    ensures Split(v, PrintFields(v, fields), 0) == Some(fields)
  {
    WholeTail(PrintFields(v, fields));
    SplitPrintedFrom(v, PrintFields(v, fields), 0, fields);
  }

  // ----- the numbers on the wire --------------------------------------------

  function Ten(): Codec<nat> {
    Codec((data: bytes, offset: nat) => ReadBase128(data, offset, MAX_OCTETS),
          (x: nat) => x < Pow128(MAX_OCTETS),
          Base128)
  }

  lemma {:induction false} ReadBase128Forward(data: bytes, offset: nat, left: nat)
    ensures var r := ReadBase128(data, offset, left); r.Some? ==> offset < r.value.1
    decreases left
  {
    if offset < |data| && left > 0 {
      ReadBase128Forward(data, offset + 1, left - 1);
    }
  }

  lemma TenInverts()
    ensures Inverts(Ten())
  {
    var v := Ten();
    forall data, offset: nat, x: nat, end: nat | Stands(v, data, offset, x, end)
      ensures v.read(data, offset) == Some((x, end))
    {
      ReadPrinted128(data, offset, x, MAX_OCTETS);
    }
    forall data, offset: nat | v.read(data, offset).Some?
      ensures offset < v.read(data, offset).value.1
    {
      ReadBase128Forward(data, offset, MAX_OCTETS);
    }
  }
}
