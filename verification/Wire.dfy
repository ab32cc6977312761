/**
 Variable-length integers and length-prefixed fields of the UMP wire format, as
 in section 16 of RFC 9000 with the added rule that only the shortest form of a
 number is accepted. A raised exception is the absence of a value.
 */
module Wire {
  import opened Bytes

  const MAX_VARINT: nat := 4_611_686_018_427_387_903

  // ----- printing -----------------------------------------------------------

  /** The shortest form of a number below 2^62: its top two bits give the width. */
  function Varint(v: nat): (r: bytes)
    requires v <= MAX_VARINT
  {
    if v <= 63 then [v]
    else if v <= 16_383 then BigEndian(v + 0x4000, 2)
    else if v <= 1_073_741_823 then BigEndian(v + 0x8000_0000, 4)
    else BigEndian(v + 0xC000_0000_0000_0000, 8)
  }

  // ----- reading ------------------------------------------------------------

  /** A slice as Python takes it: bounds beyond the end are cut to the end. */
  function Slice(data: bytes, lo: nat, hi: nat): bytes {
    if lo >= |data| || hi <= lo then [] else if hi > |data| then data[lo..] else data[lo..hi]
  }

  function WidthOf(first: byte): nat {
    if first < 64 then 1 else if first < 128 then 2 else if first < 192 then 4 else 8
  }

  function LimitOf(width: nat): nat {
    if width == 1 then 63 else if width == 2 then 16_383 else if width == 4 then 1_073_741_823 else MAX_VARINT
  }

  /** The number at `offset` and the offset after it. */
  function ReadVarint(data: bytes, offset: nat): Option<(nat, nat)> {
    if offset >= |data| then None else
    var width := WidthOf(data[offset]);
    var end := offset + width;
    if end > |data| then None else
    var value := FromBigEndian([data[offset] % 64] + data[offset + 1..end]);
    if value > LimitOf(width) || (width > 1 && value <= LimitOf(width / 2)) then None
    else Some((value, end))
  }

  // ----- the first octet ----------------------------------------------------

  lemma {:induction false} FromBigEndianHead(b: byte, rest: bytes)
    ensures FromBigEndian([b] + rest) == b * Pow256(|rest|) + FromBigEndian(rest)
  {
    if rest == [] {
      assert [b] + rest == [b];
      assert [b][..0] == [];
    } else {
      var s := [b] + rest;
      assert s[..|s| - 1] == [b] + rest[..|rest| - 1];
      FromBigEndianHead(b, rest[..|rest| - 1]);
      assert Pow256(|rest|) == 256 * Pow256(|rest| - 1);
      HeadStep(b, Pow256(|rest| - 1));
    }
  }

  lemma HeadStep(b: nat, p: nat)
    ensures 256 * (b * p) == b * (256 * p)
  {
  }

  /** A tag in the top bits of the first octet is a multiple of the weight of that octet. */
  lemma TagFirst(hi: byte, tag: nat, rest: bytes)
    requires hi < 64 && tag + hi < 256
    ensures BigEndian(FromBigEndian([hi] + rest) + tag * Pow256(|rest|), |rest| + 1) == [tag + hi] + rest
  {
    FromBigEndianHead(hi, rest);
    FromBigEndianHead(tag + hi, rest);
    assert (tag + hi) * Pow256(|rest|) == tag * Pow256(|rest|) + hi * Pow256(|rest|);
    FromBigEndianRoundTrip([tag + hi] + rest);
  }

  /** The four widths and what their tags weigh. */
  lemma TagWeights()
    ensures 64 * Pow256(1) == 0x4000
    ensures 128 * Pow256(3) == 0x8000_0000
    ensures 192 * Pow256(7) == 0xC000_0000_0000_0000
  {
    assert Pow256(3) == 0x100_0000;
    assert Pow256(4) == 0x1_0000_0000;
    assert Pow256(5) == 0x100_0000_0000;
    assert Pow256(6) == 0x1_0000_0000_0000;
    assert Pow256(7) == 0x100_0000_0000_0000;
  }

  /** The untagged octets of a number that fits the width in 8 * width - 2 bits. */
  lemma PlainOctets(v: nat, width: nat)
    requires width in {1, 2, 4, 8} && v <= LimitOf(width)
    ensures FromBigEndian(BigEndian(v, width)) == v && BigEndian(v, width)[0] < 64
  {
    Pow256Values();
    TagWeights();
    BigEndianRoundTrip(v, width);
    var b := BigEndian(v, width);
    assert b == [b[0]] + b[1..];
    FromBigEndianHead(b[0], b[1..]);
    assert Pow256(0) == 1;
  }

  function TagOf(width: nat): nat {
    if width == 1 then 0 else if width == 2 then 64 else if width == 4 then 128 else 192
  }

  /** The shortest form is the plain octets with the tag of their width on the first. */
  lemma VarintForm(v: nat, width: nat)
    requires width in {1, 2, 4, 8} && v <= LimitOf(width) && (width > 1 ==> v > LimitOf(width / 2))
    ensures var b := BigEndian(v, width);
            |Varint(v)| == width && b[0] < 64 && Varint(v) == [TagOf(width) + b[0]] + b[1..]
  {
    if width == 1 {
      assert BigEndian(v, 1) == [v];
    } else {
      TaggedOctets(v, width);
      VarintTagged(v, width);
    }
  }

  lemma TaggedOctets(v: nat, width: nat)
    requires width in {2, 4, 8} && v <= LimitOf(width)
    ensures var b := BigEndian(v, width);
            b[0] < 64 && BigEndian(v + TagOf(width) * Pow256(width - 1), width) == [TagOf(width) + b[0]] + b[1..]
  {
    PlainOctets(v, width);
    var b := BigEndian(v, width);
    assert b == [b[0]] + b[1..];
    TagFirst(b[0], TagOf(width), b[1..]);
  }

  lemma VarintTagged(v: nat, width: nat)
    requires width in {2, 4, 8} && LimitOf(width / 2) < v <= LimitOf(width)
    ensures Varint(v) == BigEndian(v + TagOf(width) * Pow256(width - 1), width)
  {
    TagWeight(width);
  }

  lemma TagWeight(width: nat)
    requires width in {2, 4, 8}
    ensures TagOf(width) * Pow256(width - 1)
            == if width == 2 then 0x4000 else if width == 4 then 0x8000_0000 else 0xC000_0000_0000_0000
  {
    TagWeights();
  }

  lemma VarintWidth(v: nat) returns (width: nat)
    requires v <= MAX_VARINT
    ensures width in {1, 2, 4, 8} && v <= LimitOf(width) && (width > 1 ==> v > LimitOf(width / 2))
    ensures |Varint(v)| == width
  {
    width := if v <= 63 then 1 else if v <= 16_383 then 2 else if v <= 1_073_741_823 then 4 else 8;
    VarintForm(v, width);
  }

  // ----- reading inverts printing, and accepts nothing else -----------------

  /** `piece` stands in `data` at `offset`. */
  predicate At(data: bytes, offset: nat, piece: bytes) {
    offset + |piece| <= |data| && data[offset..offset + |piece|] == piece
  }

  /** A printed number is read back, wherever it stands. */
  lemma ReadPrinted(data: bytes, offset: nat, v: nat)
    requires v <= MAX_VARINT && At(data, offset, Varint(v))
    ensures ReadVarint(data, offset) == Some((v, offset + |Varint(v)|))
  {
    var width := VarintWidth(v);
    VarintForm(v, width);
    PlainOctets(v, width);
    var b := BigEndian(v, width);
    var piece := data[offset..offset + width];
    assert data[offset] == piece[0] == TagOf(width) + b[0];
    assert data[offset + 1..offset + width] == piece[1..] == b[1..];
    assert [b[0]] + b[1..] == b;
  }

  /** Only shortest forms are accepted: what was read is what printing the number gives. */
  lemma ReadOnlyPrinted(data: bytes, offset: nat)
    requires ReadVarint(data, offset).Some?
    ensures var (v, end) := ReadVarint(data, offset).value;
            v <= MAX_VARINT && end <= |data| && end == offset + |Varint(v)| && data[offset..end] == Varint(v)
  {
    var (v, end) := ReadVarint(data, offset).value;
    FirstOctet(data[offset]);
    ReadForm(data[offset], data[offset + 1..end], v);
    assert data[offset..end] == [data[offset]] + data[offset + 1..end];
  }

  lemma FirstOctet(first: byte)
    ensures WidthOf(first) in {1, 2, 4, 8} && first == TagOf(WidthOf(first)) + first % 64
  {
  }

  lemma ReadForm(first: byte, rest: bytes, v: nat)
    requires |rest| + 1 == WidthOf(first) && v == FromBigEndian([first % 64] + rest)
    requires WidthOf(first) in {1, 2, 4, 8} && first == TagOf(WidthOf(first)) + first % 64
    requires v <= LimitOf(WidthOf(first)) && (WidthOf(first) > 1 ==> v > LimitOf(WidthOf(first) / 2))
    ensures v <= MAX_VARINT && Varint(v) == [first] + rest
  {
    var raw := [first % 64] + rest;
    FromBigEndianRoundTrip(raw);
    VarintForm(v, WidthOf(first));
    assert raw[1..] == rest;
  }

  /** `ReadVarint` accepts exactly the shortest forms of the numbers 0 .. 2^62 - 1. */
  lemma ReadVarintExact(data: bytes, offset: nat, v: nat, end: nat)
    ensures ReadVarint(data, offset) == Some((v, end))
            <==> v <= MAX_VARINT && end == offset + |Varint(v)| && At(data, offset, Varint(v))
  {
    if ReadVarint(data, offset) == Some((v, end)) {
      ReadOnlyPrinted(data, offset);
    } else if v <= MAX_VARINT && end == offset + |Varint(v)| && At(data, offset, Varint(v)) {
      ReadPrinted(data, offset, v);
    }
  }

  /** A concatenation stands where its parts stand one after the other. */
  lemma AtSplit(data: bytes, offset: nat, a: bytes, b: bytes)
    ensures At(data, offset, a + b) <==> At(data, offset, a) && At(data, offset + |a|, b)
  {
    if offset + |a| + |b| <= |data| {
      var piece := data[offset..offset + |a| + |b|];
      assert piece[..|a|] == data[offset..offset + |a|];
      assert piece[|a|..] == data[offset + |a|..offset + |a| + |b|];
      assert piece == piece[..|a|] + piece[|a|..];
      if piece == a + b {
        assert piece[..|a|] == a && piece[|a|..] == b;
      }
    }
  }

  /** `rest` is all of `data` from `offset` on. */
  predicate Tail(data: bytes, offset: nat, rest: bytes) {
    offset + |rest| == |data| && data[offset..] == rest
  }

  lemma WholeTail(data: bytes)
    ensures Tail(data, 0, data)
  {
  }

  /** Reading past a leading part leaves the rest. */
  lemma Peel(data: bytes, offset: nat, part: bytes, rest: bytes)
    requires Tail(data, offset, part + rest)
    ensures At(data, offset, part) && Tail(data, offset + |part|, rest)
  {
    assert data[offset..][..|part|] == data[offset..offset + |part|];
    assert data[offset..][|part|..] == data[offset + |part|..];
  }

  /** A piece that fills the whole of `data`. */
  lemma AtWhole(data: bytes, piece: bytes)
    ensures At(data, 0, piece) && |piece| == |data| <==> data == piece
  {
  }
}
