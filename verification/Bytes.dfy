/** Octets, fixed-width big-endian integers and the octet-wise exclusive or. */
module Bytes {

  type byte = x: int | 0 <= x < 256
  type bytes = seq<byte>

  datatype Option<+T> = None | Some(value: T) {
    predicate IsFailure() {
      None?
    }

    function PropagateFailure<U>(): Option<U>
      requires None?
    {
      None
    }

    function Extract(): T
      requires Some?
    {
      value
    }
  }

  /** The octets of a text made of ASCII characters. */
  function Ascii(text: string): (r: bytes)
    ensures |r| == |text|
  {
    seq(|text|, i requires 0 <= i < |text| => if text[i] < 128 as char then text[i] as int else 0)
  }

  function Zeros(size: nat): (r: bytes)
    ensures |r| == size
  {
    seq(size, i => 0)
  }

  /** The largest value of an unsigned 64-bit counter. */
  const U64_MAX: nat := 0xFFFF_FFFF_FFFF_FFFF

  function SaturatingSub(a: nat, b: nat): nat {
    if a < b then 0 else a - b
  }

  function SaturatingIncrement(n: nat): nat {
    if n < U64_MAX then n + 1 else n
  }

  // ----- big-endian integers ------------------------------------------------

  function Pow256(width: nat): (r: nat)
    ensures r > 0
  {
    if width == 0 then 1 else 256 * Pow256(width - 1)
  }

  /** The `width`-octet big-endian form of `n`, most significant octet first. */
  function BigEndian(n: nat, width: nat): (r: bytes)
    ensures |r| == width
  {
    if width == 0 then [] else BigEndian(n / 256, width - 1) + [n % 256]
  }

  function FromBigEndian(b: bytes): nat {
    if b == [] then 0 else 256 * FromBigEndian(b[..|b| - 1]) + b[|b| - 1]
  }

  lemma {:induction false} FromBigEndianBound(b: bytes)
    ensures FromBigEndian(b) < Pow256(|b|)
  {
    if b != [] {
      FromBigEndianBound(b[..|b| - 1]);
    }
  }

  /** Reading back a number that fits its width. */
  lemma {:induction false} BigEndianRoundTrip(n: nat, width: nat)
    requires n < Pow256(width)
    ensures FromBigEndian(BigEndian(n, width)) == n
  {
    if width > 0 {
      BigEndianRoundTrip(n / 256, width - 1);
      var b := BigEndian(n, width);
      assert b[..|b| - 1] == BigEndian(n / 256, width - 1);
    }
  }

  /** Every octet string is the big-endian form of the number it denotes. */
  lemma {:induction false} FromBigEndianRoundTrip(b: bytes)
    ensures BigEndian(FromBigEndian(b), |b|) == b
  {
    if b != [] {
      var front, last := b[..|b| - 1], b[|b| - 1];
      FromBigEndianRoundTrip(front);
      assert b == front + [last];
      assert FromBigEndian(b) / 256 == FromBigEndian(front);
      assert FromBigEndian(b) % 256 == last;
    }
  }

  lemma BigEndianInjective(a: nat, b: nat, width: nat)
    requires a < Pow256(width) && b < Pow256(width)
    requires BigEndian(a, width) == BigEndian(b, width)
    ensures a == b
  {
    BigEndianRoundTrip(a, width);
    BigEndianRoundTrip(b, width);
  }

  lemma Pow256Values()
    ensures Pow256(1) == 0x100
    ensures Pow256(2) == 0x1_0000
    ensures Pow256(4) == 0x1_0000_0000
    ensures Pow256(8) == 0x1_0000_0000_0000_0000
  {
    assert Pow256(3) == 0x100_0000;
    assert Pow256(5) == 0x100_0000_0000;
    assert Pow256(6) == 0x1_0000_0000_0000;
    assert Pow256(7) == 0x100_0000_0000_0000;
  }

  // ----- exclusive or -------------------------------------------------------

  function Pow2(bits: nat): (r: nat)
    ensures r > 0
  {
    if bits == 0 then 1 else 2 * Pow2(bits - 1)
  }

  /** Bitwise exclusive or of two `bits`-bit numbers. */
  function XorBits(a: nat, b: nat, bits: nat): (r: nat)
    ensures r < Pow2(bits)
  {
    if bits == 0 then 0
    else (if a % 2 == b % 2 then 0 else 1) + 2 * XorBits(a / 2, b / 2, bits - 1)
  }

  lemma {:induction false} XorBitsUndo(a: nat, b: nat, bits: nat)
    requires a < Pow2(bits)
    ensures XorBits(XorBits(a, b, bits), b, bits) == a
  {
    if bits > 0 {
      XorBitsUndo(a / 2, b / 2, bits - 1);
      var x := XorBits(a, b, bits);
      assert x / 2 == XorBits(a / 2, b / 2, bits - 1);
      assert x % 2 == (if a % 2 == b % 2 then 0 else 1);
    }
  }

  lemma Pow2Eight()
    ensures Pow2(8) == 256
  {
    assert Pow2(4) == 16;
    assert Pow2(6) == 64;
  }

  function Xor(a: byte, b: byte): (r: byte) {
    Pow2Eight();
    XorBits(a, b, 8)
  }

  /** Applying the same mask twice gives the octet back. */
  lemma XorUndo(a: byte, b: byte)
    ensures Xor(Xor(a, b), b) == a
  {
    Pow2Eight();
    XorBitsUndo(a, b, 8);
  }

  lemma {:induction false} XorBitsCommutes(a: nat, b: nat, bits: nat)
    ensures XorBits(a, b, bits) == XorBits(b, a, bits)
  {
    if bits > 0 {
      XorBitsCommutes(a / 2, b / 2, bits - 1);
    }
  }

  /** Octet-wise exclusive or of `b` with the first |b| octets of `mask`. */
  function XorSeq(b: bytes, mask: bytes): (r: bytes)
    requires |b| <= |mask|
    ensures |r| == |b|
    ensures forall i :: 0 <= i < |b| ==> r[i] == Xor(b[i], mask[i])
  {
    seq(|b|, i requires 0 <= i < |b| => Xor(b[i], mask[i]))
  }

  lemma XorSeqUndo(b: bytes, mask: bytes)
    requires |b| <= |mask|
    ensures XorSeq(XorSeq(b, mask), mask) == b
  {
    var x := XorSeq(XorSeq(b, mask), mask);
    forall i | 0 <= i < |b| ensures x[i] == b[i] {
      XorUndo(b[i], mask[i]);
    }
  }

  lemma XorSeqInjective(a: bytes, b: bytes, mask: bytes)
    requires |a| == |b| <= |mask|
    requires XorSeq(a, mask) == XorSeq(b, mask)
    ensures a == b
  {
    XorSeqUndo(a, mask);
    XorSeqUndo(b, mask);
  }

  lemma XorSeqCommutes(a: bytes, b: bytes)
    requires |a| == |b|
    ensures XorSeq(a, b) == XorSeq(b, a)
  {
    forall i | 0 <= i < |a| ensures XorSeq(a, b)[i] == XorSeq(b, a)[i] {
      XorBitsCommutes(a[i], b[i], 8);
    }
  }
}
