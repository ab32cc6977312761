/**
 What protecting a packet needs: traffic keys, an authenticated cipher, a header
 mask and the nonce of a packet number. Ciphers and key derivation are arguments.
 */
module PacketProtection {
  import opened Bytes
  import opened Wire

  type Vector = b: bytes | |b| == 12 witness [0, 0, 0, 0, 0, 0, 0, 0, 0, 0, 0, 0]
  type HeaderMask = b: bytes | |b| == 5 witness [0, 0, 0, 0, 0]

  /** The primitives: key derivation, sealing under a key and a nonce, and the mask of a sample. */
  datatype Suite = Suite(
    packetKey: bytes -> bytes,
    packetIv: bytes -> Vector,
    headerKey: bytes -> bytes,
    seal: (bytes, bytes, bytes, bytes) -> bytes,
    unseal: (bytes, bytes, bytes, bytes) -> Option<bytes>,
    mask: (bytes, bytes) -> HeaderMask)

  /** Opening undoes sealing, which adds 16 octets. */
  ghost predicate SoundSuite(s: Suite) {
    forall k, n, a, p {:trigger s.seal(k, n, a, p)} ::
      |s.seal(k, n, a, p)| == |p| + 16 && s.unseal(k, n, a, s.seal(k, n, a, p)) == Some(p)
  }

  // ----- nonces -------------------------------------------------------------

  /** The vector with the packet number folded into its last eight octets. */
  function Nonce(iv: Vector, number: nat): (r: Vector)
  {
    iv[..4] + XorSeq(iv[4..], BigEndian(number, 8))
  }

  /** Packet numbers below 2^64 never share a nonce under one vector. */
  lemma NonceInjective(iv: Vector, a: nat, b: nat)
    requires a < Pow256(8) && b < Pow256(8) && Nonce(iv, a) == Nonce(iv, b)
    ensures a == b
  {
    var (x, y) := (BigEndian(a, 8), BigEndian(b, 8));
    assert XorSeq(iv[4..], x) == Nonce(iv, a)[4..];
    assert XorSeq(iv[4..], y) == Nonce(iv, b)[4..];
    XorSeqCommutes(iv[4..], x);
    XorSeqCommutes(iv[4..], y);
    XorSeqInjective(x, y, iv[4..]);
    BigEndianInjective(a, b, 8);
  }

  /** The buffer is changed in place, one octet of the packet number at a time. */
  method FoldNumber(buffer: array<byte>, number: nat)
    requires buffer.Length == 12
    modifies buffer
    ensures buffer[..] == Nonce(old(buffer[..]), number)
  {
    var encoded := BigEndian(number, 8);
    ghost var iv := buffer[..];
    var i := 0;
    while i < 8
      invariant 0 <= i <= 8
      invariant forall k :: 0 <= k < 4 ==> buffer[k] == iv[k]
      invariant forall k :: 4 <= k < 4 + i ==> buffer[k] == Xor(iv[k], encoded[k - 4])
      invariant forall k :: 4 + i <= k < 12 ==> buffer[k] == iv[k]
    {
      buffer[4 + i] := Xor(buffer[4 + i], encoded[i]);
      i := i + 1;
    }
    assert buffer[..][..4] == iv[..4];
    assert buffer[..][4..] == XorSeq(iv[4..], encoded);
    assert buffer[..] == buffer[..][..4] + buffer[..][4..];
  }

  // ----- sealing under a traffic secret -------------------------------------

  /** Sealing a packet of a given number, and its header mask, under a traffic secret. */
  datatype Cipher = Cipher(
    seal: (bytes, nat, bytes, bytes) -> bytes,
    unseal: (bytes, nat, bytes, bytes) -> Option<bytes>,
    mask: (bytes, bytes) -> HeaderMask)

  function CipherOf(s: Suite): Cipher {
    Cipher((secret: bytes, number: nat, aad: bytes, plaintext: bytes) =>
             s.seal(s.packetKey(secret), Nonce(s.packetIv(secret), number), aad, plaintext),
           (secret: bytes, number: nat, aad: bytes, ciphertext: bytes) =>
             s.unseal(s.packetKey(secret), Nonce(s.packetIv(secret), number), aad, ciphertext),
           (secret: bytes, ciphertext: bytes) => s.mask(s.headerKey(secret), Slice(ciphertext, 0, 16)))
  }

  ghost predicate Sound(c: Cipher) {
    forall secret, number: nat, a, p {:trigger c.seal(secret, number, a, p)} ::
      |c.seal(secret, number, a, p)| == |p| + 16
      && c.unseal(secret, number, a, c.seal(secret, number, a, p)) == Some(p)
  }

  lemma CipherSound(s: Suite)
    requires SoundSuite(s)
    ensures Sound(CipherOf(s))
  {
    var c := CipherOf(s);
    forall secret, number: nat, a, p
      ensures |c.seal(secret, number, a, p)| == |p| + 16
      ensures c.unseal(secret, number, a, c.seal(secret, number, a, p)) == Some(p)
    {
      assert c.seal(secret, number, a, p) == s.seal(s.packetKey(secret), Nonce(s.packetIv(secret), number), a, p);
    }
  }

  /** The one bit of the first octet that the mask may change. */
  function FirstMask(mask: HeaderMask): (r: byte)
    ensures r < 128
  {
    if mask[4] / 16 % 2 == 1 then 16 else 0
  }

  /** Masking the first octet keeps the form bit. */
  lemma FormBitKept(first: byte, m: byte)
    requires first >= 128 && m < 128
    ensures Xor(first, m) >= 128
  {
    Pow2Eight();
    TopBitKept(first, m, 8);
  }

  lemma {:induction false} TopBitKept(a: nat, b: nat, bits: nat)
    requires bits > 0 && Pow2(bits - 1) <= a < Pow2(bits) && b < Pow2(bits - 1)
    ensures XorBits(a, b, bits) >= Pow2(bits - 1)
  {
    if bits == 1 {
      assert Pow2(0) == 1 && Pow2(1) == 2;
    } else {
      TopBitKept(a / 2, b / 2, bits - 1);
    }
  }
}
