/** Which packets are accepted: under an authentic cipher exactly those that protecting something gives. */
module AcceptedPackets {
  import opened Bytes
  import opened Wire
  import opened Codecs
  import opened PacketProtection
  import S = ShortPackets
  import L = LongPackets

  /** What opens was sealed: under this secret, with this number and context. */
  ghost predicate Authentic(c: Cipher) {
    forall secret, number: nat, aad, ciphertext {:trigger c.unseal(secret, number, aad, ciphertext)} ::
      c.unseal(secret, number, aad, ciphertext).Some? ==>
        ciphertext == c.seal(secret, number, aad, c.unseal(secret, number, aad, ciphertext).value)
  }

  lemma Cut(packet: bytes, i: nat, j: nat, k: nat)
    requires i <= j <= k <= |packet|
    ensures packet[i..k] == packet[i..j] + packet[j..k]
  {
  }

  // ----- short packets ------------------------------------------------------

  /** The packet protects `payload` under `number`, for a destination of eight octets and a path. */
  predicate Short(
    n: Codec<nat>, c: Cipher, secret: bytes, packet: bytes, first: byte, dcid: bytes, path: nat, number: nat,
    payload: bytes)
  {
    |dcid| == 8 && path <= MAX_VARINT && number < 65_536
    && packet == S.ProtectBody(c, secret, first, dcid + n.show(path), BigEndian(number, 2), number, payload)
  }

  lemma TwoBack(pn: bytes)
    requires |pn| == 2
    ensures FromBigEndian(pn) < 65_536 && BigEndian(FromBigEndian(pn), 2) == pn
  {
    FromBigEndianRoundTrip(pn);
    FromBigEndianBound(pn);
    Pow256Values();
  }

  /** The parts of a packet around a path of known width. */
  lemma ShortParts(packet: bytes, path: bytes, offset: nat)
    requires offset == 9 + |path| && At(packet, 9, path) && offset + 2 <= |packet|
    ensures packet == [packet[0]] + ((packet[1..9] + path) + (packet[offset..offset + 2] + packet[offset + 2..]))
  {
    Cut(packet, 1, 9, offset);
    Cut(packet, offset, offset + 2, |packet|);
    Cut(packet, 1, offset, |packet|);
    Cut(packet, 0, 1, |packet|);
  }

  /** What opening a packet at `offset` finds. */
  lemma ShortOpened(c: Cipher, secret: bytes, packet: bytes, path: bytes, offset: nat, number: nat, payload: bytes)
    returns (first: byte)
    requires Sound(c) && Authentic(c) && |packet| >= 9 && offset == 9 + |path| && At(packet, 9, path)
    requires S.OpenShort(c, secret, packet, offset) == Some((number, payload))
    ensures number < 65_536
            && packet == S.ProtectBody(c, secret, first, packet[1..9] + path, BigEndian(number, 2), number, payload)
  {
    var ciphertext := Slice(packet, offset + 2, |packet|);
    assert |ciphertext| >= 16;
    var mask := c.mask(secret, ciphertext);
    var masked := packet[offset..offset + 2];
    var pn := XorSeq(masked, mask);
    first := Xor(packet[0], FirstMask(mask));
    TwoBack(pn);
    assert (([first] + packet[1..9]) + path) + pn == ([first] + (packet[1..9] + path)) + pn;
    assert ciphertext == c.seal(secret, number, ([first] + (packet[1..9] + path)) + pn, payload);
    XorUndo(packet[0], FirstMask(mask));
    XorSeqUndo(masked, mask);
    ShortParts(packet, path, offset);
  }

  lemma ShortSound(n: Codec<nat>, c: Cipher, secret: bytes, packet: bytes, number: nat, payload: bytes)
    returns (first: byte, dcid: bytes, path: nat)
    requires Numeric(n) && Sound(c) && Authentic(c) && S.Parse(n, c, secret, packet) == Some((number, payload))
    ensures Short(n, c, secret, packet, first, dcid, path, number, payload)
  {
    var read := n.read(packet, 9).value;
    path, dcid := read.0, packet[1..9];
    assert Reads(n, packet, 9, path, read.1);
    assert Stands(n, packet, 9, path, read.1);
    first := ShortOpened(c, secret, packet, n.show(path), read.1, number, payload);
  }

  /** A short packet is accepted exactly when it protects, with a number of two octets, what parsing returns. */
  lemma ShortExactly(n: Codec<nat>, c: Cipher, secret: bytes, packet: bytes, number: nat, payload: bytes)
    requires Numeric(n) && Sound(c) && Authentic(c)
    ensures S.Parse(n, c, secret, packet) == Some((number, payload))
            <==> exists first: byte, dcid: bytes, path: nat ::
                   Short(n, c, secret, packet, first, dcid, path, number, payload)
  {
    if S.Parse(n, c, secret, packet) == Some((number, payload)) {
      var first, dcid, path := ShortSound(n, c, secret, packet, number, payload);
    }
    forall first: byte, dcid: bytes, path: nat | Short(n, c, secret, packet, first, dcid, path, number, payload)
      ensures S.Parse(n, c, secret, packet) == Some((number, payload))
    {
      S.TwoOctets(number);
      S.ParseProtected(n, c, secret, first, dcid, path, BigEndian(number, 2), number, payload);
    }
  }

  // ----- long packets -------------------------------------------------------

  /** The packet protects `payload` behind four octets of version, which may be any, and the header fields. */
  predicate Long(
    f: Codec<L.Fields>, c: Cipher, secret: bytes, packet: bytes, withNumber: bool, first: byte, version: bytes,
    v: L.Fields, number: byte, payload: bytes)
  {
    first >= 128 && |version| == 4 && f.fits(v) && v.1.1.1 == |payload| + (if withNumber then 17 else 16)
    && packet == L.Protected(c, first, version + f.show(v), payload, secret, number)
  }

  lemma LongParts(packet: bytes, fields: bytes, offset: nat)
    requires offset == 5 + |fields| && At(packet, 5, fields) && offset + 1 <= |packet|
    ensures packet == [packet[0]] + ((packet[1..5] + fields) + ([packet[offset]] + packet[offset + 1..]))
  {
    Cut(packet, 1, 5, offset);
    Cut(packet, offset, offset + 1, |packet|);
    Cut(packet, 1, offset, |packet|);
    Cut(packet, 0, 1, |packet|);
  }

  lemma LongOpened(
    c: Cipher, secret: bytes, packet: bytes, fields: bytes, offset: nat, size: nat, dcid: bytes, scid: bytes,
    payload: bytes)
    returns (first: byte, number: byte)
    requires Sound(c) && Authentic(c) && offset == 5 + |fields| && At(packet, 5, fields) && packet[0] >= 128
    requires L.OpenLong(c, packet, secret, dcid, scid, offset, size) == Some((dcid, scid, payload))
    ensures first >= 128 && size == |payload| + 16
            && packet == L.Protected(c, first, packet[1..5] + fields, payload, secret, number)
  {
    var ciphertext := Slice(packet, offset + 1, offset + 1 + size);
    assert ciphertext == packet[offset + 1..];
    var mask := c.mask(secret, ciphertext);
    first, number := Xor(packet[0], FirstMask(mask)), Xor(packet[offset], mask[0]);
    FormBitKept(packet[0], FirstMask(mask));
    LongParts(packet, fields, offset);
    var body := packet[1..5] + fields;
    L.PacketLayout(packet[0], body, packet[offset], ciphertext);
    L.ReplaceEnds(packet[0], packet[offset], body, first, number);
    assert ciphertext == c.seal(secret, number, ([first] + body) + [number], payload);
    XorUndo(packet[0], FirstMask(mask));
    XorUndo(packet[offset], mask[0]);
    assert ([first] + body)[1..] == body;
  }

  lemma LongSound(
    f: Codec<L.Fields>, c: Cipher, secret: bytes, packet: bytes, withNumber: bool, dcid: bytes, scid: bytes,
    payload: bytes)
    returns (first: byte, version: bytes, v: L.Fields, number: byte)
    requires Exact(f) && Sound(c) && Authentic(c)
    requires L.ParseWith(f, c, packet, secret, withNumber) == Some((dcid, scid, payload))
    ensures Long(f, c, secret, packet, withNumber, first, version, v, number, payload)
    ensures v.0 == dcid && v.1.0 == scid
  {
    var read := f.read(packet, 5).value;
    v, version := read.0, packet[1..5];
    var size := if withNumber then v.1.1.1 - 1 else v.1.1.1;
    assert Reads(f, packet, 5, v, read.1);
    assert Stands(f, packet, 5, v, read.1);
    first, number := LongOpened(c, secret, packet, f.show(v), read.1, size, dcid, scid, payload);
  }

  /** A long packet is accepted exactly when it protects what parsing returns, with fields that fit and fill it. */
  lemma LongExactly(
    n: Codec<nat>, c: Cipher, secret: bytes, packet: bytes, withNumber: bool, dcid: bytes, scid: bytes,
    payload: bytes)
    requires Numeric(n) && Sound(c) && Authentic(c)
    ensures L.ParseLong(n, c, packet, secret, withNumber) == Some((dcid, scid, payload))
            <==> exists first: byte, version: bytes, v: L.Fields, number: byte ::
                   v.0 == dcid && v.1.0 == scid
                   && Long(L.FieldsCodec(n), c, secret, packet, withNumber, first, version, v, number, payload)
  {
    var f := L.FieldsCodec(n);
    L.FieldsExact(n);
    if L.ParseLong(n, c, packet, secret, withNumber) == Some((dcid, scid, payload)) {
      var first, version, v, number := LongSound(f, c, secret, packet, withNumber, dcid, scid, payload);
    }
    forall first: byte, version: bytes, v: L.Fields, number: byte |
      v.0 == dcid && v.1.0 == scid && Long(f, c, secret, packet, withNumber, first, version, v, number, payload)
      ensures L.ParseWith(f, c, packet, secret, withNumber) == Some((dcid, scid, payload))
    {
      L.ParseProtected(f, c, first, version, v, payload, secret, number, withNumber);
    }
  }
}
