/** Protected short packets, as the live peer and the vector checker build and parse them. */
module ShortPackets {
  import opened Bytes
  import opened Wire
  import opened Codecs
  import opened PacketProtection

  /** Session data with a 16-bit packet number. */
  const FIRST: byte := 0x04

  // ----- building -----------------------------------------------------------

  function Protect(n: Codec<nat>, c: Cipher, secret: bytes, dcid: bytes, path: nat, number: nat, payload: bytes)
    : Option<bytes>
  {
    if path > MAX_VARINT || number >= 65_536 then None
    else Some(ProtectBody(c, secret, FIRST, dcid + n.show(path), BigEndian(number, 2), number, payload))
  }

  function ProtectBody(
    c: Cipher, secret: bytes, first: byte, body: bytes, pn: bytes, number: nat, payload: bytes): bytes
    requires |pn| == 2
  {
    var ciphertext := c.seal(secret, number, ([first] + body) + pn, payload);
    var mask := c.mask(secret, ciphertext);
    [Xor(first, FirstMask(mask))] + (body + (XorSeq(pn, mask) + ciphertext))
  }

  // ----- parsing ------------------------------------------------------------

  const SHORTEST: nat := 1 + 8 + 1 + 2 + 16

  /** The live peer reads the path id as a shortest-form number. */
  function Parse(n: Codec<nat>, c: Cipher, secret: bytes, packet: bytes): Option<(nat, bytes)>
    requires Numeric(n)
  {
    if |packet| < SHORTEST then None else
    var (path, offset) :- n.read(packet, 9);
    OpenShort(c, secret, packet, offset)
  }

  /** The vector checker only takes the width of the path id from its first octet. */
  function ParseVector(c: Cipher, secret: bytes, packet: bytes): Option<bytes> {
    if |packet| < SHORTEST then None else
    var (number, plaintext) :- OpenShort(c, secret, packet, 9 + WidthOf(packet[9]));
    Some(plaintext)
  }

  /** Unmasking and opening, once the packet number's place is known. */
  function OpenShort(c: Cipher, secret: bytes, packet: bytes, offset: nat): Option<(nat, bytes)>
    requires |packet| >= 9 && offset >= 9
  {
    var ciphertext := Slice(packet, offset + 2, |packet|);
    var mask := c.mask(secret, ciphertext);
    var first := Xor(packet[0], FirstMask(mask));
    var pn := XorSeq(Slice(packet, offset, offset + 2), mask);
    var number := FromBigEndian(pn);
    var aad := (([first] + packet[1..9]) + Slice(packet, 9, offset)) + pn;
    var plaintext :- c.unseal(secret, number, aad, ciphertext);
    Some((number, plaintext))
  }

  // ----- round trip ---------------------------------------------------------

  lemma ShortLayout(first: byte, dcid: bytes, path: bytes, pn: bytes, ciphertext: bytes)
    requires |dcid| == 8 && |pn| == 2
    ensures var packet := [first] + ((dcid + path) + (pn + ciphertext));
            var o := 9 + |path|;
            |packet| == o + 2 + |ciphertext| && packet[0] == first && packet[1..9] == dcid
            && At(packet, 9, path) && Slice(packet, 9, o) == path && Slice(packet, o, o + 2) == pn
            && Slice(packet, o + 2, |packet|) == ciphertext
  {
    var packet := [first] + ((dcid + path) + (pn + ciphertext));
    var o := 9 + |path|;
    assert packet == (([first] + dcid) + path) + (pn + ciphertext);
    assert packet[9..o] == path;
    assert packet[o..] == pn + ciphertext;
    assert packet[o..o + 2] == packet[o..][..2];
    assert packet[o + 2..] == packet[o..][2..];
  }

  /** Opening a protected packet returns its number and what was sealed in it. */
  lemma OpenProtected(
    c: Cipher, secret: bytes, first: byte, dcid: bytes, path: bytes, pn: bytes, number: nat, payload: bytes)
    requires Sound(c) && |dcid| == 8 && |pn| == 2 && FromBigEndian(pn) == number
    ensures var packet := ProtectBody(c, secret, first, dcid + path, pn, number, payload);
            |packet| == 9 + |path| + 2 + |payload| + 16 && At(packet, 9, path)
            && OpenShort(c, secret, packet, 9 + |path|) == Some((number, payload))
  {
    var ciphertext := c.seal(secret, number, ([first] + (dcid + path)) + pn, payload);
    var mask := c.mask(secret, ciphertext);
    ShortLayout(Xor(first, FirstMask(mask)), dcid, path, XorSeq(pn, mask), ciphertext);
    XorUndo(first, FirstMask(mask));
    XorSeqUndo(pn, mask);
    assert ([first] + dcid) + path == [first] + (dcid + path);
  }

  lemma TwoOctets(number: nat)
    requires number < 65_536
    ensures FromBigEndian(BigEndian(number, 2)) == number
  {
    Pow256Values();
    BigEndianRoundTrip(number, 2);
  }

  /** What follows the first eight octets of id and path together is itself a number in shortest form. */
  ghost predicate Aligned(n: Codec<nat>, body: bytes) {
    |body| >= 8 && exists v: nat {:trigger n.fits(v)} :: n.fits(v) && body[8..] == n.show(v)
  }

  /** Exactly then the number that the parser reads after eight octets ends where id and path end. */
  lemma CursorExactly(n: Codec<nat>, first: byte, body: bytes, rest: bytes)
    requires Numeric(n)
    ensures var packet := [first] + (body + rest);
            (n.read(packet, 9).Some? && n.read(packet, 9).value.1 == 1 + |body|) <==> Aligned(n, body)
  {
    var packet := [first] + (body + rest);
    var end := 1 + |body|;
    assert packet[1..end] == body;
    if |body| >= 8 {
      assert packet[9..end] == packet[1..end][8..] == body[8..];
      if Aligned(n, body) {
        var v: nat :| n.fits(v) && body[8..] == n.show(v);
        NumericInverts(n);
        ReadShown(n, packet, 9, v);
      }
    }
    if n.read(packet, 9).Some? && n.read(packet, 9).value.1 == end {
      var v := n.read(packet, 9).value.0;
      assert Reads(n, packet, 9, v, end);
      assert Stands(n, packet, 9, v, end);
    }
  }

  /** The live peer recovers packet number and payload whenever its cursor finds them, whatever the id's length. */
  lemma AlignedRoundTrip(
    n: Codec<nat>, c: Cipher, secret: bytes, dcid: bytes, path: nat, number: nat, payload: bytes)
    requires Numeric(n) && Sound(c) && path <= MAX_VARINT && number < 65_536 && Aligned(n, dcid + n.show(path))
    ensures Protect(n, c, secret, dcid, path, number, payload).Some?
    ensures Parse(n, c, secret, Protect(n, c, secret, dcid, path, number, payload).value) == Some((number, payload))
  {
    TwoOctets(number);
    var body := dcid + n.show(path);
    var v: nat :| n.fits(v) && body[8..] == n.show(v);
    assert body == body[..8] + n.show(v);
    ParseProtected(n, c, secret, FIRST, body[..8], v, BigEndian(number, 2), number, payload);
  }

  /** In particular for every id of eight octets. */
  lemma ShortRoundTrip(
    n: Codec<nat>, c: Cipher, secret: bytes, dcid: bytes, path: nat, number: nat, payload: bytes)
    requires Numeric(n) && Sound(c) && |dcid| == 8
    ensures var packet := Protect(n, c, secret, dcid, path, number, payload);
            (packet.Some? <==> path <= MAX_VARINT && number < 65_536)
            && (packet.Some? ==> Parse(n, c, secret, packet.value) == Some((number, payload)))
  {
    if path <= MAX_VARINT && number < 65_536 {
      var body := dcid + n.show(path);
      assert body[8..] == n.show(path) && n.fits(path);
      AlignedRoundTrip(n, c, secret, dcid, path, number, payload);
    }
  }

  lemma ParseProtected(
    n: Codec<nat>, c: Cipher, secret: bytes, first: byte, dcid: bytes, path: nat, pn: bytes, number: nat,
    payload: bytes)
    requires Numeric(n) && Sound(c) && |dcid| == 8 && path <= MAX_VARINT && |pn| == 2 && FromBigEndian(pn) == number
    ensures Parse(n, c, secret, ProtectBody(c, secret, first, dcid + n.show(path), pn, number, payload))
            == Some((number, payload))
  {
    OpenProtected(c, secret, first, dcid, n.show(path), pn, number, payload);
    NonEmpty(n, path);
    ParseOpened(n, c, secret, ProtectBody(c, secret, first, dcid + n.show(path), pn, number, payload), path);
  }

  lemma ParseOpened(n: Codec<nat>, c: Cipher, secret: bytes, packet: bytes, path: nat)
    requires Numeric(n) && path <= MAX_VARINT && At(packet, 9, n.show(path)) && |packet| >= SHORTEST
    ensures Parse(n, c, secret, packet) == OpenShort(c, secret, packet, 9 + |n.show(path)|)
  {
    NumericInverts(n);
    ReadShown(n, packet, 9, path);
  }

  lemma NonEmpty(n: Codec<nat>, v: nat)
    requires Numeric(n) && v <= MAX_VARINT
    ensures |n.show(v)| >= 1
  {
    NumericInverts(n);
    AtWhole(n.show(v), n.show(v));
    ReadShown(n, n.show(v), 0, v);
  }

  /** The vector checker opens a packet whose path id is as wide as its first octet says. */
  lemma VectorOpened(
    c: Cipher, secret: bytes, first: byte, dcid: bytes, path: bytes, pn: bytes, number: nat, payload: bytes)
    requires Sound(c) && |dcid| == 8 && |pn| == 2 && FromBigEndian(pn) == number
    requires path != [] && WidthOf(path[0]) == |path|
    ensures ParseVector(c, secret, ProtectBody(c, secret, first, dcid + path, pn, number, payload)) == Some(payload)
  {
    OpenProtected(c, secret, first, dcid, path, pn, number, payload);
    var packet := ProtectBody(c, secret, first, dcid + path, pn, number, payload);
    assert packet[9] == packet[9..9 + |path|][0] == path[0];
  }

  lemma PathWidth(path: nat)
    requires path <= MAX_VARINT
    ensures Varint(path) != [] && WidthOf(Varint(path)[0]) == |Varint(path)|
  {
    AtWhole(Varint(path), Varint(path));
    ReadPrinted(Varint(path), 0, path);
  }

  /** So does the vector checker the payload. */
  lemma VectorRoundTrip(c: Cipher, secret: bytes, dcid: bytes, path: nat, number: nat, payload: bytes)
    requires Sound(c) && |dcid| == 8 && path <= MAX_VARINT && number < 65_536
    ensures Protect(Number(), c, secret, dcid, path, number, payload).Some?
    ensures ParseVector(c, secret, Protect(Number(), c, secret, dcid, path, number, payload).value) == Some(payload)
  {
    TwoOctets(number);
    PathWidth(path);
    VectorOpened(c, secret, FIRST, dcid, Number().show(path), BigEndian(number, 2), number, payload);
  }

  /** With an abstract suite of primitives, and with no nonce used for two packet numbers. */
  lemma SuiteRoundTrip(s: Suite, secret: bytes, dcid: bytes, path: nat, number: nat, payload: bytes)
    requires SoundSuite(s) && |dcid| == 8 && path <= MAX_VARINT && number < 65_536
    ensures Numeric(Number()) && Protect(Number(), CipherOf(s), secret, dcid, path, number, payload).Some?
    ensures Parse(Number(), CipherOf(s), secret,
                  Protect(Number(), CipherOf(s), secret, dcid, path, number, payload).value)
            == Some((number, payload))
    ensures forall other: nat :: other < 65_536 && other != number ==>
              Nonce(s.packetIv(secret), other) != Nonce(s.packetIv(secret), number)
  {
    CipherSound(s);
    NumberNumeric();
    ShortRoundTrip(Number(), CipherOf(s), secret, dcid, path, number, payload);
    Pow256Values();
    forall other: nat | other < 65_536 && other != number
      ensures Nonce(s.packetIv(secret), other) != Nonce(s.packetIv(secret), number)
    {
      if Nonce(s.packetIv(secret), other) == Nonce(s.packetIv(secret), number) {
        NonceInjective(s.packetIv(secret), other, number);
      }
    }
  }
}
