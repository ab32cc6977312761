/**
 The octets themselves: fixed-width and variable-length numbers, exclusive or, frames, hello and packet headers,
 archives and storage keys, spelled out for every value, with the samples of the published formats.
 */
module Formats {
  import opened Bytes
  import opened Wire
  import opened Codecs
  import Protobuf
  import Frames
  import ClientHello
  import LongPackets
  import ShortPackets
  import opened PacketProtection
  import Archive
  import opened Store
  import DecimalKeys
  import Idempotency
  import IdempotencyStore
  import DataPlane

  // ----- numbers ------------------------------------------------------------

  /** Digit `k` of a number in base 256, counted from the least significant. */
  function Digit256(n: nat, k: nat): byte {
    if k == 0 then n % 256 else Digit256(n / 256, k - 1)
  }

  /** The most significant octet of a big-endian number comes first. */
  lemma {:induction false} BigEndianAt(n: nat, width: nat, i: nat)
    requires i < width
    ensures BigEndian(n, width)[i] == Digit256(n, width - 1 - i)
  {
    if i < width - 1 {
      BigEndianAt(n / 256, width - 1, i);
    }
  }

  /** Two octets more at the end of a big-endian number. */
  lemma TwoMore(n: nat, a: byte, b: byte, width: nat)
    ensures var high: nat, low: nat := a, b;
            BigEndian(65_536 * n + 256 * high + low, width + 2) == BigEndian(n, width) + [a, b]
  {
    var high: nat, low: nat := a, b;
    var m := 256 * n + high;
    assert 256 * m + low == 65_536 * n + 256 * high + low;
    assert (256 * m + low) / 256 == m && (256 * m + low) % 256 == low;
    assert m / 256 == n && m % 256 == high;
    assert BigEndian(m, width + 1) == BigEndian(n, width) + [a];
  }

  /** A number of a given width, from its tagged octets. */
  lemma TaggedVarint(v: nat, octets: bytes)
    requires v <= MAX_VARINT
    requires if v < 0x40 then octets == [v]
             else if v < 0x4000 then octets == BigEndian(v + 0x4000, 2)
             else if v < 0x4000_0000 then octets == BigEndian(v + 0x8000_0000, 4)
             else octets == BigEndian(v + 0xC000_0000_0000_0000, 8)
    ensures Varint(v) == octets
  {
  }

  lemma FourOctets(a: byte, b: byte, c: byte, d: byte, n: nat)
    requires var high: nat, low: nat := a, c;
             n == 65_536 * (256 * high + b) + 256 * low + d
    ensures BigEndian(n, 4) == [a, b, c, d]
  {
    var high: nat := a;
    TwoMore(0, a, b, 0);
    TwoMore(256 * high + b, c, d, 2);
  }

  lemma EightOctets(m: nat, a: bytes, c: byte, d: byte, e: byte, f: byte, n: nat)
    requires var first: nat, second: nat := c, e;
             n == 65_536 * (65_536 * m + 256 * first + d) + 256 * second + f
    requires |a| == 4 && BigEndian(m, 4) == a
    ensures BigEndian(n, 8) == a + [c, d, e, f]
  {
    var first: nat := c;
    TwoMore(m, c, d, 4);
    TwoMore(65_536 * m + 256 * first + d, e, f, 6);
  }

  /** The samples of section A.1 of RFC 9000. */
  lemma VarintSamples()
    ensures Varint(37) == [0x25]
    ensures Varint(15_293) == [0x7B, 0xBD]
    ensures Varint(494_878_333) == [0x9D, 0x7F, 0x3E, 0x7D]
    ensures Varint(151_288_809_941_952_652) == [0xC2, 0x19, 0x7C, 0x5E, 0xFF, 0x14, 0xE8, 0x8C]
  {
    TwoMore(0, 0x7B, 0xBD, 0);
    FourOctets(0x9D, 0x7F, 0x3E, 0x7D, 494_878_333 + 0x8000_0000);
    FourOctets(0xC2, 0x19, 0x7C, 0x5E, 0xC219_7C5E);
    EightOctets(0xC219_7C5E, [0xC2, 0x19, 0x7C, 0x5E], 0xFF, 0x14, 0xE8, 0x8C,
                151_288_809_941_952_652 + 0xC000_0000_0000_0000);
    TaggedVarint(37, [0x25]);
    TaggedVarint(15_293, [0x7B, 0xBD]);
    TaggedVarint(494_878_333, [0x9D, 0x7F, 0x3E, 0x7D]);
    TaggedVarint(151_288_809_941_952_652, [0xC2, 0x19, 0x7C, 0x5E, 0xFF, 0x14, 0xE8, 0x8C]);
  }

  /** Numbers as in the Protocol Buffers encoding: 150 and 300, least significant group first. */
  lemma Base128Samples()
    ensures Protobuf.Base128(1) == [0x01]
    ensures Protobuf.Base128(150) == [0x96, 0x01]
    ensures Protobuf.Base128(300) == [0xAC, 0x02]
    ensures Protobuf.PrintField(Protobuf.Ten(), Protobuf.Varint(1, 150)) == [0x08, 0x96, 0x01]
    ensures Protobuf.PrintField(Protobuf.Ten(), Protobuf.Block(2, Ascii("ping")))
            == [0x12, 0x04] + Ascii("ping")
  {
    assert Protobuf.Base128(150 / 128) == [1] && Protobuf.Base128(300 / 128) == [2];
  }

  // ----- exclusive or -------------------------------------------------------

  function BitOf(n: nat, k: nat): (r: nat)
    ensures r < 2
  {
    if k == 0 then n % 2 else BitOf(n / 2, k - 1)
  }

  lemma {:induction false} XorBitsAt(a: nat, b: nat, bits: nat, k: nat)
    requires k < bits
    ensures BitOf(XorBits(a, b, bits), k) == if BitOf(a, k) == BitOf(b, k) then 0 else 1
  {
    var x := XorBits(a, b, bits);
    assert x / 2 == XorBits(a / 2, b / 2, bits - 1) && x % 2 == if a % 2 == b % 2 then 0 else 1;
    if k > 0 {
      XorBitsAt(a / 2, b / 2, bits - 1, k - 1);
    }
  }

  /** Each bit of the exclusive or tells whether the bits differ. */
  lemma XorAt(a: byte, b: byte, k: nat)
    requires k < 8
    ensures BitOf(Xor(a, b), k) == if BitOf(a, k) == BitOf(b, k) then 0 else 1
  {
    XorBitsAt(a, b, 8, k);
  }

  /** The nonce keeps four octets and folds the number, most significant octet first, into the other eight. */
  lemma NonceAt(iv: Vector, number: nat, i: nat)
    requires i < 12
    ensures Nonce(iv, number)[i]
            == if i < 4 then iv[i] else Xor(iv[i], Digit256(number, 11 - i))
  {
    if i >= 4 {
      BigEndianAt(number, 8, i - 4);
    }
  }

  // ----- frames -------------------------------------------------------------

  lemma SmallVarint(v: nat)
    requires v < 64
    ensures Number().show(v) == [v]
  {
  }

  /** What is sent for each kind of frame. */
  lemma FrameOctets(s: Frames.Sent)
    requires Frames.Sendable(s)
    ensures Frames.PrintFrame(Number(), s)
            == match s
               case SentStream(id, data, fin, protocol) =>
                 [0x10] + (Varint(id) + ([if fin then 0x0D else 0x0C] + ((Varint(|data|) + data)
                 + ((Varint(|protocol|) + protocol) + [0x00]))))
               case SentDatagram(context, data) => [0x28] + (Varint(context) + ([0x01] + (Varint(|data|) + data)))
               case SentAck(largest) => [0x08] + (Varint(largest) + ([0x00] + ([0x01] + [0x01])))
  {
    SmallVarint(0x10);
    SmallVarint(0x28);
    SmallVarint(0x08);
    SmallVarint(0);
    SmallVarint(1);
    assert [0x00] + [] == [0x00];
  }

  // ----- packets ------------------------------------------------------------

  /** Form and type, version 1, the two ids with their lengths, no token, and the length of what follows. */
  function HeaderOctets(first: byte, dcid: bytes, scid: bytes, size: nat): bytes
    requires |dcid| <= 20 && |scid| <= 20 && size <= MAX_VARINT
  {
    [first] + ([0, 0, 0, 1] + (([|dcid|] + dcid) + (([|scid|] + scid) + ([0x00] + Varint(size)))))
  }

  lemma LongHeaderOctets(kind: nat, dcid: bytes, scid: bytes, size: nat)
    requires |dcid| <= 20 && |scid| <= 20 && size <= MAX_VARINT && kind < 4
    ensures LongPackets.LongHeader(Number(), kind, dcid, scid, size)
            == Some(HeaderOctets(0x80 + 32 * kind, dcid, scid, size))
  {
    SmallVarint(0);
    assert BigEndian(1, 4) == [0, 0, 0, 1] by {
      assert BigEndian(0, 2) == [0, 0];
    }
  }

  lemma MaskBit(mask: HeaderMask)
    ensures FirstMask(mask) == 16 * BitOf(mask[4], 4)
  {
    var n := mask[4];
    assert n / 2 / 2 / 2 / 2 == n / 16;
    assert BitOf(n, 4) == BitOf(n / 2, 3) == BitOf(n / 2 / 2, 2) == BitOf(n / 2 / 2 / 2, 1);
    assert BitOf(n / 2 / 2 / 2, 1) == BitOf(n / 2 / 2 / 2 / 2, 0);
  }

  /** Bit 4 of the first octet is masked by that of the fifth mask octet, and the number by the first mask octet. */
  function Masked(c: Cipher, header: bytes, sealed: bytes, secret: bytes, number: byte): bytes
    requires header != []
  {
    var mask := c.mask(secret, sealed);
    [Xor(header[0], 16 * BitOf(mask[4], 4))] + (header[1..] + ([Xor(number, mask[0])] + sealed))
  }

  lemma MaskedExactly(c: Cipher, header: bytes, sealed: bytes, secret: bytes, number: byte)
    requires header != []
    ensures LongPackets.ProtectLong(c, header, sealed, secret, number) == Masked(c, header, sealed, secret, number)
  {
    MaskBit(c.mask(secret, sealed));
  }

  /** A Handshake packet. */
  lemma HandshakeOctets(c: Cipher, secret: bytes, dcid: bytes, scid: bytes, number: nat, payload: bytes)
    requires |dcid| <= 20 && |scid| <= 20 && |payload| + 17 <= MAX_VARINT && number < 256
    ensures var header := HeaderOctets(0xC0, dcid, scid, |payload| + 17);
            LongPackets.BuildHandshake(Number(), c, dcid, scid, number, payload, secret)
            == Some(Masked(c, header, c.seal(secret, number, header + [number], payload), secret, number))
  {
    LongHeaderOctets(2, dcid, scid, |payload| + 17);
    var header := HeaderOctets(0xC0, dcid, scid, |payload| + 17);
    MaskedExactly(c, header, c.seal(secret, number, header + [number], payload), secret, number);
  }

  /** An Initial packet around a padded payload; its length does not count the packet number. */
  lemma InitialOctets(c: Cipher, secret: bytes, dcid: bytes, scid: bytes, padded: bytes)
    requires |dcid| <= 20 && |scid| <= 20 && |padded| + 16 <= MAX_VARINT
    ensures var header := HeaderOctets(0x80, dcid, scid, |padded| + 16);
            LongPackets.SealInitial(Number(), c, secret, dcid, scid, padded)
            == Some(Masked(c, header, c.seal(secret, 0, header + [0], padded), secret, 0))
  {
    LongHeaderOctets(0, dcid, scid, |padded| + 16);
    var header := HeaderOctets(0x80, dcid, scid, |padded| + 16);
    MaskedExactly(c, header, c.seal(secret, 0, header + [0], padded), secret, 0);
  }

  lemma TwoOctets(number: nat)
    requires number < 65_536
    ensures BigEndian(number, 2) == [number / 256, number % 256]
  {
    assert BigEndian(number / 256, 1) == [number / 256 % 256];
  }

  /** The two octets of the number, each masked by its own octet of the mask. */
  function MaskedNumber(number: nat, mask: HeaderMask): bytes
    requires number < 65_536
  {
    [Xor(number / 256, mask[0]), Xor(number % 256, mask[1])]
  }

  /** A short packet: type 4, the id, the path and the masked number of two octets, and what was sealed. */
  lemma ShortPacketOctets(c: Cipher, secret: bytes, dcid: bytes, path: nat, number: nat, payload: bytes)
    requires path <= MAX_VARINT && number < 65_536
    ensures var body := dcid + Varint(path);
            var sealed := c.seal(secret, number, ([0x04] + body) + [number / 256, number % 256], payload);
            var mask := c.mask(secret, sealed);
            ShortPackets.Protect(Number(), c, secret, dcid, path, number, payload)
            == Some([Xor(0x04, 16 * BitOf(mask[4], 4))] + (body + (MaskedNumber(number, mask) + sealed)))
  {
    TwoOctets(number);
    var body, pn: bytes := dcid + Varint(path), [number / 256, number % 256];
    ShortBody(c, secret, body, pn, number, payload);
    var mask := c.mask(secret, c.seal(secret, number, ([0x04] + body) + pn, payload));
    assert XorSeq(pn, mask) == MaskedNumber(number, mask);
  }

  lemma ShortBody(c: Cipher, secret: bytes, body: bytes, pn: bytes, number: nat, payload: bytes)
    requires |pn| == 2
    ensures var sealed := c.seal(secret, number, ([0x04] + body) + pn, payload);
            var mask := c.mask(secret, sealed);
            ShortPackets.ProtectBody(c, secret, ShortPackets.FIRST, body, pn, number, payload)
            == [Xor(0x04, 16 * BitOf(mask[4], 4))] + (body + (XorSeq(pn, mask) + sealed))
  {
    MaskBit(c.mask(secret, c.seal(secret, number, ([0x04] + body) + pn, payload)));
  }

  // ----- the hello ----------------------------------------------------------

  /** A hello on the wire, for the digest of the capabilities and their minimum privacy. */
  lemma HelloOctets(hash: bytes -> bytes, random: bytes, ephemeral: bytes, privacy: bytes, retry: bytes)
    requires |random| == 32 && |ephemeral| == 32 && |privacy| <= 8 && |retry| <= 1024
    ensures var listed := Ascii("UMP-CAPABILITIES-v1") + [8]
                          + ClientHello.FieldList(Number(), [
                              Ascii("stream"), Ascii("datagram"), Ascii("relay"), Ascii("bundle"), Ascii("route"),
                              Ascii("mobility"), Ascii("privacy=p3")])
                          + ShowText(Number(), Ascii("privacy-min=") + privacy);
            ClientHello.Build(Number(), hash, random, ephemeral, [1], privacy, retry)
            == Some(([1] + (random + ephemeral))
                    + ((([1] + ([12] + Ascii("UMP-CRYPTO-1"))) + (([1] + ([2] + Ascii("XX"))) + ([1] + ([1] + []))))
                       + (hash(listed)
                          + ((Varint(|privacy|) + privacy) + (([0] + []) + ((Varint(|retry|) + retry)
                          + (([0] + []) + (Varint(64) + Zeros(64)))))))))
  {
    SmallVarint(1);
    SmallVarint(8);
    SmallVarint(12);
    SmallVarint(2);
    SmallVarint(0);
    var versions: seq<nat> := [1];
    assert versions[1..] == [];
    assert ClientHello.VersionList(Number(), versions) == [1] + [];
  }

  // ----- archives and storage keys ------------------------------------------

  /** An archive on disk. */
  lemma ArchiveOctets(members: seq<Row>)
    ensures Archive.Serialise(Fixed(4), Fixed(8), members)
            == (Ascii("UMC-BACKUP-ARCHIVE-v1") + [0]) + (BigEndian(|members|, 4) + MemberOctets(members))
  {
    MembersPrinted(members);
  }

  /** For each member the length of its path, the size of its data, the path and the data. */
  function MemberOctets(members: seq<Row>): bytes {
    if members == [] then [] else
    var front, m := members[..|members| - 1], members[|members| - 1];
    MemberOctets(front) + (BigEndian(|m.key|, 4) + (BigEndian(|m.value|, 8) + (m.key + m.value)))
  }

  lemma {:induction false} MembersPrinted(members: seq<Row>)
    ensures PrintMany(Archive.Member(Fixed(4), Fixed(8)), members) == MemberOctets(members)
  {
    if members != [] {
      MembersPrinted(members[..|members| - 1]);
    }
  }

  /** The storage key and the row of a stored answer. */
  lemma StoredOctets(v: IdempotencyStore.Vault, k: Idempotency.Key, number: nat, p: IdempotencyStore.Persisted)
    ensures IdempotencyStore.StorageKey(v, k)
            == Ascii("idempotency/")
               + v.hash((BigEndian(|k.scope|, 8) + k.scope) + ((BigEndian(|k.service|, 8) + k.service)
                        + ((BigEndian(|k.call|, 8) + k.call) + ((BigEndian(|k.key|, 8) + k.key) + []))))
    ensures var key := IdempotencyStore.StorageKey(v, k);
            IdempotencyStore.SealedRow(v, key, number, p)
            == BigEndian(number, 8) + v.seal(number, Ascii("UMC-IDEMPOTENCY-V1") + key, v.encode(p))
  {
    var a: seq<bytes>, b: seq<bytes>, c: seq<bytes> := [k.service, k.call, k.key], [k.call, k.key], [k.key];
    assert IdempotencyStore.Parts(k)[1..] == a && a[1..] == b && b[1..] == c && |c[1..]| == 0;
    assert IdempotencyStore.Framed(c) == BigEndian(|k.key|, 8) + k.key + [];
    assert IdempotencyStore.Framed(b) == BigEndian(|k.call|, 8) + k.call + IdempotencyStore.Framed(c);
    assert IdempotencyStore.Framed(a) == BigEndian(|k.service|, 8) + k.service + IdempotencyStore.Framed(b);
  }

  function Digit10(n: nat, k: nat): (r: nat)
    ensures r < 10
  {
    if k == 0 then n % 10 else Digit10(n / 10, k - 1)
  }

  lemma {:induction false} DigitsAt(n: nat, width: nat, i: nat)
    requires i < width
    ensures DecimalKeys.Digits(n, width)[i] == 0x30 + Digit10(n, width - 1 - i)
  {
    if i < width - 1 {
      DigitsAt(n / 10, width - 1, i);
    }
  }

  /** The key of an event row is its number in twenty decimal digits, the most significant first. */
  lemma EventKeyAt(n: nat, i: nat)
    requires i < 20
    ensures |DecimalKeys.Key(n)| == 20 && DecimalKeys.Key(n)[i] == 0x30 + Digit10(n, 19 - i)
  {
    DigitsAt(n, 20, i);
  }

  /** A stream handle is its counter value and then the next one, each as eight octets. */
  lemma HandleAt(id: nat, i: nat)
    requires i < 8
    ensures DataPlane.HandleOf(id)[i] == Digit256(id, 7 - i)
    ensures DataPlane.HandleOf(id)[8 + i] == Digit256(if id < U64_MAX then id + 1 else id, 7 - i)
  {
    BigEndianAt(id, 8, i);
    BigEndianAt(SaturatingIncrement(id), 8, i);
  }

  /** Sealing uses the key, the vector and the number of the packet; the mask is that of the first 16 octets sealed. */
  lemma CipherParts(s: Suite, secret: bytes, number: nat, aad: bytes, plaintext: bytes, ciphertext: bytes)
    requires |ciphertext| >= 16
    ensures CipherOf(s).seal(secret, number, aad, plaintext)
            == s.seal(s.packetKey(secret), Nonce(s.packetIv(secret), number), aad, plaintext)
    ensures CipherOf(s).mask(secret, ciphertext) == s.mask(s.headerKey(secret), ciphertext[..16])
  {
    assert Slice(ciphertext, 0, 16) == ciphertext[..16];
  }
}
