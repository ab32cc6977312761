/** Protected Initial and Handshake packets: header, protection, parsing and padding. */
module LongPackets {
  import opened Bytes
  import opened Wire
  import opened Codecs
  import opened PacketProtection

  const PROTOCOL_VERSION: nat := 1
  const LEAST_INITIAL: nat := 1200

  // ----- building -----------------------------------------------------------

  /** The connection ids, the empty token and the payload length. */
  function LongFields(n: Codec<nat>, dcid: bytes, scid: bytes, payload: nat): bytes
    requires |dcid| <= 20 && |scid| <= 20
  {
    ([|dcid|] + dcid) + (([|scid|] + scid) + (n.show(0) + n.show(payload)))
  }

  function LongHeader(n: Codec<nat>, kind: nat, dcid: bytes, scid: bytes, payload: nat): Option<bytes> {
    if |dcid| > 20 || |scid| > 20 || payload > MAX_VARINT then None
    else Some([0x80 + kind % 4 * 32] + (BigEndian(PROTOCOL_VERSION, 4) + LongFields(n, dcid, scid, payload)))
  }

  function ProtectLong(c: Cipher, header: bytes, ciphertext: bytes, secret: bytes, number: byte): bytes
    requires header != []
  {
    var mask := c.mask(secret, ciphertext);
    [Xor(header[0], FirstMask(mask))] + (header[1..] + ([Xor(number, mask[0])] + ciphertext))
  }

  /** A packet number that does not fit one octet is an error. */
  function BuildHandshake(
    n: Codec<nat>, c: Cipher, dcid: bytes, scid: bytes, number: nat, payload: bytes, secret: bytes): Option<bytes>
  {
    var header :- LongHeader(n, 2, dcid, scid, 1 + |payload| + 16);
    if number >= 256 then None
    else Some(ProtectLong(c, header, c.seal(secret, number, header + [number], payload), secret, number))
  }

  /** An Initial packet around a payload that is padded already. */
  function SealInitial(n: Codec<nat>, c: Cipher, secret: bytes, dcid: bytes, scid: bytes, padded: bytes): Option<bytes>
  {
    var header :- LongHeader(n, 0, dcid, scid, |padded| + 16);
    Some(ProtectLong(c, header, c.seal(secret, 0, header + [0], padded), secret, 0))
  }

  // ----- parsing ------------------------------------------------------------

  /** The connection ids, the token and the payload length. */
  type Fields = (bytes, (bytes, (bytes, nat)))

  /** From the destination connection id to the payload length; the token is passed over. */
  function FieldsCodec(n: Codec<nat>): Codec<Fields> {
    Pair(Clamped(Small()), Pair(Clamped(Small()), Pair(Clamped(n), n)))
  }

  function ParseLong(n: Codec<nat>, c: Cipher, packet: bytes, secret: bytes, withNumber: bool)
    : Option<(bytes, bytes, bytes)>
  {
    ParseWith(FieldsCodec(n), c, packet, secret, withNumber)
  }

  /** Parsing, given how the header fields are read. */
  function ParseWith(f: Codec<Fields>, c: Cipher, packet: bytes, secret: bytes, withNumber: bool)
    : Option<(bytes, bytes, bytes)>
  {
    if |packet| < 20 || packet[0] < 128 then None else
    var (fields, offset) :- f.read(packet, 5);
    var payload := fields.1.1.1;
    if withNumber && payload < 1 then None else
    var size := if withNumber then payload - 1 else payload;
    OpenLong(c, packet, secret, fields.0, fields.1.0, offset, size)
  }

  /** Unmasking the header and opening the payload, once the packet number's place is known. */
  function OpenLong(c: Cipher, packet: bytes, secret: bytes, dcid: bytes, scid: bytes, offset: nat, size: nat)
    : Option<(bytes, bytes, bytes)>
  {
    var ciphertext := Slice(packet, offset + 1, offset + 1 + size);
    if |ciphertext| != size || offset + 1 + size != |packet| then None else
    var mask := c.mask(secret, ciphertext);
    var first := Xor(packet[0], FirstMask(mask));
    var number := Xor(packet[offset], mask[0]);
    var aad := packet[..offset + 1][0 := first][offset := number];
    var plaintext :- c.unseal(secret, number, aad, ciphertext);
    Some((dcid, scid, plaintext))
  }

  // ----- the layout of a packet ---------------------------------------------

  lemma FieldsExact(n: Codec<nat>)
    requires Exact(n)
    ensures Exact(FieldsCodec(n))
  {
    SmallExact();
    ClampedExact(Small());
    ClampedExact(n);
    PairExact(Clamped(n), n);
    PairExact(Clamped(Small()), Pair(Clamped(n), n));
    PairExact(Clamped(Small()), Pair(Clamped(Small()), Pair(Clamped(n), n)));
  }

  lemma FieldsPrinted(n: Codec<nat>, dcid: bytes, scid: bytes, payload: nat)
    requires |dcid| <= 20 && |scid| <= 20
    ensures |LongFields(n, dcid, scid, payload)| >= 2
    ensures LongFields(n, dcid, scid, payload) == FieldsCodec(n).show((dcid, (scid, ([], payload))))
  {
    assert n.show(0) + [] == n.show(0);
  }

  /** Where the parts of a protected packet are. */
  lemma PacketLayout(first: byte, body: bytes, number: byte, ciphertext: bytes)
    ensures var packet := [first] + (body + ([number] + ciphertext));
            var o := 1 + |body|;
            |packet| == o + 1 + |ciphertext| && packet[0] == first && packet[o] == number
            && At(packet, 1, body) && Slice(packet, o + 1, o + 1 + |ciphertext|) == ciphertext
            && packet[..o + 1] == ([first] + body) + [number]
  {
    var packet := [first] + (body + ([number] + ciphertext));
    var o := 1 + |body|;
    assert packet == (([first] + body) + [number]) + ciphertext;
    assert packet[1..o] == body;
  }

  lemma ReplaceEnds(a: byte, b: byte, body: bytes, x: byte, y: byte)
    ensures (([a] + body) + [b])[0 := x][1 + |body| := y] == ([x] + body) + [y]
  {
  }

  /** Opening a packet unmasks its first octet and its packet number. */
  lemma OpenMasked(
    c: Cipher, first: byte, body: bytes, number: byte, ciphertext: bytes, secret: bytes, dcid: bytes, scid: bytes,
    plain: byte, unmasked: byte)
    requires Sound(c)
    requires plain == Xor(first, FirstMask(c.mask(secret, ciphertext)))
    requires unmasked == Xor(number, c.mask(secret, ciphertext)[0])
    ensures OpenLong(c, [first] + (body + ([number] + ciphertext)), secret, dcid, scid, 1 + |body|, |ciphertext|)
            == match c.unseal(secret, unmasked, ([plain] + body) + [unmasked], ciphertext)
               case Some(plaintext) => Some((dcid, scid, plaintext))
               case None => None
  {
    PacketLayout(first, body, number, ciphertext);
    ReplaceEnds(first, number, body, plain, unmasked);
  }

  /** A packet around `plaintext` whose header is `first` followed by `body`. */
  function Protected(c: Cipher, first: byte, body: bytes, plaintext: bytes, secret: bytes, number: byte): bytes
  {
    var header := [first] + body;
    ProtectLong(c, header, c.seal(secret, number, header + [number], plaintext), secret, number)
  }

  /** The masked first octet and packet number of such a packet, and what is sealed in it. */
  lemma ProtectedForm(c: Cipher, first: byte, body: bytes, plaintext: bytes, secret: bytes, number: byte)
    returns (ciphertext: bytes, maskedFirst: byte, maskedNumber: byte)
    requires Sound(c)
    ensures Protected(c, first, body, plaintext, secret, number)
            == [maskedFirst] + (body + ([maskedNumber] + ciphertext))
    ensures |ciphertext| == |plaintext| + 16
    ensures c.unseal(secret, number, ([first] + body) + [number], ciphertext) == Some(plaintext)
    ensures first == Xor(maskedFirst, FirstMask(c.mask(secret, ciphertext)))
    ensures number == Xor(maskedNumber, c.mask(secret, ciphertext)[0])
    ensures first >= 128 ==> maskedFirst >= 128
  {
    var header := [first] + body;
    ciphertext := c.seal(secret, number, header + [number], plaintext);
    var mask := c.mask(secret, ciphertext);
    maskedFirst, maskedNumber := Xor(first, FirstMask(mask)), Xor(number, mask[0]);
    XorUndo(first, FirstMask(mask));
    XorUndo(number, mask[0]);
    assert header[1..] == body;
    if first >= 128 {
      FormBitKept(first, FirstMask(mask));
    }
  }

  lemma FieldsPlace(first: byte, version: bytes, fields: bytes, number: byte, ciphertext: bytes)
    requires |version| == 4
    ensures var packet := [first] + ((version + fields) + ([number] + ciphertext));
            |packet| == 6 + |fields| + |ciphertext| && packet[0] == first && At(packet, 5, fields)
  {
    var packet := [first] + ((version + fields) + ([number] + ciphertext));
    PacketLayout(first, version + fields, number, ciphertext);
    AtSplit(packet, 1, version, fields);
  }

  /** Parsing reads the header fields and leaves the packet number and the ciphertext to opening. */
  lemma ParseMasked(
    f: Codec<Fields>, c: Cipher, packet: bytes, v: Fields, size: nat, secret: bytes, withNumber: bool)
    requires Exact(f) && f.fits(v) && At(packet, 5, f.show(v)) && |packet| >= 20 && packet[0] >= 128
    requires v.1.1.1 == if withNumber then size + 1 else size
    ensures ParseWith(f, c, packet, secret, withNumber)
            == OpenLong(c, packet, secret, v.0, v.1.0, 5 + |f.show(v)|, size)
  {
    assert Stands(f, packet, 5, v, 5 + |f.show(v)|);
    assert Reads(f, packet, 5, v, 5 + |f.show(v)|);
  }

  /** Parsing a protected packet returns its connection ids and what was sealed in it. */
  lemma ParseProtected(
    f: Codec<Fields>, c: Cipher, first: byte, version: bytes, v: Fields, plaintext: bytes, secret: bytes,
    number: byte, withNumber: bool)
    requires Exact(f) && f.fits(v) && Sound(c) && |version| == 4 && first >= 128
    requires v.1.1.1 == if withNumber then |plaintext| + 17 else |plaintext| + 16
    ensures ParseWith(f, c, Protected(c, first, version + f.show(v), plaintext, secret, number), secret, withNumber)
            == Some((v.0, v.1.0, plaintext))
  {
    var fields := f.show(v);
    var ciphertext, maskedFirst, maskedNumber := ProtectedForm(c, first, version + fields, plaintext, secret, number);
    FieldsPlace(maskedFirst, version, fields, maskedNumber, ciphertext);
    var packet := [maskedFirst] + ((version + fields) + ([maskedNumber] + ciphertext));
    ParseMasked(f, c, packet, v, |ciphertext|, secret, withNumber);
    OpenMasked(c, maskedFirst, version + fields, maskedNumber, ciphertext, secret, v.0, v.1.0, first, number);
  }

  // ----- round trips --------------------------------------------------------

  lemma FieldsFit(n: Codec<nat>, dcid: bytes, scid: bytes, payload: nat)
    requires Numeric(n) && |dcid| <= 20 && |scid| <= 20 && payload <= MAX_VARINT
    ensures FieldsCodec(n).fits((dcid, (scid, ([], payload))))
  {
    assert n.fits(0) && n.fits(payload);
  }

  lemma LongHeaderForm(n: Codec<nat>, kind: nat, dcid: bytes, scid: bytes, payload: nat, first: byte)
    requires |dcid| <= 20 && |scid| <= 20 && first == 0x80 + kind % 4 * 32
    ensures payload <= MAX_VARINT ==>
              LongHeader(n, kind, dcid, scid, payload)
              == Some([first] + (BigEndian(PROTOCOL_VERSION, 4) + LongFields(n, dcid, scid, payload)))
  {
  }

  lemma ParseBuilt(
    n: Codec<nat>, c: Cipher, first: byte, dcid: bytes, scid: bytes, payload: nat, plaintext: bytes, secret: bytes,
    number: byte, withNumber: bool)
    requires Numeric(n) && Sound(c) && first >= 128 && |dcid| <= 20 && |scid| <= 20 && payload <= MAX_VARINT
    requires payload == if withNumber then |plaintext| + 17 else |plaintext| + 16
    ensures var body := BigEndian(PROTOCOL_VERSION, 4) + LongFields(n, dcid, scid, payload);
            ParseLong(n, c, Protected(c, first, body, plaintext, secret, number), secret, withNumber)
            == Some((dcid, scid, plaintext))
  {
    var v := (dcid, (scid, ([], payload)));
    FieldsExact(n);
    FieldsFit(n, dcid, scid, payload);
    FieldsPrinted(n, dcid, scid, payload);
    ParseProtected(FieldsCodec(n), c, first, BigEndian(PROTOCOL_VERSION, 4), v, plaintext, secret, number, withNumber);
  }

  /** A built Handshake packet parses to its connection ids and payload; building fails only on its bounds. */
  lemma HandshakeRoundTrip(
    n: Codec<nat>, c: Cipher, dcid: bytes, scid: bytes, number: nat, payload: bytes, secret: bytes)
    requires Numeric(n) && Sound(c)
    ensures var packet := BuildHandshake(n, c, dcid, scid, number, payload, secret);
            (packet.Some? <==> |dcid| <= 20 && |scid| <= 20 && number < 256 && |payload| + 17 <= MAX_VARINT)
            && (packet.Some? ==> ParseLong(n, c, packet.value, secret, true) == Some((dcid, scid, payload)))
  {
    if BuildHandshake(n, c, dcid, scid, number, payload, secret).Some? {
      LongHeaderForm(n, 2, dcid, scid, 1 + |payload| + 16, 0xC0);
      ParseBuilt(n, c, 0xC0, dcid, scid, 1 + |payload| + 16, payload, secret, number, true);
    }
  }

  lemma InitialRoundTrip(n: Codec<nat>, c: Cipher, secret: bytes, dcid: bytes, scid: bytes, padded: bytes)
    requires Numeric(n) && Sound(c)
    ensures var packet := SealInitial(n, c, secret, dcid, scid, padded);
            (packet.Some? <==> |dcid| <= 20 && |scid| <= 20 && |padded| + 16 <= MAX_VARINT)
            && (packet.Some? ==>
                  ParseLong(n, c, packet.value, secret, false) == Some((dcid, scid, padded)))
  {
    if SealInitial(n, c, secret, dcid, scid, padded).Some? {
      LongHeaderForm(n, 0, dcid, scid, |padded| + 16, 0x80);
      ParseBuilt(n, c, 0x80, dcid, scid, |padded| + 16, padded, secret, 0, false);
    }
  }

  // ----- padding an Initial packet ------------------------------------------

  function Width(v: nat): nat {
    if v <= 63 then 1 else if v <= 16_383 then 2 else if v <= 1_073_741_823 then 4 else 8
  }

  /** The length of an Initial packet around a payload of `size` octets. */
  function InitialLength(dcid: bytes, scid: bytes, size: nat): nat {
    8 + |dcid| + |scid| + Width(size + 16) + 1 + size + 16
  }

  lemma LongHeaderLength(kind: nat, dcid: bytes, scid: bytes, payload: nat)
    ensures var header := LongHeader(Number(), kind, dcid, scid, payload);
            header.Some? ==> |header.value| == 8 + |dcid| + |scid| + Width(payload)
  {
    if payload <= MAX_VARINT {
      var width := VarintWidth(payload);
    }
  }

  lemma SealInitialLength(c: Cipher, secret: bytes, dcid: bytes, scid: bytes, padded: bytes)
    requires Sound(c)
    ensures var packet := SealInitial(Number(), c, secret, dcid, scid, padded);
            packet.Some? ==> |packet.value| == InitialLength(dcid, scid, |padded|)
  {
    LongHeaderLength(0, dcid, scid, |padded| + 16);
  }

  lemma FinishInitial(c: Cipher, secret: bytes, dcid: bytes, scid: bytes, padded: bytes)
    requires Sound(c) && |dcid| <= 20 && |scid| <= 20 && |padded| + 16 <= MAX_VARINT
    ensures var packet := SealInitial(Number(), c, secret, dcid, scid, padded);
            packet.Some? && |packet.value| == InitialLength(dcid, scid, |padded|)
            && ParseLong(Number(), c, packet.value, secret, false) == Some((dcid, scid, padded))
  {
    SealInitialLength(c, secret, dcid, scid, padded);
    NumberNumeric();
    InitialRoundTrip(Number(), c, secret, dcid, scid, padded);
  }

  /** The first padded length that reaches 1200 is 1200. */
  lemma NoLengthSkipped(dcid: bytes, scid: bytes, size: nat, zeros: nat)
    requires |dcid| <= 20 && |scid| <= 20 && InitialLength(dcid, scid, size + zeros) >= LEAST_INITIAL
    requires zeros > 0 ==> InitialLength(dcid, scid, size + zeros - 1) < LEAST_INITIAL
    ensures InitialLength(dcid, scid, size) >= LEAST_INITIAL <==> zeros == 0
    ensures zeros > 0 ==> InitialLength(dcid, scid, size + zeros) == LEAST_INITIAL
  {
  }

  /**
   One zero octet at a time until the packet has 1200 octets. The length field
   grows by an octet on the way for short payloads, and still 1200 is not skipped.
   */
  method BuildInitial(c: Cipher, initialSecret: bytes -> bytes, dcid: bytes, scid: bytes, payload: bytes)
    returns (packet: Option<bytes>, zeros: nat)
    requires Sound(c)
    ensures packet.Some? <==> |dcid| <= 20 && |scid| <= 20 && |payload| + 16 <= MAX_VARINT
    ensures packet.Some? ==>
              var unpadded := InitialLength(dcid, scid, |payload|);
              |packet.value| == if unpadded < LEAST_INITIAL then LEAST_INITIAL else unpadded
    ensures packet.Some? ==>
              ParseLong(Number(), c, packet.value, initialSecret(dcid), false)
              == Some((dcid, scid, payload + Zeros(zeros)))
    ensures packet.Some? && InitialLength(dcid, scid, |payload|) >= LEAST_INITIAL ==> zeros == 0
  {
    zeros := 0;
    var padded := payload;
    while true
      invariant padded == payload + Zeros(zeros)
      invariant zeros > 0 ==> |dcid| <= 20 && |scid| <= 20 && |padded| + 15 <= MAX_VARINT
      invariant zeros > 0 ==> InitialLength(dcid, scid, |padded| - 1) < LEAST_INITIAL
      decreases SaturatingSub(LEAST_INITIAL, |padded|)
    {
      var header := LongHeader(Number(), 0, dcid, scid, |padded| + 16);
      LongHeaderLength(0, dcid, scid, |padded| + 16);
      if header.None? {
        return None, zeros;
      }
      if |header.value| + 1 + |padded| + 16 >= LEAST_INITIAL {
        var secret := initialSecret(dcid);
        packet := SealInitial(Number(), c, secret, dcid, scid, padded);
        FinishInitial(c, secret, dcid, scid, padded);
        NoLengthSkipped(dcid, scid, |payload|, zeros);
        return;
      }
      padded := padded + [0];
      zeros := zeros + 1;
    }
  }
}
