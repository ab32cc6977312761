/**
 Building and parsing the ClientHello of the UMP/1 handshake. Every function
 takes the codec `n` of numbers; `Codecs.Number()` is the one on the wire.
 */
module ClientHello {
  import opened Bytes
  import opened Wire
  import opened Codecs

  const PROTOCOL_VERSION: nat := 1
  const CRYPTO_PROFILE: bytes := Ascii("UMP-CRYPTO-1")
  const MODE_XX: bytes := Ascii("XX")

  datatype Hello = Hello(
    version: nat, random: bytes, ephemeral: bytes, profiles: seq<bytes>, modes: seq<bytes>, versions: seq<nat>,
    capabilities: bytes, privacy: bytes, hint: bytes, retry: bytes, invitation: bytes, padding: bytes)

  // ----- building -----------------------------------------------------------

  const CAPABILITY_IDS: seq<bytes> := [
    Ascii("stream"), Ascii("datagram"), Ascii("relay"), Ascii("bundle"), Ascii("route"), Ascii("mobility"),
    Ascii("privacy=p3")]

  function FieldList(n: Codec<nat>, values: seq<bytes>): bytes {
    if values == [] then [] else ShowText(n, values[0]) + FieldList(n, values[1..])
  }

  /** The digest of the capability list; `hash` is the 32-octet digest. */
  function CapabilitiesHash(n: Codec<nat>, hash: bytes -> bytes, privacy: bytes): Option<bytes> {
    var least := Ascii("privacy-min=") + privacy;
    if |least| > 64 then None
    else Some(hash(Ascii("UMP-CAPABILITIES-v1") + n.show(8) + FieldList(n, CAPABILITY_IDS) + ShowText(n, least)))
  }

  /** The arguments that building accepts. */
  predicate Buildable(random: bytes, ephemeral: bytes, versions: seq<nat>, privacy: bytes, retry: bytes) {
    |random| == 32 && |ephemeral| == 32 && |versions| <= MAX_VARINT
    && (forall i :: 0 <= i < |versions| ==> versions[i] <= MAX_VARINT)
    && |privacy| <= 8 && |retry| <= 1024
  }

  function VersionList(n: Codec<nat>, versions: seq<nat>): bytes {
    if versions == [] then [] else n.show(versions[0]) + VersionList(n, versions[1..])
  }

  function Build(
    n: Codec<nat>, hash: bytes -> bytes, random: bytes, ephemeral: bytes, versions: seq<nat>, privacy: bytes,
    retry: bytes)
    : Option<bytes>
  {
    if !Buildable(random, ephemeral, versions, privacy, retry) then None else
    var capabilities :- CapabilitiesHash(n, hash, privacy);
    Some(Opening(n, random, ephemeral) + (Lists(n, versions) + Closing(n, capabilities, privacy, retry)))
  }

  function Opening(n: Codec<nat>, random: bytes, ephemeral: bytes): bytes {
    n.show(PROTOCOL_VERSION) + (random + ephemeral)
  }

  function Lists(n: Codec<nat>, versions: seq<nat>): bytes {
    (n.show(1) + ShowText(n, CRYPTO_PROFILE))
    + ((n.show(1) + ShowText(n, MODE_XX)) + (n.show(|versions|) + VersionList(n, versions)))
  }

  function Closing(n: Codec<nat>, capabilities: bytes, privacy: bytes, retry: bytes): bytes {
    capabilities
    + (ShowText(n, privacy) + (ShowText(n, []) + (ShowText(n, retry) + (ShowText(n, []) + ShowText(n, Zeros(64))))))
  }

  // ----- parsing ------------------------------------------------------------

  type Head = (nat, (bytes, bytes))
  type Offers = (seq<bytes>, (seq<bytes>, seq<nat>))
  type Trailer = (bytes, (bytes, (bytes, (bytes, (bytes, bytes)))))

  /** Version, random and ephemeral key. */
  function HeadCodec(n: Codec<nat>): Codec<Head> {
    Pair(n, Pair(Octets(32), Octets(32)))
  }

  /** Crypto profiles, handshake modes and protocol versions. */
  function OffersCodec(n: Codec<nat>): Codec<Offers> {
    Pair(Counted(n, Text(n, 64)), Pair(Counted(n, Text(n, 64)), Counted(n, n)))
  }

  /** Capability digest, minimum privacy, destination hint, retry token, invitation and padding. */
  function TrailerCodec(n: Codec<nat>): Codec<Trailer> {
    Pair(Octets(32),
         Pair(Text(n, 8), Pair(Text(n, 512), Pair(Text(n, 1024), Pair(Text(n, 64), Text(n, 4096))))))
  }

  function HelloCodec(n: Codec<nat>): Codec<(Head, (Offers, Trailer))> {
    Pair(HeadCodec(n), Pair(OffersCodec(n), TrailerCodec(n)))
  }

  function FromParts(p: (Head, (Offers, Trailer))): Hello {
    var (head, offers, t) := (p.0, p.1.0, p.1.1);
    var (u, w) := (t.1, t.1.1.1);
    Hello(head.0, head.1.0, head.1.1, offers.0, offers.1.0, offers.1.1, t.0, u.0, u.1.0, w.0, w.1.0, w.1.1)
  }

  function Parts(h: Hello): (Head, (Offers, Trailer)) {
    ((h.version, (h.random, h.ephemeral)),
     ((h.profiles, (h.modes, h.versions)),
      (h.capabilities, (h.privacy, (h.hint, (h.retry, (h.invitation, h.padding)))))))
  }

  function Parse(n: Codec<nat>, data: bytes): Option<Hello> {
    var p :- ReadWhole(HelloCodec(n), data);
    Some(FromParts(p))
  }

  // ----- parsing accepts exactly the printed hellos -------------------------

  lemma HeadExact(n: Codec<nat>)
    requires Exact(n)
    ensures Exact(HeadCodec(n))
  {
    OctetsExact(32);
    PairExact(Octets(32), Octets(32));
    PairExact(n, Pair(Octets(32), Octets(32)));
  }

  lemma OffersExact(n: Codec<nat>)
    requires Exact(n)
    ensures Exact(OffersCodec(n))
  {
    TextExact(n, 64);
    var texts, numbers := Counted(n, Text(n, 64)), Counted(n, n);
    CountedExact(n, Text(n, 64));
    CountedExact(n, n);
    PairExact(texts, numbers);
    PairExact(texts, Pair(texts, numbers));
  }

  lemma TrailerExact(n: Codec<nat>)
    requires Exact(n)
    ensures Exact(TrailerCodec(n))
  {
    OctetsExact(32);
    TextExact(n, 8);
    TextExact(n, 512);
    TextExact(n, 1024);
    TextExact(n, 64);
    TextExact(n, 4096);
    var c := Pair(Text(n, 64), Text(n, 4096));
    PairExact(Text(n, 64), Text(n, 4096));
    PairExact(Text(n, 1024), c);
    PairExact(Text(n, 512), Pair(Text(n, 1024), c));
    PairExact(Text(n, 8), Pair(Text(n, 512), Pair(Text(n, 1024), c)));
    PairExact(Octets(32), Pair(Text(n, 8), Pair(Text(n, 512), Pair(Text(n, 1024), c))));
  }

  lemma HelloExact(n: Codec<nat>)
    requires Exact(n)
    ensures Exact(HelloCodec(n))
  {
    HeadExact(n);
    OffersExact(n);
    TrailerExact(n);
    PairExact(OffersCodec(n), TrailerCodec(n));
    PairExact(HeadCodec(n), Pair(OffersCodec(n), TrailerCodec(n)));
  }

  predicate SmallTexts(texts: seq<bytes>) {
    |texts| <= MAX_VARINT && forall i :: 0 <= i < |texts| ==> |texts[i]| <= 64
  }

  predicate SmallNumbers(numbers: seq<nat>) {
    |numbers| <= MAX_VARINT && forall i :: 0 <= i < |numbers| ==> numbers[i] <= MAX_VARINT
  }

  /** The bounds of the fields of a hello on the wire. */
  predicate Bounded(h: Hello) {
    && h.version <= MAX_VARINT && |h.random| == 32 && |h.ephemeral| == 32
    && SmallTexts(h.profiles) && SmallTexts(h.modes) && SmallNumbers(h.versions)
    && |h.capabilities| == 32 && |h.privacy| <= 8 && |h.hint| <= 512 && |h.retry| <= 1024
    && |h.invitation| <= 64 && |h.padding| <= 4096
  }

  lemma TextsFit(n: Codec<nat>, texts: seq<bytes>)
    requires Numeric(n)
    ensures Counted(n, Text(n, 64)).fits(texts) <==> SmallTexts(texts)
  {
    if SmallTexts(texts) {
      assert n.fits(|texts|);
      forall i | 0 <= i < |texts| ensures Text(n, 64).fits(texts[i]) {
        assert n.fits(|texts[i]|);
      }
    }
    if Counted(n, Text(n, 64)).fits(texts) {
      assert AllFit(Text(n, 64), texts);
      forall i | 0 <= i < |texts| ensures |texts[i]| <= 64 {
        assert Text(n, 64).fits(texts[i]);
      }
    }
  }

  lemma NumbersFit(n: Codec<nat>, numbers: seq<nat>)
    requires Numeric(n)
    ensures Counted(n, n).fits(numbers) <==> SmallNumbers(numbers)
  {
    assert n.fits(|numbers|) <==> |numbers| <= MAX_VARINT;
    assert forall i :: 0 <= i < |numbers| ==> (n.fits(numbers[i]) <==> numbers[i] <= MAX_VARINT);
  }

  lemma TextFits(n: Codec<nat>, limit: nat, text: bytes)
    requires Numeric(n) && limit <= 4096
    ensures Text(n, limit).fits(text) <==> |text| <= limit
  {
    assert |text| <= limit ==> n.fits(|text|);
  }

  lemma TrailerFits(n: Codec<nat>, t: Trailer)
    requires Numeric(n)
    ensures TrailerCodec(n).fits(t)
            <==> |t.0| == 32 && |t.1.0| <= 8 && |t.1.1.0| <= 512 && |t.1.1.1.0| <= 1024
                 && |t.1.1.1.1.0| <= 64 && |t.1.1.1.1.1| <= 4096
  {
    TextFits(n, 8, t.1.0);
    TextFits(n, 512, t.1.1.0);
    TextFits(n, 1024, t.1.1.1.0);
    TextFits(n, 64, t.1.1.1.1.0);
    TextFits(n, 4096, t.1.1.1.1.1);
  }

  lemma OffersFit(n: Codec<nat>, o: Offers)
    requires Numeric(n)
    ensures OffersCodec(n).fits(o) <==> SmallTexts(o.0) && SmallTexts(o.1.0) && SmallNumbers(o.1.1)
  {
    TextsFit(n, o.0);
    TextsFit(n, o.1.0);
    NumbersFit(n, o.1.1);
  }

  lemma BoundedIsFits(n: Codec<nat>, h: Hello)
    requires Numeric(n)
    ensures HelloCodec(n).fits(Parts(h)) <==> Bounded(h)
  {
    var p := Parts(h);
    OffersFit(n, p.1.0);
    TrailerFits(n, p.1.1);
    assert HeadCodec(n).fits(p.0) <==> h.version <= MAX_VARINT && |h.random| == 32 && |h.ephemeral| == 32;
  }

  /** The octets of a hello. */
  function Print(n: Codec<nat>, h: Hello): bytes {
    HelloCodec(n).show(Parts(h))
  }

  /** Parsing accepts an input, with nothing left over, exactly when it is the printed form of the result. */
  lemma ParseExact(n: Codec<nat>, data: bytes, h: Hello)
    requires Numeric(n)
    ensures Parse(n, data) == Some(h) <==> Bounded(h) && data == Print(n, h)
  {
    HelloExact(n);
    BoundedIsFits(n, h);
    WholeExact(HelloCodec(n), data, Parts(h));
    if Parse(n, data) == Some(h) {
      var p := ReadWhole(HelloCodec(n), data).value;
      assert Parts(FromParts(p)) == p;
    }
  }

  // ----- what building prints -----------------------------------------------

  lemma {:induction false} VersionListPush(n: Codec<nat>, versions: seq<nat>, v: nat)
    ensures VersionList(n, versions + [v]) == VersionList(n, versions) + n.show(v)
  {
    if versions == [] {
      assert [] + [v] == [v] && [v][1..] == [];
    } else {
      assert (versions + [v])[1..] == versions[1..] + [v];
      VersionListPush(n, versions[1..], v);
    }
  }

  lemma {:induction false} VersionListIsMany(n: Codec<nat>, versions: seq<nat>)
    ensures VersionList(n, versions) == PrintMany(n, versions)
  {
    if versions != [] {
      var front, last := versions[..|versions| - 1], versions[|versions| - 1];
      assert versions == front + [last];
      VersionListIsMany(n, front);
      VersionListPush(n, front, last);
    }
  }

  lemma OneText(n: Codec<nat>, value: bytes)
    ensures PrintMany(Text(n, 64), [value]) == ShowText(n, value)
  {
    assert [value][..0] == [];
    assert PrintMany(Text(n, 64), []) == [];
  }

  lemma ListsPrinted(n: Codec<nat>, versions: seq<nat>)
    ensures Lists(n, versions) == OffersCodec(n).show(([CRYPTO_PROFILE], ([MODE_XX], versions)))
  {
    OneText(n, CRYPTO_PROFILE);
    OneText(n, MODE_XX);
    VersionListIsMany(n, versions);
  }

  lemma ClosingPrinted(n: Codec<nat>, capabilities: bytes, privacy: bytes, retry: bytes)
    ensures Closing(n, capabilities, privacy, retry)
            == TrailerCodec(n).show((capabilities, (privacy, ([], (retry, ([], Zeros(64)))))))
  {
  }

  /** The hello that building describes. */
  function Built(random: bytes, ephemeral: bytes, versions: seq<nat>, capabilities: bytes, privacy: bytes, retry: bytes)
    : Hello
  {
    Hello(PROTOCOL_VERSION, random, ephemeral, [CRYPTO_PROFILE], [MODE_XX], versions, capabilities, privacy, [], retry,
          [], Zeros(64))
  }

  lemma BuiltPrinted(
    n: Codec<nat>, random: bytes, ephemeral: bytes, versions: seq<nat>, capabilities: bytes, privacy: bytes,
    retry: bytes)
    ensures Print(n, Built(random, ephemeral, versions, capabilities, privacy, retry))
            == Opening(n, random, ephemeral) + (Lists(n, versions) + Closing(n, capabilities, privacy, retry))
  {
    ListsPrinted(n, versions);
    ClosingPrinted(n, capabilities, privacy, retry);
  }

  lemma BuiltBounded(
    random: bytes, ephemeral: bytes, versions: seq<nat>, capabilities: bytes, privacy: bytes, retry: bytes)
    requires Buildable(random, ephemeral, versions, privacy, retry) && |capabilities| == 32
    ensures Bounded(Built(random, ephemeral, versions, capabilities, privacy, retry))
  {
  }

  lemma ParseAssembled(
    n: Codec<nat>, random: bytes, ephemeral: bytes, versions: seq<nat>, capabilities: bytes, privacy: bytes,
    retry: bytes)
    requires Numeric(n) && Buildable(random, ephemeral, versions, privacy, retry) && |capabilities| == 32
    ensures Parse(n, Opening(n, random, ephemeral) + (Lists(n, versions) + Closing(n, capabilities, privacy, retry)))
            == Some(Built(random, ephemeral, versions, capabilities, privacy, retry))
  {
    var h := Built(random, ephemeral, versions, capabilities, privacy, retry);
    BuiltBounded(random, ephemeral, versions, capabilities, privacy, retry);
    BuiltPrinted(n, random, ephemeral, versions, capabilities, privacy, retry);
    ParseExact(n, Print(n, h), h);
  }

  lemma CapabilitiesDefined(n: Codec<nat>, hash: bytes -> bytes, privacy: bytes)
    requires |privacy| <= 8 && forall x {:trigger hash(x)} :: |hash(x)| == 32
    ensures CapabilitiesHash(n, hash, privacy).Some? && |CapabilitiesHash(n, hash, privacy).value| == 32
  {
  }

  /** Parsing a built ClientHello returns exactly what went into it and consumes every octet. */
  lemma ParseBuiltWith(
    n: Codec<nat>, hash: bytes -> bytes, random: bytes, ephemeral: bytes, versions: seq<nat>, privacy: bytes,
    retry: bytes)
    requires Numeric(n) && Buildable(random, ephemeral, versions, privacy, retry)
    requires forall x {:trigger hash(x)} :: |hash(x)| == 32
    ensures CapabilitiesHash(n, hash, privacy).Some?
    ensures Build(n, hash, random, ephemeral, versions, privacy, retry).Some?
    ensures Parse(n, Build(n, hash, random, ephemeral, versions, privacy, retry).value)
            == Some(Built(random, ephemeral, versions, CapabilitiesHash(n, hash, privacy).value, privacy, retry))
  {
    CapabilitiesDefined(n, hash, privacy);
    ParseAssembled(n, random, ephemeral, versions, CapabilitiesHash(n, hash, privacy).value, privacy, retry);
  }

  /** The same with the numbers of the wire format. */
  lemma ParseBuilt(
    hash: bytes -> bytes, random: bytes, ephemeral: bytes, versions: seq<nat>, privacy: bytes, retry: bytes)
    requires forall x {:trigger hash(x)} :: |hash(x)| == 32
    requires Buildable(random, ephemeral, versions, privacy, retry)
    ensures CapabilitiesHash(Number(), hash, privacy).Some?
    ensures Build(Number(), hash, random, ephemeral, versions, privacy, retry).Some?
    ensures Parse(Number(), Build(Number(), hash, random, ephemeral, versions, privacy, retry).value)
            == Some(Built(random, ephemeral, versions, CapabilitiesHash(Number(), hash, privacy).value, privacy, retry))
  {
    NumberNumeric();
    ParseBuiltWith(Number(), hash, random, ephemeral, versions, privacy, retry);
  }
}
