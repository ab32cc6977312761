/**
 Printing and parsing the frames inside a protected packet. Every function takes
 the codec `n` of numbers; `Codecs.Number()` is the one on the wire.
 */
module Frames {
  import opened Bytes
  import opened Queues
  import opened Wire
  import opened Codecs

  /** What parsing reports. */
  datatype Frame = Padding | Ping | Ack(largest: nat)
                 | Stream(id: nat, offset: nat, fin: bool, data: bytes)
                 | Datagram(context: nat, data: bytes)

  // ----- printing -----------------------------------------------------------

  /** What can be sent. */
  datatype Sent = SentStream(id: nat, data: bytes, fin: bool, protocol: bytes)
                | SentDatagram(context: nat, data: bytes)
                | SentAck(largest: nat)

  predicate Sendable(s: Sent) {
    match s
    case SentStream(id, data, _, protocol) => id <= MAX_VARINT && |data| <= MAX_VARINT && |protocol| <= 255
    case SentDatagram(context, data) => context <= MAX_VARINT && |data| <= MAX_VARINT
    case SentAck(largest) => largest <= MAX_VARINT
  }

  function StreamFlags(fin: bool): byte {
    if fin then 0x0D else 0x0C
  }

  function StreamFrame(n: Codec<nat>, id: nat, data: bytes, fin: bool, protocol: bytes): bytes {
    n.show(0x10) + (n.show(id) + ([StreamFlags(fin)] + (ShowText(n, data) + (ShowText(n, protocol) + ShowText(n, [])))))
  }

  function DatagramFrame(n: Codec<nat>, context: nat, data: bytes): bytes {
    n.show(0x28) + (n.show(context) + ([1] + ShowText(n, data)))
  }

  function AckFrame(n: Codec<nat>, largest: nat): bytes {
    n.show(0x08) + (n.show(largest) + (n.show(0) + (n.show(1) + n.show(1))))
  }

  function PrintFrame(n: Codec<nat>, s: Sent): bytes {
    match s
    case SentStream(id, data, fin, protocol) => StreamFrame(n, id, data, fin, protocol)
    case SentDatagram(context, data) => DatagramFrame(n, context, data)
    case SentAck(largest) => AckFrame(n, largest)
  }

  predicate AllSendable(frames: seq<Sent>) {
    forall i :: 0 <= i < |frames| ==> Sendable(frames[i])
  }

  function PrintFrames(n: Codec<nat>, frames: seq<Sent>): bytes {
    if frames == [] then [] else PrintFrame(n, frames[0]) + PrintFrames(n, frames[1..])
  }

  /** What a receiver is to see of a frame that was sent. */
  function Seen(s: Sent): Frame {
    match s
    case SentStream(id, data, fin, _) => Stream(id, 0, fin, data)
    case SentDatagram(context, data) => Datagram(context, data)
    case SentAck(largest) => Ack(largest)
  }

  function SeenAll(frames: seq<Sent>): seq<Frame> {
    if frames == [] then [] else [Seen(frames[0])] + SeenAll(frames[1..])
  }

  // ----- parsing ------------------------------------------------------------

  predicate Bit(flags: byte, weight: nat)
    requires weight > 0
  {
    flags / weight % 2 == 1
  }

  /** Passing over further acknowledgement ranges. */
  function SkipRanges(n: Codec<nat>, data: bytes, offset: nat, count: nat): (r: Option<nat>)
    requires Numeric(n)
    ensures r.Some? ==> offset <= r.value
    decreases count
  {
    if count == 0 then Some(offset) else
    var (gap, o1) :- n.read(data, offset);
    var (length, o2) :- n.read(data, o1);
    SkipRanges(n, data, o2, count - 1)
  }

  function ReadAck(n: Codec<nat>, data: bytes, offset: nat): (r: Option<(Frame, nat)>)
    requires Numeric(n)
    ensures r.Some? ==> offset <= r.value.1
  {
    var (largest, o1) :- n.read(data, offset);
    var (delay, o2) :- n.read(data, o1);
    var (count, o3) :- n.read(data, o2);
    var (first, o4) :- n.read(data, o3);
    var end :- SkipRanges(n, data, o4, SaturatingSub(count, 1));
    Some((Ack(largest), end))
  }

  function ReadStreamOffset(n: Codec<nat>, data: bytes, offset: nat, flags: byte): (r: Option<(nat, nat)>)
    requires Numeric(n)
    ensures r.Some? ==> offset <= r.value.1
  {
    if Bit(flags, 2) then n.read(data, offset) else Some((0, offset))
  }

  /** The data of a stream frame: with an explicit length, or all that remains. */
  function ReadStreamData(n: Codec<nat>, data: bytes, offset: nat, flags: byte): (r: Option<(bytes, nat)>)
    requires Numeric(n)
    ensures r.Some? ==> offset <= r.value.1
  {
    if Bit(flags, 4) then ReadClamped(n, data, offset)
    else
      var size := SaturatingSub(|data|, offset);
      Some((Slice(data, offset, offset + size), offset + size))
  }

  /** The protocol name and the metadata that open a stream. */
  function SkipOpening(n: Codec<nat>, data: bytes, offset: nat, flags: byte): (r: Option<nat>)
    requires Numeric(n)
    ensures r.Some? ==> offset <= r.value
  {
    if !Bit(flags, 8) then Some(offset) else
    var (protocol, o1) :- ReadText(n, data, offset, 255);
    var (metadata, o2) :- ReadText(n, data, o1, 4096);
    Some(o2)
  }

  function ReadStream(n: Codec<nat>, data: bytes, offset: nat): (r: Option<(Frame, nat)>)
    requires Numeric(n)
    ensures r.Some? ==> offset <= r.value.1
  {
    var (id, o1) :- n.read(data, offset);
    var (flags, o2) :- ReadOctet(data, o1);
    if flags >= 0x20 then None else ReadStreamRest(n, data, o2, id, flags)
  }

  function ReadStreamRest(n: Codec<nat>, data: bytes, offset: nat, id: nat, flags: byte): (r: Option<(Frame, nat)>)
    requires Numeric(n)
    ensures r.Some? ==> offset <= r.value.1
  {
    var (position, o1) :- ReadStreamOffset(n, data, offset, flags);
    var (octets, o2) :- ReadStreamData(n, data, o1, flags);
    var o3 :- SkipOpening(n, data, o2, flags);
    Some((Stream(id, position, Bit(flags, 1), octets), o3))
  }

  function SkipExpiration(n: Codec<nat>, data: bytes, offset: nat, flags: byte): (r: Option<nat>)
    requires Numeric(n)
    ensures r.Some? ==> offset <= r.value
  {
    if !Bit(flags, 4) then Some(offset) else
    var (expiration, end) :- n.read(data, offset);
    Some(end)
  }

  function ReadDatagram(n: Codec<nat>, data: bytes, offset: nat): (r: Option<(Frame, nat)>)
    requires Numeric(n)
    ensures r.Some? ==> offset <= r.value.1
  {
    var (context, o1) :- n.read(data, offset);
    var (flags, o2) :- ReadOctet(data, o1);
    var o3 :- SkipExpiration(n, data, o2, flags);
    var (octets, o4) :- ReadClamped(n, data, o3);
    Some((Datagram(context, octets), o4))
  }

  function SkipNumbers(n: Codec<nat>, data: bytes, offset: nat, count: nat): (r: Option<nat>)
    requires Numeric(n)
    ensures r.Some? ==> offset <= r.value
    decreases count
  {
    if count == 0 then Some(offset) else
    var (value, next) :- n.read(data, offset);
    SkipNumbers(n, data, next, count - 1)
  }

  /** The frames reported for one frame type, and the offset after it. */
  function ReadBody(n: Codec<nat>, data: bytes, offset: nat, kind: nat): (r: Option<(seq<Frame>, nat)>)
    requires Numeric(n)
    ensures r.Some? ==> offset <= r.value.1
  {
    if kind == 0 then Some(([Padding], offset))
    else if kind == 4 then Some(([Ping], offset))
    else if kind == 8 then var (f, end) :- ReadAck(n, data, offset); Some(([f], end))
    else if kind == 0x10 then var (f, end) :- ReadStream(n, data, offset); Some(([f], end))
    else if kind == 0x28 then var (f, end) :- ReadDatagram(n, data, offset); Some(([f], end))
    else if kind == 0x20 then var end :- SkipNumbers(n, data, offset, 2); Some(([], end))
    else if kind == 0x1C then var end :- SkipNumbers(n, data, offset, 1); Some(([], end))
    else None
  }

  function ReadFrame(n: Codec<nat>, data: bytes, offset: nat): (r: Option<(seq<Frame>, nat)>)
    requires Numeric(n)
    ensures r.Some? ==> offset < r.value.1
  {
    var (kind, start) :- n.read(data, offset);
    ReadBody(n, data, start, kind)
  }

  function ParseFrom(n: Codec<nat>, data: bytes, offset: nat): Option<seq<Frame>>
    requires Numeric(n)
    decreases SaturatingSub(|data|, offset)
  {
    if offset >= |data| then Some([]) else
    var (frames, next) :- ReadFrame(n, data, offset);
    var rest :- ParseFrom(n, data, next);
    Some(frames + rest)
  }

  /** What is parsed in all when `frames` are parsed already. */
  ghost function Parsed(frames: seq<Frame>, rest: Option<seq<Frame>>): Option<seq<Frame>> {
    if rest.None? then None else Some(frames + rest.value)
  }

  lemma ParsedFirst(all: Option<seq<Frame>>)
    ensures Parsed([], all) == all
  {
    assert all.Some? ==> [] + all.value == all.value;
  }

  lemma ParsedStep(n: Codec<nat>, payload: bytes, offset: nat, frames: seq<Frame>)
    requires Numeric(n) && offset < |payload|
    ensures var next := ReadFrame(n, payload, offset);
            Parsed(frames, ParseFrom(n, payload, offset))
            == if next.None? then None
               else Parsed(frames + next.value.0, ParseFrom(n, payload, next.value.1))
  {
    var next := ReadFrame(n, payload, offset);
    if next.Some? && ParseFrom(n, payload, next.value.1).Some? {
      var rest := ParseFrom(n, payload, next.value.1).value;
      assert frames + (next.value.0 + rest) == frames + next.value.0 + rest;
    }
  }

  /** The parsing loop. */
  method Parse(n: Codec<nat>, payload: bytes) returns (r: Option<seq<Frame>>)
    requires Numeric(n)
    ensures r == ParseFrom(n, payload, 0)
  {
    var frames: seq<Frame>, offset: nat := [], 0;
    ParsedFirst(ParseFrom(n, payload, 0));
    while offset < |payload|
      invariant Parsed(frames, ParseFrom(n, payload, offset)) == ParseFrom(n, payload, 0)
      decreases SaturatingSub(|payload|, offset)
    {
      ParsedStep(n, payload, offset, frames);
      var next := ReadFrame(n, payload, offset);
      if next.None? {
        return None;
      }
      frames, offset := frames + next.value.0, next.value.1;
    }
    assert frames + [] == frames;
    return Some(frames);
  }

  // ----- each kind of frame -------------------------------------------------

  function AckCodec(n: Codec<nat>): Codec<(nat, (nat, (nat, nat)))> {
    Pair(n, Pair(n, Pair(n, n)))
  }

  function DatagramCodec(n: Codec<nat>): Codec<(nat, (byte, bytes))> {
    Pair(n, Pair(Octet(), Clamped(n)))
  }

  function StreamCodec(n: Codec<nat>): Codec<(nat, (byte, (bytes, (bytes, bytes))))> {
    Pair(n, Pair(Octet(), Pair(Clamped(n), Pair(Text(n, 255), Text(n, 4096)))))
  }

  lemma AckExact(n: Codec<nat>)
    requires Exact(n)
    ensures Exact(AckCodec(n))
  {
    PairExact(n, n);
    PairExact(n, Pair(n, n));
    PairExact(n, Pair(n, Pair(n, n)));
  }

  lemma DatagramExact(n: Codec<nat>)
    requires Exact(n)
    ensures Exact(DatagramCodec(n))
  {
    OctetExact();
    ClampedExact(n);
    PairExact(Octet(), Clamped(n));
    PairExact(n, Pair(Octet(), Clamped(n)));
  }

  lemma StreamExact(n: Codec<nat>)
    requires Exact(n)
    ensures Exact(StreamCodec(n))
  {
    OctetExact();
    ClampedExact(n);
    TextExact(n, 255);
    TextExact(n, 4096);
    var c := Pair(Text(n, 255), Text(n, 4096));
    PairExact(Text(n, 255), Text(n, 4096));
    PairExact(Clamped(n), c);
    PairExact(Octet(), Pair(Clamped(n), c));
    PairExact(n, Pair(Octet(), Pair(Clamped(n), c)));
  }

  /** A frame read through the codec of the form that printing gives it. */
  lemma AckByCodec(n: Codec<nat>, data: bytes, offset: nat, largest: nat, delay: nat, first: nat, end: nat)
    requires Numeric(n) && AckCodec(n).read(data, offset) == Some(((largest, (delay, (1, first))), end))
    ensures ReadAck(n, data, offset) == Some((Ack(largest), end))
  {
  }

  lemma DatagramByCodec(n: Codec<nat>, data: bytes, offset: nat, context: nat, octets: bytes, end: nat)
    requires Numeric(n) && DatagramCodec(n).read(data, offset) == Some(((context, (1, octets)), end))
    ensures ReadDatagram(n, data, offset) == Some((Datagram(context, octets), end))
  {
  }

  lemma StreamByCodec(
    n: Codec<nat>, data: bytes, offset: nat, id: nat, fin: bool, octets: bytes, protocol: bytes, metadata: bytes,
    end: nat)
    requires Numeric(n)
    requires StreamCodec(n).read(data, offset)
             == Some(((id, (StreamFlags(fin), (octets, (protocol, metadata)))), end))
    ensures ReadStream(n, data, offset) == Some((Stream(id, 0, fin, octets), end))
  {
    var o2 := n.read(data, offset).value.1 + 1;
    StreamRestByCodec(n, data, o2, id, fin, octets, protocol, metadata, end);
  }

  lemma StreamRestByCodec(
    n: Codec<nat>, data: bytes, offset: nat, id: nat, fin: bool, octets: bytes, protocol: bytes, metadata: bytes,
    end: nat)
    requires Numeric(n)
    requires Pair(Clamped(n), Pair(Text(n, 255), Text(n, 4096))).read(data, offset)
             == Some(((octets, (protocol, metadata)), end))
    ensures ReadStreamRest(n, data, offset, id, StreamFlags(fin)) == Some((Stream(id, 0, fin, octets), end))
  {
    FlagBits(fin);
    var middle := ReadClamped(n, data, offset).value.1;
    assert Pair(Text(n, 255), Text(n, 4096)).read(data, middle) == Some(((protocol, metadata), end));
    assert SkipOpening(n, data, middle, StreamFlags(fin)) == Some(end);
  }

  lemma FlagBits(fin: bool)
    ensures var flags := StreamFlags(fin);
            !Bit(flags, 2) && Bit(flags, 4) && Bit(flags, 8) && (Bit(flags, 1) <==> fin)
  {
  }

  lemma ReadAckPrinted(n: Codec<nat>, data: bytes, offset: nat, largest: nat, end: nat)
    requires Numeric(n) && Stands(AckCodec(n), data, offset, (largest, (0, (1, 1))), end)
    ensures ReadAck(n, data, offset) == Some((Ack(largest), end))
  {
    AckExact(n);
    AckByCodec(n, data, offset, largest, 0, 1, end);
  }

  lemma ReadDatagramPrinted(n: Codec<nat>, data: bytes, offset: nat, context: nat, octets: bytes, end: nat)
    requires Numeric(n) && Stands(DatagramCodec(n), data, offset, (context, (1, octets)), end)
    ensures ReadDatagram(n, data, offset) == Some((Datagram(context, octets), end))
  {
    DatagramExact(n);
    DatagramByCodec(n, data, offset, context, octets, end);
  }

  lemma ReadStreamPrinted(
    n: Codec<nat>, data: bytes, offset: nat, id: nat, octets: bytes, fin: bool, protocol: bytes, end: nat)
    requires Numeric(n)
    requires Stands(StreamCodec(n), data, offset, (id, (StreamFlags(fin), (octets, (protocol, [])))), end)
    ensures ReadStream(n, data, offset) == Some((Stream(id, 0, fin, octets), end))
  {
    StreamExact(n);
    StreamByCodec(n, data, offset, id, fin, octets, protocol, [], end);
  }

  /** The type number of a frame that is sent, and what follows it. */
  function Kind(s: Sent): nat {
    match s
    case SentStream(_, _, _, _) => 0x10
    case SentDatagram(_, _) => 0x28
    case SentAck(_) => 0x08
  }

  function PrintBody(n: Codec<nat>, s: Sent): bytes {
    match s
    case SentStream(id, data, fin, protocol) =>
      StreamCodec(n).show((id, (StreamFlags(fin), (data, (protocol, [])))))
    case SentDatagram(context, data) => DatagramCodec(n).show((context, (1, data)))
    case SentAck(largest) => AckCodec(n).show((largest, (0, (1, 1))))
  }

  lemma PrintFrameSplits(n: Codec<nat>, s: Sent)
    ensures PrintFrame(n, s) == n.show(Kind(s)) + PrintBody(n, s)
  {
  }

  lemma ReadBodyPrinted(n: Codec<nat>, data: bytes, offset: nat, s: Sent)
    requires Numeric(n) && Sendable(s) && At(data, offset, PrintBody(n, s))
    ensures ReadBody(n, data, offset, Kind(s)) == Some(([Seen(s)], offset + |PrintBody(n, s)|))
  {
    var end := offset + |PrintBody(n, s)|;
    match s
    case SentStream(id, octets, fin, protocol) =>
      assert n.fits(id) && n.fits(|octets|) && n.fits(|protocol|) && n.fits(0);
      ReadStreamPrinted(n, data, offset, id, octets, fin, protocol, end);
    case SentDatagram(context, octets) =>
      assert n.fits(context) && n.fits(|octets|);
      ReadDatagramPrinted(n, data, offset, context, octets, end);
    case SentAck(largest) =>
      assert n.fits(largest) && n.fits(0) && n.fits(1);
      ReadAckPrinted(n, data, offset, largest, end);
  }

  lemma ReadKind(n: Codec<nat>, data: bytes, offset: nat, s: Sent)
    requires Numeric(n) && At(data, offset, n.show(Kind(s)))
    ensures n.read(data, offset) == Some((Kind(s), offset + |n.show(Kind(s))|))
  {
    var start := offset + |n.show(Kind(s))|;
    assert n.fits(Kind(s));
    assert Stands(n, data, offset, Kind(s), start);
    assert Reads(n, data, offset, Kind(s), start);
  }

  /** Reading a printed frame gives what its receiver is to see. */
  lemma ReadFramePrinted(n: Codec<nat>, data: bytes, offset: nat, s: Sent)
    requires Numeric(n) && Sendable(s) && At(data, offset, PrintFrame(n, s))
    ensures ReadFrame(n, data, offset) == Some(([Seen(s)], offset + |PrintFrame(n, s)|))
  {
    PrintFrameSplits(n, s);
    AtSplit(data, offset, n.show(Kind(s)), PrintBody(n, s));
    var start := offset + |n.show(Kind(s))|;
    ReadKind(n, data, offset, s);
    ReadBodyPrinted(n, data, start, s);
  }

  // ----- any sequence of frames ---------------------------------------------

  /** One printed frame in front of what parses already. */
  lemma {:induction false} ParseOneMore(n: Codec<nat>, data: bytes, offset: nat, s: Sent, rest: seq<Frame>)
    requires Numeric(n) && Sendable(s) && At(data, offset, PrintFrame(n, s))
    requires ParseFrom(n, data, offset + |PrintFrame(n, s)|) == Some(rest)
    ensures ParseFrom(n, data, offset) == Some([Seen(s)] + rest)
  {
    ReadFramePrinted(n, data, offset, s);
  }

  lemma {:induction false} ParseFromPrinted(n: Codec<nat>, data: bytes, offset: nat, frames: seq<Sent>)
    requires Numeric(n) && AllSendable(frames) && Tail(data, offset, PrintFrames(n, frames))
    ensures ParseFrom(n, data, offset) == Some(SeenAll(frames))
    decreases |frames|
  {
    if frames != [] {
      var s := frames[0];
      Peel(data, offset, PrintFrame(n, s), PrintFrames(n, frames[1..]));
      ParseFromPrinted(n, data, offset + |PrintFrame(n, s)|, frames[1..]);
      ParseOneMore(n, data, offset, s, SeenAll(frames[1..]));
    }
  }

  /** Parsing any concatenation of printed frames returns those frames in order. */
  lemma ParsePrinted(frames: seq<Sent>)
    requires AllSendable(frames)
    ensures Numeric(Number())
    ensures ParseFrom(Number(), PrintFrames(Number(), frames), 0) == Some(SeenAll(frames))
  {
    NumberNumeric();
    WholeTail(PrintFrames(Number(), frames));
    ParseFromPrinted(Number(), PrintFrames(Number(), frames), 0, frames);
  }

  /** Printing is injective up to the protocol name, which a receiver does not see. */
  lemma PrintedFramesAgree(a: seq<Sent>, b: seq<Sent>)
    requires AllSendable(a) && AllSendable(b) && PrintFrames(Number(), a) == PrintFrames(Number(), b)
    ensures SeenAll(a) == SeenAll(b)
  {
    ParsePrinted(a);
    ParsePrinted(b);
  }

  // ----- lengths that point past the end ------------------------------------

  /** The size a datagram frame declares. */
  function DatagramSize(n: Codec<nat>, data: bytes, offset: nat): Option<nat>
    requires Numeric(n)
  {
    var (context, o1) :- n.read(data, offset);
    var (flags, o2) :- ReadOctet(data, o1);
    var o3 :- SkipExpiration(n, data, o2, flags);
    var (size, start) :- n.read(data, o3);
    Some(size)
  }

  /** The size a stream frame declares, if it declares one. */
  function StreamSize(n: Codec<nat>, data: bytes, offset: nat): Option<nat>
    requires Numeric(n)
  {
    var (id, o1) :- n.read(data, offset);
    var (flags, o2) :- ReadOctet(data, o1);
    var (position, o3) :- ReadStreamOffset(n, data, o2, flags);
    if !Bit(flags, 4) then None else
    var (size, start) :- n.read(data, o3);
    Some(size)
  }

  function DeclaredSize(n: Codec<nat>, data: bytes, offset: nat): Option<nat>
    requires Numeric(n)
  {
    var (kind, start) :- n.read(data, offset);
    if kind == 0x28 then DatagramSize(n, data, start)
    else if kind == 0x10 then StreamSize(n, data, start)
    else None
  }

  /** A clamped text has the size it declares exactly when that size does not point past the end. */
  lemma ClampedWhole(n: Codec<nat>, data: bytes, offset: nat)
    requires Numeric(n) && ReadClamped(n, data, offset).Some?
    ensures var (octets, end) := ReadClamped(n, data, offset).value;
            var size := n.read(data, offset).value.0;
            |octets| <= size && (|octets| == size <==> end <= |data|)
  {
  }

  lemma DatagramWhole(n: Codec<nat>, data: bytes, offset: nat)
    requires Numeric(n) && ReadDatagram(n, data, offset).Some?
    ensures var (frame, end) := ReadDatagram(n, data, offset).value;
            frame.Datagram? && DatagramSize(n, data, offset).Some?
            && (|frame.data| == DatagramSize(n, data, offset).value <==> end <= |data|)
  {
    var (flags, o2) := ReadOctet(data, n.read(data, offset).value.1).value;
    ClampedWhole(n, data, SkipExpiration(n, data, o2, flags).value);
  }

  /** The cursor after a stream's opening stays inside the input. */
  lemma OpeningInside(n: Codec<nat>, data: bytes, offset: nat, flags: byte)
    requires Numeric(n) && Bit(flags, 8) && SkipOpening(n, data, offset, flags).Some?
    ensures offset < |data| && SkipOpening(n, data, offset, flags).value <= |data|
  {
    var (protocol, o1) := ReadText(n, data, offset, 255).value;
    var (metadata, o2) := ReadText(n, data, o1, 4096).value;
    assert n.read(data, offset).Some? && offset < n.read(data, offset).value.1 <= |data|;
  }

  lemma StreamWhole(n: Codec<nat>, data: bytes, offset: nat)
    requires Numeric(n) && ReadStream(n, data, offset).Some?
    ensures var (frame, end) := ReadStream(n, data, offset).value;
            frame.Stream?
            && (StreamSize(n, data, offset).Some? ==>
                  (|frame.data| == StreamSize(n, data, offset).value <==> end <= |data|))
            && (StreamSize(n, data, offset).None? ==> end <= |data|)
  {
    var (flags, o2) := ReadOctet(data, n.read(data, offset).value.1).value;
    StreamRestWhole(n, data, o2, n.read(data, offset).value.0, flags);
  }

  lemma StreamRestWhole(n: Codec<nat>, data: bytes, offset: nat, id: nat, flags: byte)
    requires Numeric(n) && ReadStreamRest(n, data, offset, id, flags).Some? && offset <= |data|
    ensures var (frame, end) := ReadStreamRest(n, data, offset, id, flags).value;
            var o1 := ReadStreamOffset(n, data, offset, flags).value.1;
            frame.Stream?
            && (Bit(flags, 4) ==>
                  n.read(data, o1).Some? && (|frame.data| == n.read(data, o1).value.0 <==> end <= |data|))
            && (!Bit(flags, 4) ==> end <= |data|)
  {
    var o1 := ReadStreamOffset(n, data, offset, flags).value.1;
    var o2 := ReadStreamData(n, data, o1, flags).value.1;
    if Bit(flags, 4) {
      ClampedWhole(n, data, o1);
    }
    if Bit(flags, 8) {
      OpeningInside(n, data, o2, flags);
    }
  }

  /** A frame delivers as much data as it declares. */
  ghost predicate Whole(n: Codec<nat>, data: bytes, offset: nat)
    requires Numeric(n)
  {
    ReadFrame(n, data, offset).Some?
    && (DeclaredSize(n, data, offset).Some? ==>
          var frames := ReadFrame(n, data, offset).value.0;
          |frames| == 1 && (frames[0].Datagram? || frames[0].Stream?)
          && |frames[0].data| == DeclaredSize(n, data, offset).value)
  }

  lemma {:induction false} SkipInside(n: Codec<nat>, data: bytes, offset: nat, count: nat)
    requires Numeric(n) && offset <= |data|
    ensures SkipRanges(n, data, offset, count).Some? ==> SkipRanges(n, data, offset, count).value <= |data|
    ensures SkipNumbers(n, data, offset, count).Some? ==> SkipNumbers(n, data, offset, count).value <= |data|
    decreases count
  {
    if count > 0 && n.read(data, offset).Some? {
      var o1 := n.read(data, offset).value.1;
      SkipInside(n, data, o1, count - 1);
      if n.read(data, o1).Some? {
        SkipInside(n, data, n.read(data, o1).value.1, count - 1);
      }
    }
  }

  lemma AckInside(n: Codec<nat>, data: bytes, offset: nat)
    requires Numeric(n) && ReadAck(n, data, offset).Some?
    ensures ReadAck(n, data, offset).value.1 <= |data|
  {
    var o1 := n.read(data, offset).value.1;
    var o2 := n.read(data, o1).value.1;
    var (count, o3) := n.read(data, o2).value;
    SkipInside(n, data, n.read(data, o3).value.1, SaturatingSub(count, 1));
  }

  /** A frame that is read is whole exactly when it ends inside the payload. */
  lemma WholeExactly(n: Codec<nat>, data: bytes, offset: nat)
    requires Numeric(n) && ReadFrame(n, data, offset).Some?
    ensures Whole(n, data, offset) <==> ReadFrame(n, data, offset).value.1 <= |data|
  {
    var (kind, start) := n.read(data, offset).value;
    if kind == 8 {
      AckInside(n, data, start);
    } else if kind == 0x10 {
      StreamWhole(n, data, start);
    } else if kind == 0x28 {
      DatagramWhole(n, data, start);
    } else if kind == 0x20 {
      SkipInside(n, data, start, 2);
    } else if kind == 0x1C {
      SkipInside(n, data, start, 1);
    }
  }

  /** Where the frames of a payload start. */
  function Starts(n: Codec<nat>, data: bytes, offset: nat): seq<nat>
    requires Numeric(n)
    decreases SaturatingSub(|data|, offset)
  {
    if offset >= |data| || ReadFrame(n, data, offset).None? then []
    else [offset] + Starts(n, data, ReadFrame(n, data, offset).value.1)
  }

  /** The cursor when the loop over frames ends. */
  function EndOf(n: Codec<nat>, data: bytes, offset: nat): nat
    requires Numeric(n)
    decreases SaturatingSub(|data|, offset)
  {
    if offset >= |data| || ReadFrame(n, data, offset).None? then offset
    else EndOf(n, data, ReadFrame(n, data, offset).value.1)
  }

  /** Every frame of an accepted payload but the last is whole, and the last exactly when the cursor ends at the end. */
  lemma {:induction false} OnlyLastCut(n: Codec<nat>, data: bytes, offset: nat, i: nat)
    requires Numeric(n) && ParseFrom(n, data, offset).Some? && i < |Starts(n, data, offset)|
    ensures var starts := Starts(n, data, offset);
            Whole(n, data, starts[i]) <==> (i < |starts| - 1 || EndOf(n, data, offset) <= |data|)
    decreases SaturatingSub(|data|, offset)
  {
    var next := ReadFrame(n, data, offset).value.1;
    var rest := Starts(n, data, next);
    if i == 0 {
      WholeExactly(n, data, offset);
      assert rest == [] <==> next >= |data|;
    } else {
      OnlyLastCut(n, data, next, i - 1);
    }
  }

  ghost predicate AllWhole(n: Codec<nat>, data: bytes, starts: seq<nat>)
    requires Numeric(n)
  {
    forall i :: 0 <= i < |starts| ==> Whole(n, data, starts[i])
  }

  lemma LastDecides(n: Codec<nat>, data: bytes, starts: seq<nat>, inside: bool)
    requires Numeric(n)
    requires forall i :: 0 <= i < |starts| ==> (Whole(n, data, starts[i]) <==> (i < |starts| - 1 || inside))
    ensures AllWhole(n, data, starts) <==> starts == [] || inside
  {
    if starts != [] {
      assert Whole(n, data, starts[|starts| - 1]) <==> inside;
    }
  }

  lemma NoFrameNoEnd(n: Codec<nat>, data: bytes)
    requires Numeric(n) && Starts(n, data, 0) == []
    ensures EndOf(n, data, 0) == 0
  {
  }

  /** So an accepted payload has no frame cut short exactly when its last frame does not point past the end. */
  lemma PayloadWholeExactly(n: Codec<nat>, data: bytes)
    requires Numeric(n) && ParseFrom(n, data, 0).Some?
    ensures AllWhole(n, data, Starts(n, data, 0)) <==> EndOf(n, data, 0) <= |data|
  {
    var starts := Starts(n, data, 0);
    forall i | 0 <= i < |starts|
      ensures Whole(n, data, starts[i]) <==> (i < |starts| - 1 || EndOf(n, data, 0) <= |data|)
    {
      OnlyLastCut(n, data, 0, i);
    }
    LastDecides(n, data, starts, EndOf(n, data, 0) <= |data|);
    if starts == [] {
      NoFrameNoEnd(n, data);
    }
  }

  function DatagramClaiming(n: Codec<nat>, context: nat, size: nat, octets: bytes): bytes {
    n.show(0x28) + (n.show(context) + ([1] + (n.show(size) + octets)))
  }

  /** A datagram at the end whose declared size exceeds what remains is accepted, cut short. */
  lemma ParseCutShort(n: Codec<nat>, data: bytes, offset: nat, context: nat, size: nat, octets: bytes)
    requires Numeric(n) && context <= MAX_VARINT && size <= MAX_VARINT && |octets| <= size
    requires Tail(data, offset, DatagramClaiming(n, context, size, octets))
    ensures ParseFrom(n, data, offset) == Some([Datagram(context, octets)])
  {
    ReadCutShort(n, data, offset, context, size, octets);
    ParseLast(n, data, offset, Datagram(context, octets));
  }

  lemma ReadCutShort(n: Codec<nat>, data: bytes, offset: nat, context: nat, size: nat, octets: bytes)
    requires Numeric(n) && context <= MAX_VARINT && size <= MAX_VARINT && |octets| <= size
    requires Tail(data, offset, DatagramClaiming(n, context, size, octets))
    ensures offset < |data| && ReadFrame(n, data, offset).Some?
    ensures ReadFrame(n, data, offset).value.0 == [Datagram(context, octets)]
    ensures ReadFrame(n, data, offset).value.1 >= |data|
  {
    PeelNumber(n, data, offset, 0x28, n.show(context) + ([1] + (n.show(size) + octets)));
    ReadDatagramCutShort(n, data, offset + |n.show(0x28)|, context, size, octets);
  }

  lemma ParseLast(n: Codec<nat>, data: bytes, offset: nat, frame: Frame)
    requires Numeric(n) && offset < |data| && ReadFrame(n, data, offset).Some?
    requires ReadFrame(n, data, offset).value.0 == [frame] && ReadFrame(n, data, offset).value.1 >= |data|
    ensures ParseFrom(n, data, offset) == Some([frame])
  {
    assert [frame] + [] == [frame];
  }

  lemma {:induction false} ParseUpToCut(
    n: Codec<nat>, data: bytes, offset: nat, frames: seq<Sent>, context: nat, size: nat, octets: bytes)
    requires Numeric(n) && context <= MAX_VARINT && size <= MAX_VARINT && |octets| <= size && AllSendable(frames)
    requires Tail(data, offset, PrintFrames(n, frames) + DatagramClaiming(n, context, size, octets))
    ensures ParseFrom(n, data, offset) == Some(SeenAll(frames) + [Datagram(context, octets)])
    decreases |frames|
  {
    var last := DatagramClaiming(n, context, size, octets);
    if frames == [] {
      assert [] + last == last && [] + [Datagram(context, octets)] == [Datagram(context, octets)];
      ParseCutShort(n, data, offset, context, size, octets);
    } else {
      var s, rest := frames[0], PrintFrames(n, frames[1..]);
      Associative(PrintFrame(n, s), rest, last);
      Peel(data, offset, PrintFrame(n, s), rest + last);
      ParseUpToCut(n, data, offset + |PrintFrame(n, s)|, frames[1..], context, size, octets);
      ParseOneMore(n, data, offset, s, SeenAll(frames[1..]) + [Datagram(context, octets)]);
      Associative([Seen(s)], SeenAll(frames[1..]), [Datagram(context, octets)]);
    }
  }

  /** Any printed frames, and then a datagram that declares more than remains: all are accepted, the last cut short. */
  lemma DatagramCutShort(n: Codec<nat>, frames: seq<Sent>, context: nat, size: nat, octets: bytes)
    requires Numeric(n) && context <= MAX_VARINT && size <= MAX_VARINT && |octets| <= size && AllSendable(frames)
    ensures ParseFrom(n, PrintFrames(n, frames) + DatagramClaiming(n, context, size, octets), 0)
            == Some(SeenAll(frames) + [Datagram(context, octets)])
  {
    var data := PrintFrames(n, frames) + DatagramClaiming(n, context, size, octets);
    WholeTail(data);
    ParseUpToCut(n, data, 0, frames, context, size, octets);
  }

  lemma PeelNumber(n: Codec<nat>, data: bytes, offset: nat, v: nat, rest: bytes)
    requires Numeric(n) && v <= MAX_VARINT && Tail(data, offset, n.show(v) + rest)
    ensures n.read(data, offset) == Some((v, offset + |n.show(v)|)) && Tail(data, offset + |n.show(v)|, rest)
  {
    Peel(data, offset, n.show(v), rest);
    NumericInverts(n);
    ReadShown(n, data, offset, v);
  }

  lemma ReadDatagramCutShort(n: Codec<nat>, data: bytes, offset: nat, context: nat, size: nat, octets: bytes)
    requires Numeric(n) && context <= MAX_VARINT && size <= MAX_VARINT && |octets| <= size
    requires Tail(data, offset, n.show(context) + ([1] + (n.show(size) + octets)))
    ensures ReadDatagram(n, data, offset).Some?
    ensures ReadDatagram(n, data, offset).value.0 == Datagram(context, octets)
    ensures ReadDatagram(n, data, offset).value.1 >= |data|
  {
    PeelNumber(n, data, offset, context, [1] + (n.show(size) + octets));
    var o1 := offset + |n.show(context)|;
    TakeFlags(data, o1, n.show(size) + octets);
    ReadClampedCutShort(n, data, o1 + 1, size, octets);
  }

  lemma TakeFlags(data: bytes, offset: nat, rest: bytes)
    requires Tail(data, offset, [1] + rest)
    ensures ReadOctet(data, offset) == Some((1, offset + 1)) && Tail(data, offset + 1, rest)
  {
    Peel(data, offset, [1], rest);
    assert data[offset..offset + 1][0] == 1;
  }

  lemma ReadClampedCutShort(n: Codec<nat>, data: bytes, offset: nat, size: nat, octets: bytes)
    requires Numeric(n) && size <= MAX_VARINT && |octets| <= size && Tail(data, offset, n.show(size) + octets)
    ensures ReadClamped(n, data, offset).Some?
    ensures ReadClamped(n, data, offset).value.0 == octets && ReadClamped(n, data, offset).value.1 >= |data|
  {
    PeelNumber(n, data, offset, size, octets);
  }
}
