/** Every form of frame the live peer takes, also those it never sends: what each looks like and what it reports. */
module ReceivedFrames {
  import opened Bytes
  import opened Wire
  import opened Codecs
  import opened Frames

  /** The numbers of a control frame that reports nothing: two of kind 0x20, one of kind 0x1C. */
  datatype Received = GotPadding
                    | GotPing
                    | GotAck(largest: nat, delay: nat, first: nat, ranges: seq<(nat, nat)>)
                    | GotStream(id: nat, fin: bool, spare: bool, position: Option<nat>, octets: bytes,
                                opening: Option<(bytes, bytes)>)
                    | GotDatagram(context: nat, flags: byte, expiration: nat, octets: bytes)
                    | GotStreamLimit(id: nat, maximum: nat)
                    | GotLimit(maximum: nat)

  predicate Small(v: nat) {
    v <= MAX_VARINT
  }

  predicate AllSmall(ranges: seq<(nat, nat)>) {
    forall i :: 0 <= i < |ranges| ==> Small(ranges[i].0) && Small(ranges[i].1)
  }

  predicate Proper(r: Received) {
    match r
    case GotPadding => true
    case GotPing => true
    case GotAck(largest, delay, first, ranges) =>
      Small(largest) && Small(delay) && Small(first) && Small(|ranges| + 1) && AllSmall(ranges)
    case GotStream(id, _, _, position, octets, opening) =>
      Small(id) && (position.Some? ==> Small(position.value)) && Small(|octets|)
      && (opening.Some? ==> |opening.value.0| <= 255 && |opening.value.1| <= 4096)
    case GotDatagram(context, _, expiration, octets) => Small(context) && Small(expiration) && Small(|octets|)
    case GotStreamLimit(id, maximum) => Small(id) && Small(maximum)
    case GotLimit(maximum) => Small(maximum)
  }

  function PositionOf(position: Option<nat>): nat {
    if position.Some? then position.value else 0
  }

  /** What the frame reports. */
  function Report(r: Received): seq<Frame> {
    match r
    case GotPadding => [Padding]
    case GotPing => [Ping]
    case GotAck(largest, _, _, _) => [Ack(largest)]
    case GotStream(id, fin, _, position, octets, _) =>
      [Stream(id, PositionOf(position), fin, octets)]
    case GotDatagram(context, _, _, octets) => [Datagram(context, octets)]
    case GotStreamLimit(_, _) => []
    case GotLimit(_) => []
  }

  // ----- the octets ---------------------------------------------------------

  /** A frame is written as numbers, single octets and octets preceded by their length. */
  datatype Part = Num(v: nat) | One(b: byte) | Block(octets: bytes)

  function ShowPart(n: Codec<nat>, part: Part): bytes {
    match part
    case Num(v) => n.show(v)
    case One(b) => [b]
    case Block(octets) => ShowText(n, octets)
  }

  function Show(n: Codec<nat>, parts: seq<Part>): bytes {
    if parts == [] then [] else ShowPart(n, parts[0]) + Show(n, parts[1..])
  }

  function RangeParts(ranges: seq<(nat, nat)>): seq<Part> {
    if ranges == [] then [] else [Num(ranges[0].0)] + ([Num(ranges[0].1)] + RangeParts(ranges[1..]))
  }

  /** End of stream, offset, length, opening, and a bit that means nothing. */
  function Flags(fin: bool, position: bool, length: bool, opening: bool, spare: bool): byte {
    (if fin then 1 else 0) + (if position then 2 else 0) + (if length then 4 else 0)
    + (if opening then 8 else 0) + if spare then 16 else 0
  }

  function PositionParts(position: Option<nat>): seq<Part> {
    if position.Some? then [Num(position.value)] else []
  }

  function OpeningParts(opening: Option<(bytes, bytes)>): seq<Part> {
    if opening.None? then [] else [Block(opening.value.0)] + [Block(opening.value.1)]
  }

  predicate Expires(flags: byte) {
    flags / 4 % 2 == 1
  }

  function ExpirationParts(flags: byte, expiration: nat): seq<Part> {
    if Expires(flags) then [Num(expiration)] else []
  }

  function Kind(r: Received): nat {
    match r
    case GotPadding => 0x00
    case GotPing => 0x04
    case GotAck(_, _, _, _) => 0x08
    case GotStream(_, _, _, _, _, _) => 0x10
    case GotDatagram(_, _, _, _) => 0x28
    case GotStreamLimit(_, _) => 0x20
    case GotLimit(_) => 0x1C
  }

  function Body(r: Received): seq<Part> {
    match r
    case GotPadding => []
    case GotPing => []
    case GotAck(largest, delay, first, ranges) =>
      [Num(largest)] + ([Num(delay)] + ([Num(|ranges| + 1)] + ([Num(first)] + RangeParts(ranges))))
    case GotStream(id, fin, spare, position, octets, opening) =>
      [Num(id)] + ([One(Flags(fin, position.Some?, true, opening.Some?, spare))]
                   + (PositionParts(position) + ([Block(octets)] + OpeningParts(opening))))
    case GotDatagram(context, flags, expiration, octets) =>
      [Num(context)] + ([One(flags)] + (ExpirationParts(flags, expiration) + [Block(octets)]))
    case GotStreamLimit(id, maximum) => [Num(id)] + [Num(maximum)]
    case GotLimit(maximum) => [Num(maximum)]
  }

  /** The frames of a payload, one after the other. */
  function Payload(frames: seq<Received>): seq<Part> {
    if frames == [] then [] else [Num(Kind(frames[0]))] + (Body(frames[0]) + Payload(frames[1..]))
  }

  // ----- reading part by part -----------------------------------------------

  /** From `offset` on the data is exactly these parts. */
  predicate Holds(n: Codec<nat>, data: bytes, offset: nat, parts: seq<Part>) {
    Tail(data, offset, Show(n, parts))
  }

  lemma ShowFirst(n: Codec<nat>, part: Part, rest: seq<Part>)
    ensures Show(n, [part] + rest) == ShowPart(n, part) + Show(n, rest)
  {
    assert ([part] + rest)[1..] == rest;
  }

  lemma TakeNumber(n: Codec<nat>, data: bytes, offset: nat, v: nat, rest: seq<Part>) returns (next: nat)
    requires Numeric(n) && Small(v) && Holds(n, data, offset, [Num(v)] + rest)
    ensures n.read(data, offset) == Some((v, next)) && Holds(n, data, next, rest)
  {
    ShowFirst(n, Num(v), rest);
    PeelNumber(n, data, offset, v, Show(n, rest));
    next := offset + |n.show(v)|;
  }

  lemma TakeOctet(n: Codec<nat>, data: bytes, offset: nat, b: byte, rest: seq<Part>)
    requires Holds(n, data, offset, [One(b)] + rest)
    ensures ReadOctet(data, offset) == Some((b, offset + 1)) && Holds(n, data, offset + 1, rest)
  {
    ShowFirst(n, One(b), rest);
    Peel(data, offset, [b], Show(n, rest));
    assert data[offset..offset + 1][0] == b;
  }

  lemma TakeBlock(n: Codec<nat>, data: bytes, offset: nat, octets: bytes, rest: seq<Part>) returns (next: nat)
    requires Numeric(n) && Small(|octets|) && Holds(n, data, offset, [Block(octets)] + rest)
    ensures ReadClamped(n, data, offset) == Some((octets, next)) && Holds(n, data, next, rest)
    ensures forall limit: nat :: |octets| <= limit ==> ReadText(n, data, offset, limit) == Some((octets, next))
  {
    ShowFirst(n, Block(octets), rest);
    var size := n.show(|octets|);
    assert size + octets + Show(n, rest) == size + (octets + Show(n, rest));
    PeelNumber(n, data, offset, |octets|, octets + Show(n, rest));
    Peel(data, offset + |size|, octets, Show(n, rest));
    next := offset + |size| + |octets|;
  }

  lemma FlagsMean(fin: bool, position: bool, length: bool, opening: bool, spare: bool)
    ensures var flags := Flags(fin, position, length, opening, spare);
            Bit(flags, 1) == fin && Bit(flags, 2) == position && Bit(flags, 4) == length && Bit(flags, 8) == opening
            && flags < 0x20
  {
  }

  // ----- reading each kind --------------------------------------------------

  lemma {:induction false} TakeRanges(
    n: Codec<nat>, data: bytes, offset: nat, ranges: seq<(nat, nat)>, rest: seq<Part>) returns (next: nat)
    requires Numeric(n) && AllSmall(ranges) && Holds(n, data, offset, RangeParts(ranges) + rest)
    ensures SkipRanges(n, data, offset, |ranges|) == Some(next) && Holds(n, data, next, rest)
    decreases |ranges|
  {
    if ranges == [] {
      assert RangeParts(ranges) + rest == rest;
      next := offset;
    } else {
      var more := RangeParts(ranges[1..]) + rest;
      assert RangeParts(ranges) + rest == [Num(ranges[0].0)] + ([Num(ranges[0].1)] + more);
      var o1 := TakeNumber(n, data, offset, ranges[0].0, [Num(ranges[0].1)] + more);
      var o2 := TakeNumber(n, data, o1, ranges[0].1, more);
      next := TakeRanges(n, data, o2, ranges[1..], rest);
    }
  }

  lemma TakeAck(n: Codec<nat>, data: bytes, offset: nat, r: Received, rest: seq<Part>) returns (next: nat)
    requires Numeric(n) && r.GotAck? && Proper(r) && Holds(n, data, offset, Body(r) + rest)
    ensures ReadAck(n, data, offset) == Some((Ack(r.largest), next)) && Holds(n, data, next, rest)
  {
    var count := |r.ranges| + 1;
    var p4 := RangeParts(r.ranges) + rest;
    var p3 := [Num(r.first)] + p4;
    var p2 := [Num(count)] + p3;
    var p1 := [Num(r.delay)] + p2;
    assert Body(r) + rest == [Num(r.largest)] + p1;
    var o1 := TakeNumber(n, data, offset, r.largest, p1);
    var o2 := TakeNumber(n, data, o1, r.delay, p2);
    var o3 := TakeNumber(n, data, o2, count, p3);
    var o4 := TakeNumber(n, data, o3, r.first, p4);
    next := TakeRanges(n, data, o4, r.ranges, rest);
  }

  lemma TakePosition(
    n: Codec<nat>, data: bytes, offset: nat, position: Option<nat>, flags: byte, rest: seq<Part>) returns (next: nat)
    requires Numeric(n) && Bit(flags, 2) == position.Some? && (position.Some? ==> Small(position.value))
    requires Holds(n, data, offset, PositionParts(position) + rest)
    ensures ReadStreamOffset(n, data, offset, flags) == Some((PositionOf(position), next))
    ensures Holds(n, data, next, rest)
  {
    if position.Some? {
      next := TakeNumber(n, data, offset, position.value, rest);
    } else {
      assert PositionParts(position) + rest == rest;
      next := offset;
    }
  }

  lemma TakeOpening(
    n: Codec<nat>, data: bytes, offset: nat, opening: Option<(bytes, bytes)>, flags: byte, rest: seq<Part>)
    returns (next: nat)
    requires Numeric(n) && Bit(flags, 8) == opening.Some?
    requires opening.Some? ==> |opening.value.0| <= 255 && |opening.value.1| <= 4096
    requires Holds(n, data, offset, OpeningParts(opening) + rest)
    ensures SkipOpening(n, data, offset, flags) == Some(next) && Holds(n, data, next, rest)
  {
    if opening.Some? {
      var more := [Block(opening.value.1)] + rest;
      assert OpeningParts(opening) + rest == [Block(opening.value.0)] + more;
      var o1 := TakeBlock(n, data, offset, opening.value.0, more);
      next := TakeBlock(n, data, o1, opening.value.1, rest);
    } else {
      assert OpeningParts(opening) + rest == rest;
      next := offset;
    }
  }

  lemma StreamOfHead(n: Codec<nat>, data: bytes, offset: nat, id: nat, flags: byte, next: nat)
    requires Numeric(n) && flags < 0x20 && n.read(data, offset) == Some((id, next))
    requires ReadOctet(data, next) == Some((flags, next + 1))
    ensures ReadStream(n, data, offset) == ReadStreamRest(n, data, next + 1, id, flags)
  {
  }

  lemma StreamOfParts(
    n: Codec<nat>, data: bytes, offset: nat, id: nat, flags: byte, position: nat, o1: nat, octets: bytes, o2: nat,
    end: nat)
    requires Numeric(n) && ReadStreamOffset(n, data, offset, flags) == Some((position, o1))
    requires ReadStreamData(n, data, o1, flags) == Some((octets, o2)) && SkipOpening(n, data, o2, flags) == Some(end)
    ensures ReadStreamRest(n, data, offset, id, flags) == Some((Stream(id, position, Bit(flags, 1), octets), end))
  {
  }

  lemma TakeStreamRest(n: Codec<nat>, data: bytes, offset: nat, r: Received, flags: byte, rest: seq<Part>)
    returns (next: nat)
    requires Numeric(n) && r.GotStream? && Proper(r)
    requires Bit(flags, 2) == r.position.Some? && Bit(flags, 4) && Bit(flags, 8) == r.opening.Some?
    requires Holds(n, data, offset,
                   PositionParts(r.position) + ([Block(r.octets)] + (OpeningParts(r.opening) + rest)))
    ensures ReadStreamRest(n, data, offset, r.id, flags)
            == Some((Stream(r.id, PositionOf(r.position), Bit(flags, 1), r.octets), next))
    ensures Holds(n, data, next, rest)
  {
    var p2 := OpeningParts(r.opening) + rest;
    var o1 := TakePosition(n, data, offset, r.position, flags, [Block(r.octets)] + p2);
    var o2 := TakeBlock(n, data, o1, r.octets, p2);
    next := TakeOpening(n, data, o2, r.opening, flags, rest);
    StreamOfParts(n, data, offset, r.id, flags, PositionOf(r.position), o1, r.octets, o2, next);
  }

  function StreamFlagsOf(r: Received): byte
    requires r.GotStream?
  {
    Flags(r.fin, r.position.Some?, true, r.opening.Some?, r.spare)
  }

  lemma StreamShape(r: Received, rest: seq<Part>)
    requires r.GotStream?
    ensures Body(r) + rest
            == [Num(r.id)] + ([One(StreamFlagsOf(r))]
                              + (PositionParts(r.position) + ([Block(r.octets)] + (OpeningParts(r.opening) + rest))))
  {
  }

  lemma TakeStreamHead(n: Codec<nat>, data: bytes, offset: nat, id: nat, flags: byte, rest: seq<Part>)
    returns (next: nat)
    requires Numeric(n) && Small(id) && flags < 0x20 && Holds(n, data, offset, [Num(id)] + ([One(flags)] + rest))
    ensures ReadStream(n, data, offset) == ReadStreamRest(n, data, next, id, flags) && Holds(n, data, next, rest)
  {
    var o1 := TakeNumber(n, data, offset, id, [One(flags)] + rest);
    TakeOctet(n, data, o1, flags, rest);
    StreamOfHead(n, data, offset, id, flags, o1);
    next := o1 + 1;
  }

  lemma TakeStream(n: Codec<nat>, data: bytes, offset: nat, r: Received, rest: seq<Part>) returns (next: nat)
    requires Numeric(n) && r.GotStream? && Proper(r) && Holds(n, data, offset, Body(r) + rest)
    ensures ReadStream(n, data, offset) == Some((Report(r)[0], next)) && Holds(n, data, next, rest)
  {
    var flags := StreamFlagsOf(r);
    FlagsMean(r.fin, r.position.Some?, true, r.opening.Some?, r.spare);
    StreamShape(r, rest);
    var p2 := PositionParts(r.position) + ([Block(r.octets)] + (OpeningParts(r.opening) + rest));
    var start := TakeStreamHead(n, data, offset, r.id, flags, p2);
    next := TakeStreamRest(n, data, start, r, flags, rest);
  }

  lemma TakeExpiration(
    n: Codec<nat>, data: bytes, offset: nat, flags: byte, expiration: nat, rest: seq<Part>) returns (next: nat)
    requires Numeric(n) && Small(expiration) && Holds(n, data, offset, ExpirationParts(flags, expiration) + rest)
    ensures SkipExpiration(n, data, offset, flags) == Some(next) && Holds(n, data, next, rest)
  {
    if Expires(flags) {
      next := TakeNumber(n, data, offset, expiration, rest);
    } else {
      assert ExpirationParts(flags, expiration) + rest == rest;
      next := offset;
    }
  }

  lemma TakeDatagram(n: Codec<nat>, data: bytes, offset: nat, r: Received, rest: seq<Part>) returns (next: nat)
    requires Numeric(n) && r.GotDatagram? && Proper(r) && Holds(n, data, offset, Body(r) + rest)
    ensures ReadDatagram(n, data, offset) == Some((Report(r)[0], next)) && Holds(n, data, next, rest)
  {
    var p3 := [Block(r.octets)] + rest;
    var p2 := ExpirationParts(r.flags, r.expiration) + p3;
    assert Body(r) + rest == [Num(r.context)] + ([One(r.flags)] + p2);
    var o1 := TakeNumber(n, data, offset, r.context, [One(r.flags)] + p2);
    TakeOctet(n, data, o1, r.flags, p2);
    var o2 := TakeExpiration(n, data, o1 + 1, r.flags, r.expiration, p3);
    next := TakeBlock(n, data, o2, r.octets, rest);
    DatagramOfParts(n, data, offset, r.context, o1, r.flags, o2, r.octets, next);
  }

  lemma DatagramOfParts(
    n: Codec<nat>, data: bytes, offset: nat, context: nat, o1: nat, flags: byte, o2: nat, octets: bytes, end: nat)
    requires Numeric(n) && n.read(data, offset) == Some((context, o1)) && ReadOctet(data, o1) == Some((flags, o1 + 1))
    requires SkipExpiration(n, data, o1 + 1, flags) == Some(o2) && ReadClamped(n, data, o2) == Some((octets, end))
    ensures ReadDatagram(n, data, offset) == Some((Datagram(context, octets), end))
  {
  }

  lemma TakeOne(n: Codec<nat>, data: bytes, offset: nat, v: nat, rest: seq<Part>) returns (next: nat)
    requires Numeric(n) && Small(v) && Holds(n, data, offset, [Num(v)] + rest)
    ensures SkipNumbers(n, data, offset, 1) == Some(next) && Holds(n, data, next, rest)
  {
    next := TakeNumber(n, data, offset, v, rest);
    assert SkipNumbers(n, data, next, 0) == Some(next);
  }

  lemma TakeTwo(n: Codec<nat>, data: bytes, offset: nat, v: nat, w: nat, rest: seq<Part>) returns (next: nat)
    requires Numeric(n) && Small(v) && Small(w) && Holds(n, data, offset, [Num(v)] + ([Num(w)] + rest))
    ensures SkipNumbers(n, data, offset, 2) == Some(next) && Holds(n, data, next, rest)
  {
    var o1 := TakeNumber(n, data, offset, v, [Num(w)] + rest);
    next := TakeOne(n, data, o1, w, rest);
  }

  lemma TakeBody(n: Codec<nat>, data: bytes, offset: nat, r: Received, rest: seq<Part>) returns (next: nat)
    requires Numeric(n) && Proper(r) && Holds(n, data, offset, Body(r) + rest)
    ensures ReadBody(n, data, offset, Kind(r)) == Some((Report(r), next)) && Holds(n, data, next, rest)
  {
    match r
    case GotPadding =>
      assert Body(r) + rest == rest;
      next := offset;
    case GotPing =>
      assert Body(r) + rest == rest;
      next := offset;
    case GotAck(_, _, _, _) => next := TakeAck(n, data, offset, r, rest);
    case GotStream(_, _, _, _, _, _) => next := TakeStream(n, data, offset, r, rest);
    case GotDatagram(_, _, _, _) => next := TakeDatagram(n, data, offset, r, rest);
    case GotStreamLimit(id, maximum) =>
      assert Body(r) + rest == [Num(id)] + ([Num(maximum)] + rest);
      next := TakeTwo(n, data, offset, id, maximum, rest);
    case GotLimit(maximum) => next := TakeOne(n, data, offset, maximum, rest);
  }

  /** A frame of any form is read to its end and reports what it carries. */
  lemma TakeFrame(n: Codec<nat>, data: bytes, offset: nat, r: Received, rest: seq<Part>) returns (next: nat)
    requires Numeric(n) && Proper(r) && Holds(n, data, offset, [Num(Kind(r))] + (Body(r) + rest))
    ensures ReadFrame(n, data, offset) == Some((Report(r), next)) && Holds(n, data, next, rest)
  {
    var start := TakeNumber(n, data, offset, Kind(r), Body(r) + rest);
    next := TakeBody(n, data, start, r, rest);
    FrameOfBody(n, data, offset, Kind(r), start, Report(r), next);
  }

  lemma FrameOfBody(
    n: Codec<nat>, data: bytes, offset: nat, kind: nat, start: nat, report: seq<Frame>, next: nat)
    requires Numeric(n) && n.read(data, offset) == Some((kind, start))
    requires ReadBody(n, data, start, kind) == Some((report, next))
    ensures ReadFrame(n, data, offset) == Some((report, next))
  {
  }

  // ----- whole payloads -----------------------------------------------------

  function Reports(frames: seq<Received>): seq<Frame> {
    if frames == [] then [] else Report(frames[0]) + Reports(frames[1..])
  }

  predicate AllProper(frames: seq<Received>) {
    forall i :: 0 <= i < |frames| ==> Proper(frames[i])
  }

  lemma {:induction false} ParseRest(n: Codec<nat>, data: bytes, offset: nat, frames: seq<Received>)
    requires Numeric(n) && AllProper(frames) && Holds(n, data, offset, Payload(frames))
    ensures ParseFrom(n, data, offset) == Some(Reports(frames))
    decreases |frames|
  {
    if frames != [] {
      var next := TakeFrame(n, data, offset, frames[0], Payload(frames[1..]));
      ParseRest(n, data, next, frames[1..]);
      ParseCons(n, data, offset, Report(frames[0]), next, Reports(frames[1..]));
    }
  }

  lemma ParseCons(n: Codec<nat>, data: bytes, offset: nat, first: seq<Frame>, next: nat, rest: seq<Frame>)
    requires Numeric(n) && next <= |data| && ReadFrame(n, data, offset) == Some((first, next))
    requires ParseFrom(n, data, next) == Some(rest)
    ensures ParseFrom(n, data, offset) == Some(first + rest)
  {
  }

  /** Any sequence of frames, in any of their forms, is parsed into what they report, in order. */
  lemma ParseReceived(frames: seq<Received>)
    requires AllProper(frames)
    ensures Numeric(Number())
    ensures ParseFrom(Number(), Show(Number(), Payload(frames)), 0) == Some(Reports(frames))
  {
    NumberNumeric();
    var data := Show(Number(), Payload(frames));
    WholeTail(data);
    ParseRest(Number(), data, 0, frames);
  }

  // ----- what is refused ----------------------------------------------------

  /** A kind that is none of the seven is refused, and so is a stream frame with flags from 0x20 on. */
  lemma UnknownRefused(n: Codec<nat>, data: bytes, offset: nat, kind: nat, start: nat)
    requires Numeric(n) && n.read(data, offset) == Some((kind, start))
    ensures kind !in {0x00, 0x04, 0x08, 0x10, 0x1C, 0x20, 0x28} ==> ReadFrame(n, data, offset).None?
    ensures var id := n.read(data, start);
            kind == 0x10 && id.Some? && id.value.1 < |data| && data[id.value.1] >= 0x20 ==>
              ReadFrame(n, data, offset).None?
  {
  }

  function LastRead(id: nat, flags: byte, position: Option<nat>, octets: bytes, end: nat): Option<(Frame, nat)> {
    if Bit(flags, 8) then None
    else Some((Stream(id, PositionOf(position), Bit(flags, 1), octets), end))
  }

  /** Without a length the data is all that is left, so nothing may follow and an opening is missing. */
  lemma LastStream(
    n: Codec<nat>, data: bytes, offset: nat, id: nat, flags: byte, position: Option<nat>, octets: bytes)
    requires Numeric(n) && Small(id) && (position.Some? ==> Small(position.value))
    requires Bit(flags, 2) == position.Some? && !Bit(flags, 4) && flags < 0x20
    requires Tail(data, offset, Show(n, [Num(id)] + ([One(flags)] + PositionParts(position))) + octets)
    ensures ReadStream(n, data, offset) == LastRead(id, flags, position, octets, |data|)
  {
    var a, p := n.show(id), Show(n, PositionParts(position));
    ShowFirst(n, Num(id), [One(flags)] + PositionParts(position));
    ShowFirst(n, One(flags), PositionParts(position));
    assert Show(n, [Num(id)] + ([One(flags)] + PositionParts(position))) + octets == a + ([flags] + (p + octets));
    PeelNumber(n, data, offset, id, [flags] + (p + octets));
    PeelOctet(data, offset + |a|, flags, p + octets);
    StreamOfHead(n, data, offset, id, flags, offset + |a|);
    LastStreamRest(n, data, offset + |a| + 1, id, flags, position, octets);
  }

  lemma PeelOctet(data: bytes, offset: nat, b: byte, rest: bytes)
    requires Tail(data, offset, [b] + rest)
    ensures ReadOctet(data, offset) == Some((b, offset + 1)) && Tail(data, offset + 1, rest)
  {
    Peel(data, offset, [b], rest);
    assert data[offset..offset + 1][0] == b;
  }

  lemma LastPosition(n: Codec<nat>, data: bytes, offset: nat, position: Option<nat>, flags: byte, octets: bytes)
    returns (next: nat)
    requires Numeric(n) && Bit(flags, 2) == position.Some? && (position.Some? ==> Small(position.value))
    requires Tail(data, offset, Show(n, PositionParts(position)) + octets)
    ensures ReadStreamOffset(n, data, offset, flags) == Some((PositionOf(position), next)) && Tail(data, next, octets)
  {
    if position.Some? {
      assert Show(n, PositionParts(position)) == n.show(position.value);
      PeelNumber(n, data, offset, position.value, octets);
      next := offset + |n.show(position.value)|;
    } else {
      assert Show(n, PositionParts(position)) + octets == octets;
      next := offset;
    }
  }

  lemma LastStreamRest(
    n: Codec<nat>, data: bytes, offset: nat, id: nat, flags: byte, position: Option<nat>, octets: bytes)
    requires Numeric(n) && (position.Some? ==> Small(position.value))
    requires Bit(flags, 2) == position.Some? && !Bit(flags, 4)
    requires Tail(data, offset, Show(n, PositionParts(position)) + octets)
    ensures ReadStreamRest(n, data, offset, id, flags) == LastRead(id, flags, position, octets, |data|)
  {
    var start := LastPosition(n, data, offset, position, flags, octets);
    assert SaturatingSub(|data|, start) == |octets|;
    assert Slice(data, start, start + |octets|) == octets;
    assert ReadStreamData(n, data, start, flags) == Some((octets, |data|));
    assert n.read(data, |data|).None?;
  }
}
