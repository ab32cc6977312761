/** The octets of the control messages: every entry of a table, with its tag, and the tags of every table. */
module ControlOctets {
  import opened Bytes
  import opened Codecs
  import opened Protobuf
  import opened Messages
  import opened ControlMessages

  /** Field number and wire type in one number, which is a single octet for the fields of the control messages. */
  function Tag(spec: Spec): nat {
    8 * spec.number + if spec.kind.Unsigned? || spec.kind.Signed? then 0 else 2
  }

  function Tags(schema: Schema): seq<nat> {
    seq(|schema|, i requires 0 <= i < |schema| => Tag(schema[i]))
  }

  /** One letter for each kind: unsigned, signed, raw octets, text, texts, a message, messages. */
  function Letter(kind: Kind): char {
    match kind
    case Unsigned => 'u'
    case Signed => 's'
    case Raw => 'r'
    case Text => 't'
    case Texts => 'T'
    case Message(_) => 'm'
    case Messages(_) => 'M'
  }

  function Letters(schema: Schema): string {
    seq(|schema|, i requires 0 <= i < |schema| => Letter(schema[i].kind))
  }

  /** A number after its tag, or nothing for zero; negative numbers are taken modulo 2^64. */
  function NumberOctets(v: Codec<nat>, tag: nat, n: int): bytes {
    if n == 0 then [] else v.show(tag) + v.show(if n < 0 then n % 0x1_0000_0000_0000_0000 else n)
  }

  /** Tag, length and content, or nothing for an empty content. */
  function BlockOctets(v: Codec<nat>, tag: nat, octets: bytes): bytes {
    if octets == [] then [] else v.show(tag) + (v.show(|octets|) + octets)
  }

  function TextOctets(v: Codec<nat>, tag: nat, texts: seq<bytes>): bytes {
    if texts == [] then [] else BlockOctets(v, tag, texts[0]) + TextOctets(v, tag, texts[1..])
  }

  function SubOctets(v: Codec<nat>, schema: Schema, tag: nat, subs: seq<Record>): bytes {
    if subs == [] then [] else BlockOctets(v, tag, Encode(v, schema, subs[0])) + SubOctets(v, schema, tag, subs[1..])
  }

  function EntryOctets(v: Codec<nat>, spec: Spec, x: Value): bytes {
    match spec.kind
    case Unsigned => if x.Number? then NumberOctets(v, Tag(spec), x.n) else []
    case Signed => if x.Number? then NumberOctets(v, Tag(spec), x.n) else []
    case Raw => if x.Octets? then BlockOctets(v, Tag(spec), x.octets) else []
    case Text => if x.Octets? then BlockOctets(v, Tag(spec), x.octets) else []
    case Texts => if x.List? then TextOctets(v, Tag(spec), x.texts) else []
    case Message(schema) =>
      if x.Sub? && x.sub.Some? then BlockOctets(v, Tag(spec), Encode(v, schema, x.sub.value)) else []
    case Messages(schema) => if x.Subs? then SubOctets(v, schema, Tag(spec), x.subs) else []
  }

  function MessageOctets(v: Codec<nat>, schema: Schema, m: Record): bytes {
    if schema == [] || m == [] then [] else EntryOctets(v, schema[0], m[0]) + MessageOctets(v, schema[1..], m[1..])
  }

  lemma OneField(v: Codec<nat>, f: Field)
    ensures PrintFields(v, [f]) == PrintField(v, f)
  {
    assert [f][1..] == [];
  }

  lemma PrintedBlock(v: Codec<nat>, number: nat, octets: bytes)
    ensures PrintFields(v, Blocks(number, octets)) == BlockOctets(v, 8 * number + 2, octets)
  {
    if octets != [] {
      OneField(v, Block(number, octets));
    }
  }

  lemma {:induction false} PrintedTexts(v: Codec<nat>, number: nat, texts: seq<bytes>)
    ensures PrintFields(v, TextBlocks(number, texts)) == TextOctets(v, 8 * number + 2, texts)
  {
    if texts != [] {
      PrintedTexts(v, number, texts[1..]);
      PrintedBlock(v, number, texts[0]);
      PrintFieldsAppend(v, Blocks(number, texts[0]), TextBlocks(number, texts[1..]));
    }
  }

  lemma {:induction false} PrintedSubs(v: Codec<nat>, schema: Schema, number: nat, subs: seq<Record>)
    ensures PrintFields(v, SubBlocks(v, schema, number, subs)) == SubOctets(v, schema, 8 * number + 2, subs)
    decreases |subs|
  {
    if subs != [] {
      PrintedSubs(v, schema, number, subs[1..]);
      PrintedBlock(v, number, Encode(v, schema, subs[0]));
      PrintFieldsAppend(v, Blocks(number, Encode(v, schema, subs[0])),
                        SubBlocks(v, schema, number, subs[1..]));
    }
  }

  lemma PrintedNumber(v: Codec<nat>, number: nat, n: int)
    requires n != 0
    ensures PrintFields(v, [Varint(number, Mask64(n))]) == NumberOctets(v, 8 * number, n)
  {
    OneField(v, Varint(number, Mask64(n)));
  }

  lemma PrintedMessage(v: Codec<nat>, spec: Spec, x: Value)
    requires spec.kind.Message?
    ensures PrintFields(v, FieldsOf(v, spec, x)) == EntryOctets(v, spec, x)
  {
    if x.Sub? && x.sub.Some? {
      var content := Encode(v, spec.kind.schema, x.sub.value);
      assert FieldsOf(v, spec, x) == Blocks(spec.number, content);
      assert EntryOctets(v, spec, x) == BlockOctets(v, 8 * spec.number + 2, content);
      PrintedBlock(v, spec.number, content);
    }
  }

  lemma PrintedMessages(v: Codec<nat>, spec: Spec, x: Value)
    requires spec.kind.Messages?
    ensures PrintFields(v, FieldsOf(v, spec, x)) == EntryOctets(v, spec, x)
  {
    if x.Subs? {
      assert FieldsOf(v, spec, x) == SubBlocks(v, spec.kind.schema, spec.number, x.subs);
      assert EntryOctets(v, spec, x) == SubOctets(v, spec.kind.schema, 8 * spec.number + 2, x.subs);
      PrintedSubs(v, spec.kind.schema, spec.number, x.subs);
    }
  }

  lemma PrintedEntry(v: Codec<nat>, spec: Spec, x: Value)
    ensures PrintFields(v, FieldsOf(v, spec, x)) == EntryOctets(v, spec, x)
  {
    match spec.kind
    case Unsigned => if x.Number? && x.n != 0 { PrintedNumber(v, spec.number, x.n); }
    case Signed => if x.Number? && x.n != 0 { PrintedNumber(v, spec.number, x.n); }
    case Raw => if x.Octets? { PrintedBlock(v, spec.number, x.octets); }
    case Text => if x.Octets? { PrintedBlock(v, spec.number, x.octets); }
    case Texts => if x.List? { PrintedTexts(v, spec.number, x.texts); }
    case Message(_) => PrintedMessage(v, spec, x);
    case Messages(_) => PrintedMessages(v, spec, x);
  }

  /** For every table and message: the encoding is the octets of the entries, one after the other. */
  lemma {:induction false} EncodeOctets(v: Codec<nat>, schema: Schema, m: Record)
    ensures Encode(v, schema, m) == MessageOctets(v, schema, m)
    decreases |schema|
  {
    if schema != [] && m != [] {
      EncodeOctets(v, schema[1..], m[1..]);
      PrintedEntry(v, schema[0], m[0]);
      PrintFieldsAppend(v, FieldsOf(v, schema[0], m[0]), ToFields(v, schema[1..], m[1..]));
    }
  }

  /** In the codec of the bindings a tag below 128 is its own octet. */
  lemma TagOctet(tag: nat)
    requires tag < 128
    ensures Ten().show(tag) == [tag]
  {
  }

  /** The tag octets of every table, in the order in which the fields are written. */
  lemma TagsOfTables()
    ensures Tags(API_VERSION) == [0x08, 0x10]
    ensures Tags(TOKEN) == [0x0A]
    ensures Tags(CLIENT_AUTHENTICATION) == [0x1A, 0x12]
    ensures Tags(CLIENT_HELLO) == [0x0A, 0x12, 0x1A, 0x20, 0x2A, 0x30, 0x3A]
    ensures Tags(CAPABILITY_GRANT) == [0x08, 0x12]
    ensures Tags(CONNECTION_LIMITS) == [0x08, 0x10, 0x18, 0x20, 0x28, 0x30]
    ensures Tags(SERVER_HELLO) == [0x0A, 0x12, 0x18, 0x22, 0x2A, 0x32, 0x38, 0x42, 0x4A]
    ensures Tags(REQUEST) == [0x08, 0x12, 0x1A, 0x20, 0x2A, 0x32]
    ensures Tags(STATUS_DETAIL) == [0x0A, 0x12]
    ensures Tags(STATUS) == [0x08, 0x12, 0x1A, 0x20]
    ensures Tags(RESPONSE) == [0x08, 0x12, 0x1A, 0x20]
    ensures Tags(ENVELOPE) == [0x0A, 0x10, 0x52, 0x5A, 0x62, 0x6A]
  {
  }

  /** The kinds of every table, and the tables inside them. */
  lemma KindsOfTables()
    ensures Letters(API_VERSION) == "uu" && Letters(TOKEN) == "r" && Letters(CLIENT_AUTHENTICATION) == "mm"
    ensures Letters(CLIENT_HELLO) == "MtrumuT" && Letters(CAPABILITY_GRANT) == "ut"
    ensures Letters(CONNECTION_LIMITS) == "uuuuuu" && Letters(SERVER_HELLO) == "mrurrMuTm"
    ensures Letters(REQUEST) == "uttsrr" && Letters(STATUS_DETAIL) == "tr" && Letters(STATUS) == "utMu"
    ensures Letters(RESPONSE) == "umrs" && Letters(ENVELOPE) == "mummmm"
    ensures ENVELOPE[0].kind.schema == API_VERSION && ENVELOPE[2].kind.schema == CLIENT_HELLO
    ensures ENVELOPE[3].kind.schema == SERVER_HELLO && ENVELOPE[4].kind.schema == REQUEST
    ensures ENVELOPE[5].kind.schema == RESPONSE && RESPONSE[1].kind.schema == STATUS
    ensures STATUS[2].kind.schema == STATUS_DETAIL && CLIENT_HELLO[0].kind.schema == API_VERSION
    ensures CLIENT_HELLO[4].kind.schema == CLIENT_AUTHENTICATION
  {
  }

  /** A request on the wire. */
  lemma RequestOctets(v: Codec<nat>, id: nat, service: bytes, call: bytes, deadline: int, key: bytes, payload: bytes)
    ensures Encode(v, REQUEST, [Number(id), Octets(service), Octets(call), Number(deadline), Octets(key),
                                    Octets(payload)])
            == NumberOctets(v, 0x08, id) + (BlockOctets(v, 0x12, service) + (BlockOctets(v, 0x1A, call)
               + (NumberOctets(v, 0x20, deadline) + (BlockOctets(v, 0x2A, key) + BlockOctets(v, 0x32, payload)))))
  {
    var m := [Number(id), Octets(service), Octets(call), Number(deadline), Octets(key), Octets(payload)];
    EncodeOctets(v, REQUEST, m);
    SixEntries(v, REQUEST, m);
  }

  lemma SixEntries(v: Codec<nat>, schema: Schema, m: Record)
    requires |schema| == 6 && |m| == 6
    ensures MessageOctets(v, schema, m)
            == EntryOctets(v, schema[0], m[0]) + (EntryOctets(v, schema[1], m[1]) + (EntryOctets(v, schema[2], m[2])
               + (EntryOctets(v, schema[3], m[3]) + (EntryOctets(v, schema[4], m[4])
               + EntryOctets(v, schema[5], m[5])))))
  {
    NextOctets(v, schema, m, 0);
    NextOctets(v, schema, m, 1);
    NextOctets(v, schema, m, 2);
    NextOctets(v, schema, m, 3);
    NextOctets(v, schema, m, 4);
    assert schema[0..] == schema && m[0..] == m;
    assert schema[5..] == [schema[5]] && m[5..] == [m[5]];
    LastOctets(v, schema[5], m[5]);
  }

  /** A response on the wire, around the octets of its status. */
  lemma ResponseOctets(v: Codec<nat>, id: nat, status: Record, payload: bytes, time: int)
    ensures Encode(v, RESPONSE, [Number(id), Sub(Some(status)), Octets(payload), Number(time)])
            == NumberOctets(v, 0x08, id) + (BlockOctets(v, 0x12, MessageOctets(v, STATUS, status))
               + (BlockOctets(v, 0x1A, payload) + NumberOctets(v, 0x20, time)))
  {
    var m := [Number(id), Sub(Some(status)), Octets(payload), Number(time)];
    EncodeOctets(v, RESPONSE, m);
    EncodeOctets(v, STATUS, status);
    FourEntries(v, RESPONSE, m);
  }

  lemma FourEntries(v: Codec<nat>, schema: Schema, m: Record)
    requires |schema| == 4 && |m| == 4
    ensures MessageOctets(v, schema, m)
            == EntryOctets(v, schema[0], m[0]) + (EntryOctets(v, schema[1], m[1])
               + (EntryOctets(v, schema[2], m[2]) + EntryOctets(v, schema[3], m[3])))
  {
    NextOctets(v, schema, m, 0);
    NextOctets(v, schema, m, 1);
    NextOctets(v, schema, m, 2);
    assert schema[0..] == schema && m[0..] == m;
    assert schema[3..] == [schema[3]] && m[3..] == [m[3]];
    LastOctets(v, schema[3], m[3]);
  }

  lemma NextOctets(v: Codec<nat>, schema: Schema, m: Record, i: nat)
    requires i < |schema| && i < |m|
    ensures MessageOctets(v, schema[i..], m[i..])
            == EntryOctets(v, schema[i], m[i]) + MessageOctets(v, schema[i + 1..], m[i + 1..])
  {
    assert schema[i..][1..] == schema[i + 1..] && m[i..][1..] == m[i + 1..];
  }

  lemma LastOctets(v: Codec<nat>, spec: Spec, x: Value)
    ensures MessageOctets(v, [spec], [x]) == EntryOctets(v, spec, x)
  {
    assert [spec][1..] == [] && [x][1..] == [];
  }
}
