/**
 The control messages as tables of fields, and the codec that every message class
 follows: fields are printed in table order with zero and empty values left out,
 and parsed by number and wire type with unknown fields passed over.
 */
module Messages {
  import opened Bytes
  import opened Codecs
  import opened Protobuf
  import Utf8

  datatype Kind = Unsigned | Signed | Raw | Text | Texts | Message(schema: Schema) | Messages(schema: Schema)
  datatype Spec = Spec(number: nat, kind: Kind)
  type Schema = seq<Spec>

  /** Texts are held as their UTF-8 octets. */
  datatype Value = Number(n: int) | Octets(octets: bytes) | List(texts: seq<bytes>)
                 | Sub(sub: Option<Record>) | Subs(subs: seq<Record>)
  type Record = seq<Value>

  // ----- encoding -----------------------------------------------------------

  /** A block is left out when it is empty. */
  function Blocks(number: nat, octets: bytes): seq<Field> {
    if octets == [] then [] else [Block(number, octets)]
  }

  function TextBlocks(number: nat, texts: seq<bytes>): seq<Field> {
    if texts == [] then [] else Blocks(number, texts[0]) + TextBlocks(number, texts[1..])
  }

  function FieldsOf(v: Codec<nat>, spec: Spec, x: Value): seq<Field>
    decreases spec, 0
  {
    match spec.kind
    case Unsigned => if x.Number? && x.n != 0 then [Varint(spec.number, Mask64(x.n))] else []
    case Signed => if x.Number? && x.n != 0 then [Varint(spec.number, Mask64(x.n))] else []
    case Raw => if x.Octets? then Blocks(spec.number, x.octets) else []
    case Text => if x.Octets? then Blocks(spec.number, x.octets) else []
    case Texts => if x.List? then TextBlocks(spec.number, x.texts) else []
    case Message(schema) =>
      if x.Sub? && x.sub.Some? then Blocks(spec.number, Encode(v, schema, x.sub.value)) else []
    case Messages(schema) => if x.Subs? then SubBlocks(v, schema, spec.number, x.subs) else []
  }

  function SubBlocks(v: Codec<nat>, schema: Schema, number: nat, subs: seq<Record>): seq<Field>
    decreases schema, 3, |subs|
  {
    if subs == [] then []
    else Blocks(number, Encode(v, schema, subs[0])) + SubBlocks(v, schema, number, subs[1..])
  }

  function ToFields(v: Codec<nat>, schema: Schema, m: Record): seq<Field>
    decreases schema, 1
  {
    if schema == [] || m == [] then []
    else FieldsOf(v, schema[0], m[0]) + ToFields(v, schema[1..], m[1..])
  }

  function Encode(v: Codec<nat>, schema: Schema, m: Record): bytes
    decreases schema, 2
  {
    PrintFields(v, ToFields(v, schema, m))
  }

  // ----- decoding -----------------------------------------------------------

  function Default(kind: Kind): Value {
    match kind
    case Unsigned => Number(0)
    case Signed => Number(0)
    case Raw => Octets([])
    case Text => Octets([])
    case Texts => List([])
    case Message(_) => Sub(None)
    case Messages(_) => Subs([])
  }

  function Defaults(schema: Schema): (r: Record)
    ensures |r| == |schema|
  {
    if schema == [] then [] else [Default(schema[0].kind)] + Defaults(schema[1..])
  }

  /** Numbers travel as varints and everything else as blocks. */
  predicate Carries(spec: Spec, f: Field) {
    f.number == spec.number
    && if spec.kind.Unsigned? || spec.kind.Signed? then f.Varint? else f.Block?
  }

  function Find(schema: Schema, f: Field): (i: nat)
    ensures i <= |schema|
  {
    if schema == [] || Carries(schema[0], f) then 0 else 1 + Find(schema[1..], f)
  }

  /** A single field replaces what was there; a repeated one is appended. */
  function Merge(v: Codec<nat>, spec: Spec, x: Value, f: Field): Option<Value>
    requires Inverts(v) && Carries(spec, f)
    decreases spec, 0
  {
    match spec.kind
    case Unsigned => Some(Number(f.value))
    case Signed => Some(Number(Signed64(f.value)))
    case Raw => Some(Octets(f.octets))
    case Text => if Utf8.Valid(f.octets) then Some(Octets(f.octets)) else None
    case Texts =>
      if Utf8.Valid(f.octets) then Some(List((if x.List? then x.texts else []) + [f.octets])) else None
    case Message(schema) => var m :- Decode(v, schema, f.octets); Some(Sub(Some(m)))
    case Messages(schema) =>
      var m :- Decode(v, schema, f.octets);
      Some(Subs((if x.Subs? then x.subs else []) + [m]))
  }

  function Update(v: Codec<nat>, schema: Schema, m: Record, f: Field): (r: Option<Record>)
    requires Inverts(v) && |m| == |schema|
    ensures r.Some? ==> |r.value| == |schema|
    decreases schema, 1
  {
    var i := Find(schema, f);
    if i == |schema| then Some(m) else
    FindCarries(schema, f);
    var x :- Merge(v, schema[i], m[i], f);
    Some(m[i := x])
  }

  lemma FindCarries(schema: Schema, f: Field)
    ensures Find(schema, f) < |schema| ==> Carries(schema[Find(schema, f)], f)
  {
  }

  function Fold(v: Codec<nat>, schema: Schema, m: Record, fields: seq<Field>): (r: Option<Record>)
    requires Inverts(v) && |m| == |schema|
    ensures r.Some? ==> |r.value| == |schema|
    decreases schema, 2, |fields|
  {
    if fields == [] then Some(m) else
    var next :- Update(v, schema, m, fields[0]);
    Fold(v, schema, next, fields[1..])
  }

  function Decode(v: Codec<nat>, schema: Schema, data: bytes): Option<Record>
    requires Inverts(v)
    decreases schema, 3
  {
    var fields :- Split(v, data, 0);
    Fold(v, schema, Defaults(schema), fields)
  }

  // ----- the loops ----------------------------------------------------------

  lemma {:induction false} PrintFieldsAppend(v: Codec<nat>, a: seq<Field>, b: seq<Field>)
    ensures PrintFields(v, a + b) == PrintFields(v, a) + PrintFields(v, b)
  {
    if a == [] {
      assert a + b == b;
    } else {
      assert (a + b)[0] == a[0] && (a + b)[1..] == a[1..] + b;
      PrintFieldsAppend(v, a[1..], b);
    }
  }

  /** The fields of one entry after another are appended to the output. */
  method EncodeMessage(v: Codec<nat>, schema: Schema, m: Record) returns (out: bytes)
    requires |m| == |schema|
    ensures out == Encode(v, schema, m)
  {
    out := [];
    var i := 0;
    while i < |schema|
      invariant i <= |schema|
      invariant out + PrintFields(v, ToFields(v, schema[i..], m[i..])) == Encode(v, schema, m)
    {
      EncodeEntry(v, schema, m, i, out);
      out := out + PrintFields(v, FieldsOf(v, schema[i], m[i]));
      i := i + 1;
    }
    assert PrintFields(v, ToFields(v, schema[i..], m[i..])) == [];
  }

  lemma EncodeEntry(v: Codec<nat>, schema: Schema, m: Record, i: nat, out: bytes)
    requires |m| == |schema| && i < |schema|
    ensures out + PrintFields(v, ToFields(v, schema[i..], m[i..]))
            == out + PrintFields(v, FieldsOf(v, schema[i], m[i]))
               + PrintFields(v, ToFields(v, schema[i + 1..], m[i + 1..]))
  {
    var rest := ToFields(v, schema[i + 1..], m[i + 1..]);
    assert schema[i..][1..] == schema[i + 1..] && m[i..][1..] == m[i + 1..];
    PrintFieldsAppend(v, FieldsOf(v, schema[i], m[i]), rest);
  }

  /** Each field found updates the message under construction. */
  method DecodeMessage(v: Codec<nat>, schema: Schema, data: bytes) returns (r: Option<Record>)
    requires Inverts(v)
    ensures r == Decode(v, schema, data)
  {
    var fields := Fields(v, data);
    if fields.None? {
      return None;
    }
    var m := Defaults(schema);
    var i := 0;
    while i < |fields.value|
      invariant i <= |fields.value| && |m| == |schema|
      invariant Fold(v, schema, Defaults(schema), fields.value) == Fold(v, schema, m, fields.value[i..])
    {
      var next := Update(v, schema, m, fields.value[i]);
      assert fields.value[i..][1..] == fields.value[i + 1..];
      if next.None? {
        return None;
      }
      m := next.value;
      i := i + 1;
    }
    return Some(m);
  }
}
