/** What decoding makes of any fields at all: unknown, repeated, out of order or of the wrong type. */
module DecodedMessages {
  import opened Bytes
  import opened Codecs
  import opened Protobuf
  import opened Messages
  import opened MessageRoundTrip
  import Utf8

  // ----- the fields of an entry ---------------------------------------------

  /** The field has the entry's number, and the wire type of its kind. */
  predicate Bears(spec: Spec, f: Field) {
    f.number == spec.number && if spec.kind.Unsigned? || spec.kind.Signed? then f.Varint? else f.Block?
  }

  function Chosen(spec: Spec, fields: seq<Field>): seq<Field> {
    if fields == [] then []
    else
      var f := fields[|fields| - 1];
      Chosen(spec, fields[..|fields| - 1]) + if Bears(spec, f) then [f] else []
  }

  /** Texts are in UTF-8 and submessages can be decoded. */
  predicate Acceptable(v: Codec<nat>, spec: Spec, f: Field)
    requires Inverts(v) && Bears(spec, f)
  {
    match spec.kind
    case Unsigned => true
    case Signed => true
    case Raw => true
    case Text => Utf8.Valid(f.octets)
    case Texts => Utf8.Valid(f.octets)
    case Message(schema) => Decode(v, schema, f.octets).Some?
    case Messages(schema) => Decode(v, schema, f.octets).Some?
  }

  /** The number with bit 63 taken for its sign. */
  function TwosComplement(n: nat): int {
    if n / 0x8000_0000_0000_0000 % 2 == 1 then n - 0x1_0000_0000_0000_0000 else n
  }

  function NumberOf(chosen: seq<Field>): nat {
    if chosen != [] && chosen[|chosen| - 1].Varint? then chosen[|chosen| - 1].value else 0
  }

  function OctetsOf(f: Field): bytes {
    if f.Varint? then [] else f.octets
  }

  function LastOctets(chosen: seq<Field>): bytes {
    if chosen == [] then [] else OctetsOf(chosen[|chosen| - 1])
  }

  /** The last field decides a single entry; a repeated one has an element for each field, in order. */
  ghost predicate EntryIs(v: Codec<nat>, spec: Spec, chosen: seq<Field>, x: Value)
    requires Inverts(v)
  {
    match spec.kind
    case Unsigned => x == Number(NumberOf(chosen))
    case Signed => x == Number(TwosComplement(NumberOf(chosen)))
    case Raw => x == Octets(LastOctets(chosen))
    case Text => x == Octets(LastOctets(chosen))
    case Texts =>
      x.List? && |x.texts| == |chosen| && forall i :: 0 <= i < |chosen| ==> x.texts[i] == OctetsOf(chosen[i])
    case Message(schema) =>
      x.Sub? && x.sub == if chosen == [] then None else Decode(v, schema, LastOctets(chosen))
    case Messages(schema) =>
      x.Subs? && |x.subs| == |chosen|
      && forall i :: 0 <= i < |chosen| ==> Decode(v, schema, OctetsOf(chosen[i])) == Some(x.subs[i])
  }

  // ----- one field ----------------------------------------------------------

  lemma MergeExactly(v: Codec<nat>, spec: Spec, chosen: seq<Field>, x: Value, f: Field)
    requires Inverts(v) && Bears(spec, f) && EntryIs(v, spec, chosen, x)
    ensures var r := Merge(v, spec, x, f);
            (r.Some? <==> Acceptable(v, spec, f)) && (r.Some? ==> EntryIs(v, spec, chosen + [f], r.value))
  {
    assert (chosen + [f])[|chosen|] == f;
  }

  lemma {:induction false} DefaultsAt(v: Codec<nat>, schema: Schema, i: nat)
    requires Inverts(v) && i < |schema|
    ensures EntryIs(v, schema[i], [], Defaults(schema)[i])
  {
    if i > 0 {
      DefaultsAt(v, schema[1..], i - 1);
    }
  }

  /** A field reaches the entry that bears it, or none. */
  lemma {:induction false} FindExactly(schema: Schema, f: Field)
    ensures forall i :: 0 <= i < Find(schema, f) ==> !Bears(schema[i], f)
    ensures Find(schema, f) < |schema| ==> Bears(schema[Find(schema, f)], f)
    decreases |schema|
  {
    if schema != [] && !Carries(schema[0], f) {
      FindExactly(schema[1..], f);
      forall i | 0 <= i < Find(schema, f) ensures !Bears(schema[i], f) {
        assert i > 0 ==> schema[i] == schema[1..][i - 1];
      }
    }
  }

  lemma OneBearer(v: Codec<nat>, schema: Schema, f: Field)
    requires Numbered(v, schema)
    ensures forall i :: 0 <= i < |schema| && Bears(schema[i], f) ==> i == Find(schema, f)
  {
    forall i | 0 <= i < |schema| && Bears(schema[i], f) ensures i == Find(schema, f) {
      FindAt(v, schema, i, f);
    }
  }

  // ----- all fields ---------------------------------------------------------

  ghost predicate AllAcceptable(v: Codec<nat>, schema: Schema, fields: seq<Field>)
    requires Inverts(v)
  {
    forall i, j {:trigger Bears(schema[i], fields[j])} :: 0 <= i < |schema| && 0 <= j < |fields| ==>
      Bears(schema[i], fields[j]) ==> Acceptable(v, schema[i], fields[j])
  }

  ghost predicate Entries(v: Codec<nat>, schema: Schema, fields: seq<Field>, m: Record)
    requires Inverts(v)
  {
    |m| == |schema|
    && forall i :: 0 <= i < |schema| ==> EntryIs(v, schema[i], Chosen(schema[i], fields), m[i])
  }

  lemma AcceptableNext(v: Codec<nat>, schema: Schema, front: seq<Field>, f: Field)
    requires Inverts(v)
    ensures AllAcceptable(v, schema, front + [f])
            <==> AllAcceptable(v, schema, front)
                 && forall i :: 0 <= i < |schema| && Bears(schema[i], f) ==> Acceptable(v, schema[i], f)
  {
    var all := front + [f];
    if AllAcceptable(v, schema, all) {
      forall i, j | 0 <= i < |schema| && 0 <= j < |front| && Bears(schema[i], front[j])
        ensures Acceptable(v, schema[i], front[j])
      {
        assert all[j] == front[j];
      }
      forall i | 0 <= i < |schema| && Bears(schema[i], f) ensures Acceptable(v, schema[i], f) {
        assert all[|front|] == f;
      }
    }
  }

  lemma ChosenNext(spec: Spec, front: seq<Field>, f: Field)
    ensures Chosen(spec, front + [f]) == Chosen(spec, front) + if Bears(spec, f) then [f] else []
  {
    assert (front + [f])[..|front|] == front;
  }

  lemma UpdateVerdict(v: Codec<nat>, schema: Schema, front: seq<Field>, m: Record, f: Field)
    requires Inverts(v) && Numbered(v, schema) && Entries(v, schema, front, m)
    ensures Update(v, schema, m, f).Some?
            <==> forall i :: 0 <= i < |schema| && Bears(schema[i], f) ==> Acceptable(v, schema[i], f)
  {
    var k := Find(schema, f);
    FindExactly(schema, f);
    OneBearer(v, schema, f);
    if k < |schema| {
      MergeExactly(v, schema[k], Chosen(schema[k], front), m[k], f);
    }
  }

  lemma EntryAfter(v: Codec<nat>, schema: Schema, front: seq<Field>, m: Record, f: Field, i: nat)
    requires Inverts(v) && Numbered(v, schema) && Entries(v, schema, front, m) && i < |schema|
    requires Update(v, schema, m, f).Some?
    ensures EntryIs(v, schema[i], Chosen(schema[i], front + [f]), Update(v, schema, m, f).value[i])
  {
    FindExactly(schema, f);
    OneBearer(v, schema, f);
    ChosenNext(schema[i], front, f);
    if i == Find(schema, f) {
      MergeExactly(v, schema[i], Chosen(schema[i], front), m[i], f);
    } else {
      assert Chosen(schema[i], front) + [] == Chosen(schema[i], front);
    }
  }

  lemma UpdateExactly(v: Codec<nat>, schema: Schema, front: seq<Field>, m: Record, f: Field)
    requires Inverts(v) && Numbered(v, schema) && Entries(v, schema, front, m)
    ensures var r := Update(v, schema, m, f);
            (r.Some? <==> forall i :: 0 <= i < |schema| && Bears(schema[i], f) ==> Acceptable(v, schema[i], f))
            && (r.Some? ==> Entries(v, schema, front + [f], r.value))
  {
    UpdateVerdict(v, schema, front, m, f);
    var r := Update(v, schema, m, f);
    if r.Some? {
      forall i | 0 <= i < |schema|
        ensures EntryIs(v, schema[i], Chosen(schema[i], front + [f]), r.value[i])
      {
        EntryAfter(v, schema, front, m, f, i);
      }
    }
  }

  lemma FoldNext(v: Codec<nat>, schema: Schema, m: Record, front: seq<Field>, f: Field)
    requires Inverts(v) && |m| == |schema|
    ensures Fold(v, schema, m, front + [f])
            == match Fold(v, schema, m, front)
               case Some(next) => Update(v, schema, next, f)
               case None => None
  {
    FoldAppend(v, schema, m, front, [f]);
    var before := Fold(v, schema, m, front);
    if before.Some? {
      assert [f][1..] == [];
      var next := Update(v, schema, before.value, f);
      assert next.Some? ==> Fold(v, schema, next.value, []) == next;
    }
  }

  /**
   Any sequence of fields is accepted exactly when every field that some entry bears is acceptable; each entry is then
   what its own fields say, whatever other fields there are and wherever they stand.
   */
  lemma {:induction false} FoldExactly(v: Codec<nat>, schema: Schema, fields: seq<Field>)
    requires Inverts(v) && Numbered(v, schema)
    ensures var r := Fold(v, schema, Defaults(schema), fields);
            (r.Some? <==> AllAcceptable(v, schema, fields)) && (r.Some? ==> Entries(v, schema, fields, r.value))
    decreases |fields|
  {
    if fields == [] {
      forall i | 0 <= i < |schema| ensures EntryIs(v, schema[i], [], Defaults(schema)[i]) {
        DefaultsAt(v, schema, i);
      }
    } else {
      var front, f := fields[..|fields| - 1], fields[|fields| - 1];
      assert fields == front + [f];
      FoldExactly(v, schema, front);
      FoldNext(v, schema, Defaults(schema), front, f);
      AcceptableNext(v, schema, front, f);
      var before := Fold(v, schema, Defaults(schema), front);
      if before.Some? {
        UpdateExactly(v, schema, front, before.value, f);
      }
    }
  }

  /** The same of octets: they are accepted exactly when they split into fields that are. */
  lemma DecodedExactly(v: Codec<nat>, schema: Schema, data: bytes)
    requires Inverts(v) && Numbered(v, schema)
    ensures var fields, r := Split(v, data, 0), Decode(v, schema, data);
            (r.Some? <==> fields.Some? && AllAcceptable(v, schema, fields.value))
            && (r.Some? ==> Entries(v, schema, fields.value, r.value))
  {
    var fields := Split(v, data, 0);
    if fields.Some? {
      FoldExactly(v, schema, fields.value);
    }
  }

  // ----- fields that are refused --------------------------------------------

  /** Field number 0, a wire type other than 0, 1, 2 and 5, and a field that goes past the end are refused. */
  lemma BadFieldsRefused(v: Codec<nat>, data: bytes, offset: nat, key: nat, next: nat)
    requires Inverts(v) && v.read(data, offset) == Some((key, next))
    ensures key < 8 ==> ReadField(v, data, offset).None?
    ensures key % 8 !in {0, 1, 2, 5} ==> ReadField(v, data, offset).None?
    ensures ReadField(v, data, offset).Some? && key % 8 != 0 ==> ReadField(v, data, offset).value.1 <= |data|
    ensures ReadField(v, data, offset).Some? ==>
              var f := ReadField(v, data, offset).value.0;
              f.number == key / 8 && (f.Varint? <==> key % 8 == 0) && (f.Block? <==> key % 8 == 2)
              && (f.Fixed? ==> |f.octets| == if key % 8 == 1 then 8 else 4)
  {
  }
}
