/** Decoding what was encoded gives the message back, without the parts that encode to nothing. */
module MessageRoundTrip {
  import opened Bytes
  import opened Codecs
  import opened Protobuf
  import opened Messages
  import Utf8

  // ----- well-formed tables and messages ------------------------------------

  predicate Numbered(v: Codec<nat>, schema: Schema) {
    (forall i :: 0 <= i < |schema| ==>
       schema[i].number > 0 && v.fits(8 * schema[i].number) && v.fits(8 * schema[i].number + 2))
    && forall i, j :: 0 <= i < j < |schema| ==> schema[i].number != schema[j].number
  }

  predicate Good(v: Codec<nat>, schema: Schema)
    decreases schema
  {
    Numbered(v, schema)
    && forall i :: 0 <= i < |schema| ==> GoodSpec(v, schema[i])
  }

  predicate GoodSpec(v: Codec<nat>, spec: Spec)
    decreases spec
  {
    match spec.kind
    case Message(schema) => Good(v, schema)
    case Messages(schema) => Good(v, schema)
    case _ => true
  }

  predicate FitsText(v: Codec<nat>, text: bytes) {
    Utf8.Valid(text) && v.fits(|text|)
  }

  /** Unsigned numbers that can be read back, signed ones of 64 bits, and texts in UTF-8. */
  predicate FitsValue(v: Codec<nat>, spec: Spec, x: Value)
    decreases spec
  {
    match spec.kind
    case Unsigned => x.Number? && x.n >= 0 && v.fits(x.n)
    case Signed => x.Number? && -TWO_63 <= x.n < TWO_63 && v.fits(Mask64(x.n))
    case Raw => x.Octets? && v.fits(|x.octets|)
    case Text => x.Octets? && FitsText(v, x.octets)
    case Texts => x.List? && forall i :: 0 <= i < |x.texts| ==> FitsText(v, x.texts[i])
    case Message(schema) => x.Sub? && (x.sub.Some? ==> FitsSub(v, schema, x.sub.value))
    case Messages(schema) => x.Subs? && forall i :: 0 <= i < |x.subs| ==> FitsSub(v, schema, x.subs[i])
  }

  predicate FitsSub(v: Codec<nat>, schema: Schema, m: Record)
    decreases schema, 1
  {
    Fits(v, schema, m) && v.fits(|Encode(v, schema, m)|)
  }

  predicate Fits(v: Codec<nat>, schema: Schema, m: Record)
    decreases schema, 0
  {
    |m| == |schema| && forall i :: 0 <= i < |schema| ==> FitsValue(v, schema[i], m[i])
  }

  // ----- what a message means -----------------------------------------------

  function NonEmpty(texts: seq<bytes>): seq<bytes> {
    if texts == [] then []
    else if texts[0] == [] then NonEmpty(texts[1..])
    else [texts[0]] + NonEmpty(texts[1..])
  }

  /** Present submessages, texts and repeated submessages that encode to nothing are dropped. */
  function NormaliseValue(v: Codec<nat>, spec: Spec, x: Value): Value
    decreases spec
  {
    match spec.kind
    case Texts => if x.List? then List(NonEmpty(x.texts)) else x
    case Message(schema) =>
      if !x.Sub? || x.sub.None? then x
      else if Encode(v, schema, x.sub.value) == [] then Sub(None)
      else Sub(Some(Normalise(v, schema, x.sub.value)))
    case Messages(schema) => if x.Subs? then Subs(NormaliseAll(v, schema, x.subs)) else x
    case _ => x
  }

  function NormaliseAll(v: Codec<nat>, schema: Schema, subs: seq<Record>): seq<Record>
    decreases schema, 1, |subs|
  {
    if subs == [] then []
    else if Encode(v, schema, subs[0]) == [] then NormaliseAll(v, schema, subs[1..])
    else [Normalise(v, schema, subs[0])] + NormaliseAll(v, schema, subs[1..])
  }

  function Normalise(v: Codec<nat>, schema: Schema, m: Record): (r: Record)
    ensures |schema| == |m| ==> |r| == |m|
    decreases schema, 0
  {
    if schema == [] || m == [] then []
    else [NormaliseValue(v, schema[0], m[0])] + Normalise(v, schema[1..], m[1..])
  }

  // ----- fields of one entry ------------------------------------------------

  predicate AllCarried(spec: Spec, fields: seq<Field>) {
    forall i :: 0 <= i < |fields| ==> Carries(spec, fields[i])
  }

  lemma {:induction false} TextBlocksCarried(v: Codec<nat>, spec: Spec, texts: seq<bytes>)
    requires spec.kind.Texts? && spec.number > 0 && v.fits(8 * spec.number + 2)
    requires forall i :: 0 <= i < |texts| ==> FitsText(v, texts[i])
    ensures AllCarried(spec, TextBlocks(spec.number, texts))
    ensures AllPrintable(v, TextBlocks(spec.number, texts))
  {
    if texts != [] {
      TextBlocksCarried(v, spec, texts[1..]);
    }
  }

  lemma {:induction false} SubBlocksCarried(v: Codec<nat>, spec: Spec, schema: Schema, subs: seq<Record>)
    requires spec.kind == Messages(schema) && spec.number > 0 && v.fits(8 * spec.number + 2)
    requires forall i :: 0 <= i < |subs| ==> FitsSub(v, schema, subs[i])
    ensures AllCarried(spec, SubBlocks(v, schema, spec.number, subs))
    ensures AllPrintable(v, SubBlocks(v, schema, spec.number, subs))
    decreases |subs|
  {
    if subs != [] {
      assert FitsSub(v, schema, subs[0]);
      SubBlocksCarried(v, spec, schema, subs[1..]);
    }
  }

  /** The fields of an entry carry its number and its wire type, and can be printed. */
  lemma FieldsCarried(v: Codec<nat>, spec: Spec, x: Value)
    requires spec.number > 0 && v.fits(8 * spec.number) && v.fits(8 * spec.number + 2)
    requires FitsValue(v, spec, x)
    ensures AllCarried(spec, FieldsOf(v, spec, x)) && AllPrintable(v, FieldsOf(v, spec, x))
  {
    match spec.kind
    case Unsigned =>
    case Signed =>
    case Raw =>
    case Text =>
    case Texts => TextBlocksCarried(v, spec, x.texts);
    case Message(schema) => if x.sub.Some? { assert FitsSub(v, schema, x.sub.value); }
    case Messages(schema) => SubBlocksCarried(v, spec, schema, x.subs);
  }

  lemma {:induction false} ToFieldsPrintable(v: Codec<nat>, schema: Schema, m: Record)
    requires Numbered(v, schema) && Fits(v, schema, m)
    ensures AllPrintable(v, ToFields(v, schema, m))
    decreases |schema|
  {
    if schema != [] {
      FieldsCarried(v, schema[0], m[0]);
      FitsTail(v, schema, m);
      ToFieldsPrintable(v, schema[1..], m[1..]);
    }
  }

  lemma FitsTail(v: Codec<nat>, schema: Schema, m: Record)
    requires schema != [] && Fits(v, schema, m)
    ensures Fits(v, schema[1..], m[1..])
  {
    forall i | 0 <= i < |schema[1..]| ensures FitsValue(v, schema[1..][i], m[1..][i]) {
      assert FitsValue(v, schema[i + 1], m[i + 1]);
    }
  }

  // ----- merging the fields of one entry ------------------------------------

  function MergeAll(v: Codec<nat>, spec: Spec, x: Value, fields: seq<Field>): Option<Value>
    requires Inverts(v) && AllCarried(spec, fields)
    decreases |fields|
  {
    if fields == [] then Some(x) else
    var next :- Merge(v, spec, x, fields[0]);
    MergeAll(v, spec, next, fields[1..])
  }

  /** Fields that one entry carries change nothing but that entry. */
  lemma {:induction false} FoldOne(
    v: Codec<nat>, schema: Schema, k: nat, m: Record, fields: seq<Field>)
    requires Inverts(v) && |m| == |schema| && k < |schema| && AllCarried(schema[k], fields) && Numbered(v, schema)
    ensures Fold(v, schema, m, fields)
            == match MergeAll(v, schema[k], m[k], fields)
               case Some(x) => Some(m[k := x])
               case None => None
    decreases |fields|
  {
    if fields == [] {
      assert m[k := m[k]] == m;
    } else {
      FindAt(v, schema, k, fields[0]);
      var next := Merge(v, schema[k], m[k], fields[0]);
      if next.Some? {
        FoldOne(v, schema, k, m[k := next.value], fields[1..]);
        var last := MergeAll(v, schema[k], next.value, fields[1..]);
        assert last.Some? ==> m[k := next.value][k := last.value] == m[k := last.value];
      }
    }
  }

  lemma {:induction false} FindAt(v: Codec<nat>, schema: Schema, k: nat, f: Field)
    requires k < |schema| && Carries(schema[k], f) && Numbered(v, schema)
    ensures Find(schema, f) == k
    decreases k
  {
    if k > 0 {
      assert schema[0].number != schema[k].number;
      NumberedTail(v, schema);
      FindAt(v, schema[1..], k - 1, f);
    }
  }

  lemma NumberedTail(v: Codec<nat>, schema: Schema)
    requires schema != [] && Numbered(v, schema)
    ensures Numbered(v, schema[1..])
  {
    forall i | 0 <= i < |schema[1..]|
      ensures schema[1..][i].number > 0 && v.fits(8 * schema[1..][i].number) && v.fits(8 * schema[1..][i].number + 2)
    {
      assert schema[1..][i] == schema[i + 1];
    }
    forall i, j | 0 <= i < j < |schema[1..]| ensures schema[1..][i].number != schema[1..][j].number {
      assert schema[1..][i] == schema[i + 1] && schema[1..][j] == schema[j + 1];
    }
  }

  /** The first field is merged first. */
  lemma {:induction false} MergeCons(v: Codec<nat>, spec: Spec, x: Value, f: Field, rest: seq<Field>)
    requires Inverts(v) && AllCarried(spec, [f] + rest)
    ensures Carries(spec, f) && AllCarried(spec, rest)
    ensures MergeAll(v, spec, x, [f] + rest)
            == match Merge(v, spec, x, f)
               case Some(next) => MergeAll(v, spec, next, rest)
               case None => None
  {
    var fields := [f] + rest;
    assert fields[0] == f && fields[1..] == rest;
    RestCarried(spec, f, rest);
  }

  lemma MergeSub(v: Codec<nat>, spec: Spec, schema: Schema, done: seq<Record>, octets: bytes, m: Record)
    requires Inverts(v) && spec.kind == Messages(schema) && Decode(v, schema, octets) == Some(m)
    ensures Merge(v, spec, Subs(done), Block(spec.number, octets)) == Some(Subs(done + [m]))
  {
  }

  lemma {:induction false} MergeTexts(v: Codec<nat>, spec: Spec, done: seq<bytes>, texts: seq<bytes>)
    requires Inverts(v) && spec.kind.Texts? && AllCarried(spec, TextBlocks(spec.number, texts))
    requires forall i :: 0 <= i < |texts| ==> FitsText(v, texts[i])
    ensures MergeAll(v, spec, List(done), TextBlocks(spec.number, texts)) == Some(List(done + NonEmpty(texts)))
    decreases |texts|
  {
    if texts == [] {
      assert done + [] == done;
    } else {
      var rest := TextBlocks(spec.number, texts[1..]);
      if texts[0] == [] {
        assert TextBlocks(spec.number, texts) == rest;
        MergeTexts(v, spec, done, texts[1..]);
      } else {
        MergeCons(v, spec, List(done), Block(spec.number, texts[0]), rest);
        MergeTexts(v, spec, done + [texts[0]], texts[1..]);
        assert done + [texts[0]] + NonEmpty(texts[1..]) == done + NonEmpty(texts);
      }
    }
  }

  predicate Returns(v: Codec<nat>, schema: Schema, m: Record)
    requires Inverts(v)
  {
    Decode(v, schema, Encode(v, schema, m)) == Some(Normalise(v, schema, m))
  }

  lemma {:induction false} MergeSubs(
    v: Codec<nat>, spec: Spec, schema: Schema, done: seq<Record>, subs: seq<Record>)
    requires Inverts(v) && spec.kind == Messages(schema) && AllCarried(spec, SubBlocks(v, schema, spec.number, subs))
    requires forall i :: 0 <= i < |subs| ==> Returns(v, schema, subs[i])
    ensures MergeAll(v, spec, Subs(done), SubBlocks(v, schema, spec.number, subs))
            == Some(Subs(done + NormaliseAll(v, schema, subs)))
    decreases |subs|
  {
    if subs == [] {
      assert done + [] == done;
    } else {
      var rest := SubBlocks(v, schema, spec.number, subs[1..]);
      assert Returns(v, schema, subs[0]);
      assert forall i :: 0 <= i < |subs[1..]| ==> subs[1..][i] == subs[i + 1];
      if Encode(v, schema, subs[0]) == [] {
        SubBlocksSkip(v, schema, spec.number, subs);
        MergeSubs(v, spec, schema, done, subs[1..]);
      } else {
        var m := Normalise(v, schema, subs[0]);
        SubBlocksCons(v, schema, spec.number, subs);
        RestCarried(spec, Block(spec.number, Encode(v, schema, subs[0])), rest);
        MergeSubs(v, spec, schema, done + [m], subs[1..]);
        MergeFirstSub(v, spec, schema, done, Encode(v, schema, subs[0]), m, rest, NormaliseAll(v, schema, subs[1..]));
      }
    }
  }

  lemma SubBlocksSkip(v: Codec<nat>, schema: Schema, number: nat, subs: seq<Record>)
    requires subs != [] && Encode(v, schema, subs[0]) == []
    ensures SubBlocks(v, schema, number, subs) == SubBlocks(v, schema, number, subs[1..])
    ensures NormaliseAll(v, schema, subs) == NormaliseAll(v, schema, subs[1..])
  {
  }

  lemma SubBlocksCons(v: Codec<nat>, schema: Schema, number: nat, subs: seq<Record>)
    requires subs != [] && Encode(v, schema, subs[0]) != []
    ensures SubBlocks(v, schema, number, subs)
            == [Block(number, Encode(v, schema, subs[0]))] + SubBlocks(v, schema, number, subs[1..])
    ensures NormaliseAll(v, schema, subs)
            == [Normalise(v, schema, subs[0])] + NormaliseAll(v, schema, subs[1..])
  {
  }

  lemma RestCarried(spec: Spec, f: Field, rest: seq<Field>)
    requires AllCarried(spec, [f] + rest)
    ensures AllCarried(spec, rest)
  {
    forall i | 0 <= i < |rest| ensures Carries(spec, rest[i]) {
      assert Carries(spec, ([f] + rest)[i + 1]);
    }
  }

  lemma MergeFirstSub(
    v: Codec<nat>, spec: Spec, schema: Schema, done: seq<Record>, octets: bytes, m: Record, rest: seq<Field>,
    more: seq<Record>)
    requires Inverts(v) && spec.kind == Messages(schema) && Decode(v, schema, octets) == Some(m)
    requires AllCarried(spec, [Block(spec.number, octets)] + rest) && AllCarried(spec, rest)
    requires MergeAll(v, spec, Subs(done + [m]), rest) == Some(Subs(done + [m] + more))
    ensures MergeAll(v, spec, Subs(done), [Block(spec.number, octets)] + rest) == Some(Subs(done + ([m] + more)))
  {
    MergeSub(v, spec, schema, done, octets, m);
    MergeCons(v, spec, Subs(done), Block(spec.number, octets), rest);
    assert done + [m] + more == done + ([m] + more);
  }

  lemma SignedBack(n: int)
    requires -TWO_63 <= n < TWO_63
    ensures Signed64(Mask64(n)) == n
  {
    SignedMasked(n);
  }

  /** Merging the fields of an entry into its default gives the entry's meaning. */
  lemma {:induction false} MergeFields(v: Codec<nat>, spec: Spec, x: Value)
    requires Inverts(v) && GoodSpec(v, spec) && FitsValue(v, spec, x) && AllCarried(spec, FieldsOf(v, spec, x))
    ensures MergeAll(v, spec, Default(spec.kind), FieldsOf(v, spec, x)) == Some(NormaliseValue(v, spec, x))
    decreases spec, 0
  {
    var fields := FieldsOf(v, spec, x);
    if |fields| == 1 {
      MergeOne(v, spec, Default(spec.kind), fields[0]);
      assert fields == [fields[0]];
    }
    match spec.kind
    case Unsigned =>
    case Signed => SignedBack(x.n);
    case Raw =>
    case Text =>
    case Texts =>
      MergeTexts(v, spec, [], x.texts);
      assert [] + NonEmpty(x.texts) == NonEmpty(x.texts);
    case Message(schema) =>
      if x.sub.Some? && Encode(v, schema, x.sub.value) != [] {
        RoundTrip(v, schema, x.sub.value);
      }
    case Messages(schema) =>
      forall i | 0 <= i < |x.subs| ensures Returns(v, schema, x.subs[i]) {
        assert FitsSub(v, schema, x.subs[i]);
        RoundTrip(v, schema, x.subs[i]);
      }
      MergeSubs(v, spec, schema, [], x.subs);
      assert [] + NormaliseAll(v, schema, x.subs) == NormaliseAll(v, schema, x.subs);
  }

  lemma MergeOne(v: Codec<nat>, spec: Spec, x: Value, f: Field)
    requires Inverts(v) && Carries(spec, f)
    ensures AllCarried(spec, [f]) && MergeAll(v, spec, x, [f]) == Merge(v, spec, x, f)
  {
    assert [f][1..] == [];
  }

  // ----- whole messages -----------------------------------------------------

  lemma {:induction false} FoldAppend(v: Codec<nat>, schema: Schema, m: Record, a: seq<Field>, b: seq<Field>)
    requires Inverts(v) && |m| == |schema|
    ensures Fold(v, schema, m, a + b)
            == match Fold(v, schema, m, a)
               case Some(next) => Fold(v, schema, next, b)
               case None => None
    decreases |a|
  {
    if a == [] {
      assert a + b == b;
    } else {
      assert (a + b)[0] == a[0] && (a + b)[1..] == a[1..] + b;
      var next := Update(v, schema, m, a[0]);
      if next.Some? {
        FoldAppend(v, schema, next.value, a[1..], b);
      }
    }
  }

  /** The entries before `k` are decoded and the others are still at their defaults. */
  function Partly(v: Codec<nat>, schema: Schema, m: Record, k: nat): (r: Record)
    requires |m| == |schema| && k <= |schema|
    ensures |r| == |schema|
  {
    Normalise(v, schema, m)[..k] + Defaults(schema)[k..]
  }

  lemma {:induction false} NormaliseAt(v: Codec<nat>, schema: Schema, m: Record, k: nat)
    requires |m| == |schema| && k < |schema|
    ensures Normalise(v, schema, m)[k] == NormaliseValue(v, schema[k], m[k])
    ensures Defaults(schema)[k] == Default(schema[k].kind)
    decreases k
  {
    if k > 0 {
      NormaliseAt(v, schema[1..], m[1..], k - 1);
    }
  }

  /** The fields of entry `k` complete that entry. */
  lemma {:induction false} FoldEntry(v: Codec<nat>, schema: Schema, m: Record, k: nat)
    requires Inverts(v) && Good(v, schema) && Fits(v, schema, m) && k < |schema|
    ensures Fold(v, schema, Partly(v, schema, m, k), FieldsOf(v, schema[k], m[k]))
            == Some(Partly(v, schema, m, k + 1))
    decreases schema, 3
  {
    var partly := Partly(v, schema, m, k);
    assert FitsValue(v, schema[k], m[k]) && GoodSpec(v, schema[k]);
    NormaliseAt(v, schema, m, k);
    FieldsCarried(v, schema[k], m[k]);
    MergeFields(v, schema[k], m[k]);
    FoldOne(v, schema, k, partly, FieldsOf(v, schema[k], m[k]));
    assert partly[k := NormaliseValue(v, schema[k], m[k])] == Partly(v, schema, m, k + 1);
  }

  lemma {:induction false} FoldFrom(v: Codec<nat>, schema: Schema, m: Record, k: nat)
    requires Inverts(v) && Good(v, schema) && Fits(v, schema, m) && k <= |schema|
    ensures Fold(v, schema, Partly(v, schema, m, k), ToFields(v, schema[k..], m[k..]))
            == Some(Normalise(v, schema, m))
    decreases schema, 4, |schema| - k
  {
    if k == |schema| {
      assert Partly(v, schema, m, k) == Normalise(v, schema, m);
    } else {
      assert schema[k..][1..] == schema[k + 1..] && m[k..][1..] == m[k + 1..];
      FoldEntry(v, schema, m, k);
      FoldAppend(v, schema, Partly(v, schema, m, k), FieldsOf(v, schema[k], m[k]),
                 ToFields(v, schema[k + 1..], m[k + 1..]));
      FoldFrom(v, schema, m, k + 1);
    }
  }

  /** Decoding the encoding of any well-formed message gives its normal form. */
  lemma {:induction false} RoundTrip(v: Codec<nat>, schema: Schema, m: Record)
    requires Inverts(v) && Good(v, schema) && Fits(v, schema, m)
    ensures Decode(v, schema, Encode(v, schema, m)) == Some(Normalise(v, schema, m))
    decreases schema, 5
  {
    ToFieldsPrintable(v, schema, m);
    SplitPrinted(v, ToFields(v, schema, m));
    assert Partly(v, schema, m, 0) == Defaults(schema);
    assert schema[0..] == schema && m[0..] == m;
    FoldFrom(v, schema, m, 0);
  }

  // ----- encoding again -----------------------------------------------------

  lemma {:induction false} NonEmptyBlocks(number: nat, texts: seq<bytes>)
    ensures TextBlocks(number, NonEmpty(texts)) == TextBlocks(number, texts)
  {
    if texts != [] {
      NonEmptyBlocks(number, texts[1..]);
      if texts[0] != [] {
        assert ([texts[0]] + NonEmpty(texts[1..]))[1..] == NonEmpty(texts[1..]);
      }
    }
  }

  lemma {:induction false} NormalisedBlocks(v: Codec<nat>, schema: Schema, number: nat, subs: seq<Record>)
    ensures SubBlocks(v, schema, number, NormaliseAll(v, schema, subs)) == SubBlocks(v, schema, number, subs)
    decreases schema, 3, |subs|
  {
    if subs != [] {
      NormalisedBlocks(v, schema, number, subs[1..]);
      if Encode(v, schema, subs[0]) != [] {
        EncodeNormalised(v, schema, subs[0]);
        var rest := NormaliseAll(v, schema, subs[1..]);
        assert ([Normalise(v, schema, subs[0])] + rest)[1..] == rest;
      }
    }
  }

  lemma {:induction false} FieldsNormalised(v: Codec<nat>, spec: Spec, x: Value)
    ensures FieldsOf(v, spec, NormaliseValue(v, spec, x)) == FieldsOf(v, spec, x)
    decreases spec, 0
  {
    match spec.kind
    case Unsigned =>
    case Signed =>
    case Raw =>
    case Text =>
    case Texts => if x.List? { NonEmptyBlocks(spec.number, x.texts); }
    case Message(schema) => if x.Sub? && x.sub.Some? { EncodeNormalised(v, schema, x.sub.value); }
    case Messages(schema) => if x.Subs? { NormalisedBlocks(v, schema, spec.number, x.subs); }
  }

  lemma {:induction false} ToFieldsNormalised(v: Codec<nat>, schema: Schema, m: Record)
    ensures ToFields(v, schema, Normalise(v, schema, m)) == ToFields(v, schema, m)
    decreases schema, 1
  {
    if schema != [] && m != [] {
      FieldsNormalised(v, schema[0], m[0]);
      ToFieldsNormalised(v, schema[1..], m[1..]);
      var rest := Normalise(v, schema[1..], m[1..]);
      assert ([NormaliseValue(v, schema[0], m[0])] + rest)[1..] == rest;
    }
  }

  /** What normalising drops leaves no trace on the wire. */
  lemma {:induction false} EncodeNormalised(v: Codec<nat>, schema: Schema, m: Record)
    ensures Encode(v, schema, Normalise(v, schema, m)) == Encode(v, schema, m)
    decreases schema, 2
  {
    ToFieldsNormalised(v, schema, m);
  }

  /** Two well-formed messages have the same octets exactly when they have the same normal form. */
  lemma EncodeInjective(v: Codec<nat>, schema: Schema, a: Record, b: Record)
    requires Inverts(v) && Good(v, schema) && Fits(v, schema, a) && Fits(v, schema, b)
    ensures Encode(v, schema, a) == Encode(v, schema, b) <==> Normalise(v, schema, a) == Normalise(v, schema, b)
  {
    RoundTrip(v, schema, a);
    RoundTrip(v, schema, b);
    EncodeNormalised(v, schema, a);
    EncodeNormalised(v, schema, b);
  }

  // ----- normal forms -------------------------------------------------------

  lemma {:induction false} NonEmptyTwice(texts: seq<bytes>)
    ensures NonEmpty(NonEmpty(texts)) == NonEmpty(texts)
  {
    if texts != [] {
      NonEmptyTwice(texts[1..]);
      if texts[0] != [] {
        assert ([texts[0]] + NonEmpty(texts[1..]))[1..] == NonEmpty(texts[1..]);
      }
    }
  }

  lemma {:induction false} NormaliseAllTwice(v: Codec<nat>, schema: Schema, subs: seq<Record>)
    ensures NormaliseAll(v, schema, NormaliseAll(v, schema, subs)) == NormaliseAll(v, schema, subs)
    decreases schema, 3, |subs|
  {
    if subs != [] {
      NormaliseAllTwice(v, schema, subs[1..]);
      if Encode(v, schema, subs[0]) != [] {
        EncodeNormalised(v, schema, subs[0]);
        NormaliseTwice(v, schema, subs[0]);
        var rest := NormaliseAll(v, schema, subs[1..]);
        assert ([Normalise(v, schema, subs[0])] + rest)[1..] == rest;
      }
    }
  }

  lemma {:induction false} NormaliseValueTwice(v: Codec<nat>, spec: Spec, x: Value)
    ensures NormaliseValue(v, spec, NormaliseValue(v, spec, x)) == NormaliseValue(v, spec, x)
    decreases spec, 0
  {
    match spec.kind
    case Unsigned =>
    case Signed =>
    case Raw =>
    case Text =>
    case Texts => if x.List? { NonEmptyTwice(x.texts); }
    case Message(schema) =>
      if x.Sub? && x.sub.Some? {
        EncodeNormalised(v, schema, x.sub.value);
        NormaliseTwice(v, schema, x.sub.value);
      }
    case Messages(schema) => if x.Subs? { NormaliseAllTwice(v, schema, x.subs); }
  }

  /** A normal form is its own normal form. */
  lemma {:induction false} NormaliseTwice(v: Codec<nat>, schema: Schema, m: Record)
    ensures Normalise(v, schema, Normalise(v, schema, m)) == Normalise(v, schema, m)
    decreases schema, 1
  {
    if schema != [] && m != [] {
      NormaliseValueTwice(v, schema[0], m[0]);
      NormaliseTwice(v, schema[1..], m[1..]);
      var rest := Normalise(v, schema[1..], m[1..]);
      assert ([NormaliseValue(v, schema[0], m[0])] + rest)[1..] == rest;
    }
  }

  lemma NormaliseSet(v: Codec<nat>, schema: Schema, m: Record, k: nat, x: Value)
    requires |m| == |schema| && k < |schema|
    ensures Normalise(v, schema, m[k := x]) == Normalise(v, schema, m)[k := NormaliseValue(v, schema[k], x)]
  {
    var before, after := Normalise(v, schema, m), Normalise(v, schema, m[k := x]);
    forall i | 0 <= i < |schema|
      ensures after[i] == if i == k then NormaliseValue(v, schema[k], x) else before[i]
    {
      NormaliseAt(v, schema, m, i);
      NormaliseAt(v, schema, m[k := x], i);
    }
  }

  /** A submessage in normal form can stand for any submessage that has this normal form. */
  lemma EncodeSet(v: Codec<nat>, schema: Schema, m: Record, k: nat, inner: Schema, sub: Record)
    requires |m| == |schema| && k < |schema| && schema[k].kind == Message(inner)
    ensures Encode(v, schema, Normalise(v, schema, m)[k := Sub(Some(Normalise(v, inner, sub)))])
            == Encode(v, schema, m[k := Sub(Some(sub))])
  {
    var normal, plain := Sub(Some(Normalise(v, inner, sub))), Sub(Some(sub));
    EncodeNormalised(v, inner, sub);
    NormaliseTwice(v, inner, sub);
    assert NormaliseValue(v, schema[k], normal) == NormaliseValue(v, schema[k], plain);
    NormaliseTwice(v, schema, m);
    NormaliseSet(v, schema, Normalise(v, schema, m), k, normal);
    NormaliseSet(v, schema, m, k, plain);
    EncodeNormalised(v, schema, Normalise(v, schema, m)[k := normal]);
    EncodeNormalised(v, schema, m[k := plain]);
  }
}
