/**
 The backup archive: a magic string, a member count, and for each member the
 length of its path, the size of its data, the path and the data. Decoding writes
 each member into an empty directory as it is read.
 */
module Archive {
  import opened Bytes
  import opened Codecs
  import opened Store
  import opened Wire
  import Utf8

  const MAGIC: bytes := Ascii("UMC-BACKUP-ARCHIVE-v1") + [0]
  const MAX_FILES: nat := 16_384
  const MAX_PATH: nat := 4096
  const MAX_BYTES: nat := 256 * 1024 * 1024

  /** A directory: relative path, with its names joined by slashes, to contents. */
  type Directory = map<bytes, bytes>

  // ----- paths --------------------------------------------------------------

  const SLASH: byte := 0x2F
  const DOT: bytes := [0x2E]
  const DOT_DOT: bytes := [0x2E, 0x2E]

  /** The pieces between slashes, empty ones included. */
  function Segments(path: bytes): (r: seq<bytes>)
    ensures |r| > 0
  {
    if path == [] then [[]]
    else
      var rest := Segments(path[1..]);
      if path[0] == SLASH then [[]] + rest else [[path[0]] + rest[0]] + rest[1..]
  }

  function Names(segments: seq<bytes>): seq<bytes> {
    if segments == [] then []
    else if segments[0] == [] || segments[0] == DOT then Names(segments[1..])
    else [segments[0]] + Names(segments[1..])
  }

  function Join(names: seq<bytes>): bytes {
    if names == [] then [] else if |names| == 1 then names[0] else names[0] + [SLASH] + Join(names[1..])
  }

  /** Where a path leads from the root of the directory. */
  function Resolve(path: bytes): bytes {
    Join(Names(Segments(path)))
  }

  predicate Safe(path: bytes) {
    !(path != [] && path[0] == SLASH) && DOT_DOT !in Segments(path)
  }

  /** A path that names a file: it does not end in a slash or a dot, and holds no zero octet. */
  predicate NamesFile(path: bytes) {
    var last := Segments(path)[|Segments(path)| - 1];
    last != [] && last != DOT && 0 !in path
  }

  predicate Under(path: bytes, directory: bytes) {
    directory + [SLASH] <= path
  }

  // ----- writing a member ---------------------------------------------------

  /** Nothing may be written where something exists, nor below a file. */
  predicate Free(dir: Directory, place: bytes) {
    place != [] && forall k :: k in dir ==> k != place && !Under(k, place) && !Under(place, k)
  }

  function Install(dir: Directory, m: Row): Option<Directory> {
    var place := Resolve(m.key);
    if !Safe(m.key) || !Free(dir, place) || !NamesFile(m.key) then None else Some(dir[place := m.value])
  }

  type Writer = (Directory, Row) -> Option<Directory>

  function WriteAll(write: Writer, members: seq<Row>): Option<Directory> {
    if members == [] then Some(map[]) else
    var dir :- WriteAll(write, members[..|members| - 1]);
    write(dir, members[|members| - 1])
  }

  function InstallAll(members: seq<Row>): Option<Directory> {
    WriteAll(Install, members)
  }

  // ----- the octets of a member ---------------------------------------------

  /** `a` is the codec of path lengths and `b` the codec of sizes. */
  function ReadMember(a: Codec<nat>, b: Codec<nat>, data: bytes, offset: nat): Option<(Row, nat)> {
    var (length, o1) :- a.read(data, offset);
    var (size, o2) :- b.read(data, o1);
    if length == 0 || length > MAX_PATH || size > MAX_BYTES || o2 + length > |data|
       || !Utf8.Valid(data[o2..o2 + length]) || o2 + length + size > |data| then None
    else Some((Row(data[o2..o2 + length], data[o2 + length..o2 + length + size]), o2 + length + size))
  }

  predicate MemberFits(m: Row) {
    0 < |m.key| <= MAX_PATH && |m.value| <= MAX_BYTES && Utf8.Valid(m.key)
  }

  function ShowMember(a: Codec<nat>, b: Codec<nat>, m: Row): bytes {
    a.show(|m.key|) + (b.show(|m.value|) + (m.key + m.value))
  }

  function Member(a: Codec<nat>, b: Codec<nat>): Codec<Row> {
    Codec((data: bytes, offset: nat) => ReadMember(a, b, data, offset),
          MemberFits,
          (m: Row) => ShowMember(a, b, m))
  }

  ghost predicate Lengths(a: Codec<nat>, b: Codec<nat>) {
    Exact(a) && Exact(b)
    && (forall n: nat {:trigger a.fits(n)} :: n <= MAX_PATH ==> a.fits(n))
    && forall n: nat {:trigger b.fits(n)} :: n <= MAX_BYTES ==> b.fits(n)
  }

  lemma MemberAt(a: Codec<nat>, b: Codec<nat>, data: bytes, offset: nat, m: Row, end: nat)
    requires Lengths(a, b)
    ensures Reads(Member(a, b), data, offset, m, end) <==> Stands(Member(a, b), data, offset, m, end)
  {
    if Reads(Member(a, b), data, offset, m, end) {
      MemberSound(a, b, data, offset, m, end);
    }
    if Stands(Member(a, b), data, offset, m, end) {
      MemberComplete(a, b, data, offset, m, end);
    }
  }

  lemma MemberSplit(a: Codec<nat>, b: Codec<nat>, data: bytes, offset: nat, m: Row)
    ensures At(data, offset, ShowMember(a, b, m))
            <==> At(data, offset, a.show(|m.key|))
                 && At(data, offset + |a.show(|m.key|)|, b.show(|m.value|))
                 && At(data, offset + |a.show(|m.key|)| + |b.show(|m.value|)|, m.key)
                 && At(data, offset + |a.show(|m.key|)| + |b.show(|m.value|)| + |m.key|, m.value)
  {
    var o1 := offset + |a.show(|m.key|)|;
    AtSplit(data, offset, a.show(|m.key|), b.show(|m.value|) + (m.key + m.value));
    AtSplit(data, o1, b.show(|m.value|), m.key + m.value);
    AtSplit(data, o1 + |b.show(|m.value|)|, m.key, m.value);
  }

  lemma MemberSound(a: Codec<nat>, b: Codec<nat>, data: bytes, offset: nat, m: Row, end: nat)
    requires Lengths(a, b) && Reads(Member(a, b), data, offset, m, end)
    ensures Stands(Member(a, b), data, offset, m, end)
  {
    var o1 := a.read(data, offset).value.1;
    var o2 := b.read(data, o1).value.1;
    assert Reads(a, data, offset, |m.key|, o1);
    assert Reads(b, data, o1, |m.value|, o2);
    assert Stands(a, data, offset, |m.key|, o1);
    assert Stands(b, data, o1, |m.value|, o2);
    MemberSplit(a, b, data, offset, m);
  }

  lemma MemberComplete(a: Codec<nat>, b: Codec<nat>, data: bytes, offset: nat, m: Row, end: nat)
    requires Lengths(a, b) && Stands(Member(a, b), data, offset, m, end)
    ensures Reads(Member(a, b), data, offset, m, end)
  {
    MemberSplit(a, b, data, offset, m);
    var o1 := offset + |a.show(|m.key|)|;
    var o2 := o1 + |b.show(|m.value|)|;
    assert a.fits(|m.key|) && b.fits(|m.value|);
    assert Stands(a, data, offset, |m.key|, o1);
    assert Stands(b, data, o1, |m.value|, o2);
    assert Reads(a, data, offset, |m.key|, o1);
    assert Reads(b, data, o1, |m.value|, o2);
  }

  lemma MemberExact(a: Codec<nat>, b: Codec<nat>)
    requires Lengths(a, b)
    ensures Exact(Member(a, b))
  {
    var l := Member(a, b);
    forall data, offset: nat, m, end: nat
      ensures Reads(l, data, offset, m, end) <==> Stands(l, data, offset, m, end)
    {
      MemberAt(a, b, data, offset, m, end);
    }
  }

  // ----- the member list ----------------------------------------------------

  /** `a` is also the codec of the member count. */
  function ParseMembers(a: Codec<nat>, b: Codec<nat>, data: bytes): Option<seq<Row>> {
    var (count, start) :- ReadCount(a, data);
    var (members, end) :- ReadMany(Member(a, b), data, start, count);
    if end != |data| then None else Some(members)
  }

  function ReadCount(a: Codec<nat>, data: bytes): Option<(nat, nat)> {
    if |data| < |MAGIC| + 4 || !(MAGIC <= data) then None else
    var (count, start) :- a.read(data, |MAGIC|);
    if count == 0 || count > MAX_FILES then None else Some((count, start))
  }

  function Serialise(a: Codec<nat>, b: Codec<nat>, members: seq<Row>): bytes {
    MAGIC + (a.show(|members|) + PrintMany(Member(a, b), members))
  }

  predicate InBounds(members: seq<Row>) {
    0 < |members| <= MAX_FILES && forall i :: 0 <= i < |members| ==> MemberFits(members[i])
  }

  ghost predicate Counts(a: Codec<nat>) {
    (forall n: nat {:trigger a.fits(n)} :: n <= MAX_FILES ==> a.fits(n))
    && forall n: nat {:trigger a.show(n)} :: |a.show(n)| == 4
  }

  /** Accepted octets are exactly the serialisations of the member lists within bounds. */
  lemma ParseMembersExact(a: Codec<nat>, b: Codec<nat>, data: bytes, members: seq<Row>)
    requires Lengths(a, b) && Counts(a)
    ensures ParseMembers(a, b, data) == Some(members)
            <==> InBounds(members) && data == Serialise(a, b, members)
  {
    MemberExact(a, b);
    if ParseMembers(a, b, data) == Some(members) {
      ParseMembersSound(a, b, data, members);
    }
    if InBounds(members) && data == Serialise(a, b, members) {
      ParseMembersComplete(a, b, data, members);
    }
  }

  lemma ParseMembersSound(a: Codec<nat>, b: Codec<nat>, data: bytes, members: seq<Row>)
    requires Lengths(a, b) && Exact(Member(a, b)) && ParseMembers(a, b, data) == Some(members)
    ensures InBounds(members) && data == Serialise(a, b, members)
  {
    var (count, start) := ReadCount(a, data).value;
    ReadManyForward(Member(a, b), data, start, count);
    ReadManySound(Member(a, b), data, start, count);
    assert Reads(a, data, |MAGIC|, count, start);
    assert Stands(a, data, |MAGIC|, count, start);
    AtSplit(data, |MAGIC|, a.show(count), PrintMany(Member(a, b), members));
    AtSplit(data, 0, MAGIC, a.show(count) + PrintMany(Member(a, b), members));
    AtWhole(data, Serialise(a, b, members));
  }

  lemma ParseMembersComplete(a: Codec<nat>, b: Codec<nat>, data: bytes, members: seq<Row>)
    requires Lengths(a, b) && Counts(a) && Exact(Member(a, b))
    requires InBounds(members) && data == Serialise(a, b, members)
    ensures ParseMembers(a, b, data) == Some(members)
  {
    var count := |members|;
    var start := |MAGIC| + |a.show(count)|;
    AtWhole(data, Serialise(a, b, members));
    AtSplit(data, 0, MAGIC, a.show(count) + PrintMany(Member(a, b), members));
    AtSplit(data, |MAGIC|, a.show(count), PrintMany(Member(a, b), members));
    assert a.fits(count);
    assert Stands(a, data, |MAGIC|, count, start);
    assert Reads(a, data, |MAGIC|, count, start);
    assert MAGIC <= data;
    ReadManyComplete(Member(a, b), data, start, members, |data|);
  }
}
