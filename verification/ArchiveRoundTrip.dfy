/** Encoding a directory and decoding it into another: each gives back what the other took. */
module ArchiveRoundTrip {
  import opened Bytes
  import opened Codecs
  import opened Store
  import opened Archive
  import Utf8

  // ----- decoding -----------------------------------------------------------

  /** The directory after `count` members, each written as soon as it is read, and the cursor. */
  function DecodeMembers(c: Codec<Row>, write: Writer, data: bytes, start: nat, count: nat): Option<(Directory, nat)> {
    if count == 0 then Some((map[], start)) else
    var (dir, next) :- DecodeMembers(c, write, data, start, count - 1);
    var (m, end) :- c.read(data, next);
    var written :- write(dir, m);
    Some((written, end))
  }

  /** `a` reads the member count, `c` a member, and `write` puts it into the directory. */
  function DecodeWith(a: Codec<nat>, c: Codec<Row>, write: Writer, data: bytes): Option<Directory> {
    var (count, start) :- ReadCount(a, data);
    var (dir, end) :- DecodeMembers(c, write, data, start, count);
    if end != |data| then None else Some(dir)
  }

  function Decode(a: Codec<nat>, b: Codec<nat>, data: bytes): Option<Directory> {
    DecodeWith(a, Member(a, b), Install, data)
  }

  method DecodeArchive(a: Codec<nat>, c: Codec<Row>, write: Writer, data: bytes) returns (r: Option<Directory>)
    ensures r == DecodeWith(a, c, write, data)
  {
    var head := ReadCount(a, data);
    if head.None? {
      return None;
    }
    var count, start := head.value.0, head.value.1;
    var dir: Directory, cursor := map[], start;
    var i := 0;
    while i < count
      invariant i <= count && DecodeMembers(c, write, data, start, i) == Some((dir, cursor))
    {
      var next := c.read(data, cursor);
      if next.None? {
        DecodeStops(c, write, data, start, i + 1, count);
        return None;
      }
      var written := write(dir, next.value.0);
      if written.None? {
        DecodeStops(c, write, data, start, i + 1, count);
        return None;
      }
      dir, cursor := written.value, next.value.1;
      i := i + 1;
    }
    return if cursor != |data| then None else Some(dir);
  }

  lemma {:induction false} DecodeStops(
    c: Codec<Row>, write: Writer, data: bytes, start: nat, i: nat, count: nat)
    requires i <= count && DecodeMembers(c, write, data, start, i).None?
    ensures DecodeMembers(c, write, data, start, count).None?
  {
    if i < count {
      DecodeStops(c, write, data, start, i, count - 1);
    }
  }

  /** Writing while reading comes to the same as reading everything and then writing. */
  lemma {:induction false} DecodeMembersSplits(
    c: Codec<Row>, write: Writer, data: bytes, start: nat, count: nat)
    ensures DecodeMembers(c, write, data, start, count)
            == match ReadMany(c, data, start, count)
               case None => None
               case Some((members, end)) =>
                 match WriteAll(write, members)
                 case None => None
                 case Some(dir) => Some((dir, end))
  {
    if count > 0 {
      DecodeMembersSplits(c, write, data, start, count - 1);
      var front := ReadMany(c, data, start, count - 1);
      var all := ReadMany(c, data, start, count);
      if all.Some? {
        var members := all.value.0;
        assert members[..|members| - 1] == front.value.0;
      }
    }
  }

  lemma DecodeSplits(a: Codec<nat>, b: Codec<nat>, data: bytes)
    ensures Decode(a, b, data)
            == match ParseMembers(a, b, data)
               case None => None
               case Some(members) => InstallAll(members)
  {
    var head := ReadCount(a, data);
    if head.Some? {
      DecodeMembersSplits(Member(a, b), Install, data, head.value.1, head.value.0);
    }
  }

  /** A decoded archive is the serialisation of a member list within bounds whose writing gave the directory. */
  lemma DecodeExact(a: Codec<nat>, b: Codec<nat>, data: bytes, dir: Directory)
    requires Lengths(a, b) && Counts(a)
    ensures Decode(a, b, data) == Some(dir)
            <==> exists members :: InBounds(members) && data == Serialise(a, b, members)
                                   && InstallAll(members) == Some(dir)
  {
    DecodeSplits(a, b, data);
    if Decode(a, b, data) == Some(dir) {
      ParseMembersExact(a, b, data, ParseMembers(a, b, data).value);
    }
    forall members | InBounds(members) && data == Serialise(a, b, members)
      ensures ParseMembers(a, b, data) == Some(members)
    {
      ParseMembersExact(a, b, data, members);
    }
  }

  // ----- encoding -----------------------------------------------------------

  /** Members are appended while the archive stays within its size. */
  function EncodeMembers(a: Codec<nat>, b: Codec<nat>, head: bytes, rows: seq<Row>): Option<bytes> {
    if rows == [] then Some(head) else
    var out :- EncodeMembers(a, b, head, rows[..|rows| - 1]);
    AppendMember(a, b, out, rows[|rows| - 1])
  }

  function AppendMember(a: Codec<nat>, b: Codec<nat>, out: bytes, m: Row): Option<bytes> {
    if !Safe(m.key) || |m.key| > MAX_PATH || |m.value| > MAX_BYTES
       || |out| + 4 + 8 + |m.key| + |m.value| > MAX_BYTES then None
    else Some(out + ShowMember(a, b, m))
  }

  /** `rows` lists the files in path order. */
  function Encode(a: Codec<nat>, b: Codec<nat>, rows: seq<Row>): Option<bytes> {
    if |rows| > MAX_FILES then None else EncodeMembers(a, b, MAGIC + a.show(|rows|), rows)
  }

  method EncodeArchive(a: Codec<nat>, b: Codec<nat>, rows: seq<Row>) returns (r: Option<bytes>)
    ensures r == Encode(a, b, rows)
  {
    if |rows| > MAX_FILES {
      return None;
    }
    ghost var head := MAGIC + a.show(|rows|);
    var out := MAGIC + a.show(|rows|);
    var i := 0;
    assert rows[..0] == [];
    while i < |rows|
      invariant i <= |rows| && EncodeMembers(a, b, head, rows[..i]) == Some(out)
    {
      var next := AppendMember(a, b, out, rows[i]);
      assert rows[..i + 1][..i] == rows[..i];
      if next.None? {
        EncodeStops(a, b, head, rows, i + 1);
        return None;
      }
      out := next.value;
      i := i + 1;
    }
    assert rows[..|rows|] == rows;
    return Some(out);
  }

  lemma {:induction false} EncodeStops(a: Codec<nat>, b: Codec<nat>, head: bytes, rows: seq<Row>, i: nat)
    requires i <= |rows| && EncodeMembers(a, b, head, rows[..i]).None?
    ensures EncodeMembers(a, b, head, rows).None?
    decreases |rows|
  {
    if i < |rows| {
      var front := rows[..|rows| - 1];
      assert front[..i] == rows[..i];
      EncodeStops(a, b, head, front, i);
    } else {
      assert rows[..i] == rows;
    }
  }

  ghost predicate Sizes(a: Codec<nat>, b: Codec<nat>) {
    (forall n: nat {:trigger a.show(n)} :: |a.show(n)| == 4) && forall n: nat {:trigger b.show(n)} :: |b.show(n)| == 8
  }

  predicate Archivable(rows: seq<Row>) {
    forall i :: 0 <= i < |rows| ==> Safe(rows[i].key) && |rows[i].key| <= MAX_PATH
  }

  /** The appended archive is the serialisation; it fails exactly on an unsafe or long path or on its size. */
  lemma {:induction false} EncodeMembersExact(a: Codec<nat>, b: Codec<nat>, head: bytes, rows: seq<Row>)
    requires Sizes(a, b)
    ensures var whole := head + PrintMany(Member(a, b), rows);
            EncodeMembers(a, b, head, rows)
            == if Archivable(rows) && (rows == [] || |whole| <= MAX_BYTES) then Some(whole) else None
    decreases |rows|
  {
    if rows == [] {
      assert head + [] == head;
    } else {
      var front, m := rows[..|rows| - 1], rows[|rows| - 1];
      EncodeMembersExact(a, b, head, front);
      var part := PrintMany(Member(a, b), front);
      assert |ShowMember(a, b, m)| == 12 + |m.key| + |m.value|;
      assert head + part + ShowMember(a, b, m) == head + (part + ShowMember(a, b, m));
      ArchivablePush(rows);
    }
  }

  lemma ArchivablePush(rows: seq<Row>)
    requires rows != []
    ensures var front, m := rows[..|rows| - 1], rows[|rows| - 1];
            Archivable(rows) <==> Archivable(front) && Safe(m.key) && |m.key| <= MAX_PATH
  {
  }

  lemma EncodeExact(a: Codec<nat>, b: Codec<nat>, rows: seq<Row>)
    requires Sizes(a, b)
    ensures Encode(a, b, rows)
            == if |rows| <= MAX_FILES && Archivable(rows) && (rows == [] || |Serialise(a, b, rows)| <= MAX_BYTES)
               then Some(Serialise(a, b, rows)) else None
  {
    var head, body := MAGIC + a.show(|rows|), PrintMany(Member(a, b), rows);
    EncodeMembersExact(a, b, head, rows);
    assert head + body == MAGIC + (a.show(|rows|) + body);
  }

  // ----- directories --------------------------------------------------------

  /** What a directory of plainly named files looks like: no file lies under another. */
  ghost predicate Tree(dir: Directory) {
    (forall k :: k in dir ==> k != [] && Resolve(k) == k && Safe(k) && NamesFile(k) && Utf8Path(k))
    && forall j, k {:trigger Under(j, k)} :: j in dir && k in dir ==> !Under(j, k)
  }

  predicate Utf8Path(k: bytes) {
    Utf8.Valid(k)
  }

  function Listed(rows: seq<Row>): Directory {
    if rows == [] then map[] else Listed(rows[..|rows| - 1])[rows[|rows| - 1].key := rows[|rows| - 1].value]
  }

  lemma {:induction false} ListedKeys(rows: seq<Row>)
    requires DistinctKeys(rows)
    ensures forall k :: k in Listed(rows) <==> HasKey(rows, k)
    ensures forall i :: 0 <= i < |rows| ==> rows[i].key in Listed(rows) && Listed(rows)[rows[i].key] == rows[i].value
  {
    if rows != [] {
      var front, m := rows[..|rows| - 1], rows[|rows| - 1];
      ListedKeys(front);
      forall k ensures k in Listed(rows) <==> HasKey(rows, k) {
        if HasKey(front, k) {
          var i :| 0 <= i < |front| && front[i].key == k;
          assert rows[i].key == k;
        }
        if HasKey(rows, k) && k != m.key {
          var i :| 0 <= i < |rows| && rows[i].key == k;
          assert front[i].key == k;
        }
        if k == m.key {
          assert rows[|rows| - 1].key == k;
        }
      }
    }
  }

  lemma {:induction false} InstallListed(dir: Directory, rows: seq<Row>)
    requires Tree(dir) && DistinctKeys(rows) && forall i :: 0 <= i < |rows| ==> rows[i].key in dir
    ensures InstallAll(rows) == Some(Listed(rows))
    decreases |rows|
  {
    if rows != [] {
      var front, m := rows[..|rows| - 1], rows[|rows| - 1];
      InstallListed(dir, front);
      ListedKeys(front);
      assert m.key in dir;
      forall k | k in Listed(front) ensures k != m.key && !Under(k, m.key) && !Under(m.key, k) {
        assert HasKey(front, k);
        var i :| 0 <= i < |front| && front[i].key == k;
        assert rows[i].key == k;
      }
    }
  }

  lemma ScanListed(dir: Directory, rows: seq<Row>)
    requires Scan(rows, dir)
    ensures DistinctKeys(rows) && Listed(rows) == dir
  {
    forall i, j | 0 <= i < j < |rows| ensures rows[i].key != rows[j].key {
      BeforeIrreflexive(rows[i].key);
    }
    ListedKeys(rows);
    forall k ensures k in Listed(rows) <==> k in dir {
      if HasKey(rows, k) {
        var i :| 0 <= i < |rows| && rows[i].key == k;
      }
    }
    forall k | k in dir ensures Listed(rows)[k] == dir[k] {
      assert HasKey(rows, k);
      var i :| 0 <= i < |rows| && rows[i].key == k;
    }
  }

  /** Encoding a directory and decoding the archive gives that directory back, unless it was empty. */
  lemma RoundTrip(a: Codec<nat>, b: Codec<nat>, dir: Directory, rows: seq<Row>)
    requires Lengths(a, b) && Counts(a) && Sizes(a, b) && Tree(dir) && Scan(rows, dir)
    ensures var archive := Encode(a, b, rows);
            archive.Some? ==> Decode(a, b, archive.value) == if dir == map[] then None else Some(dir)
  {
    EncodeExact(a, b, rows);
    if Encode(a, b, rows).Some? {
      var data := Serialise(a, b, rows);
      DecodeSplits(a, b, data);
      ScanListed(dir, rows);
      InstallListed(dir, rows);
      if rows == [] {
        EmptyRefused(a, b);
      } else {
        assert rows[0].key in dir;
        RowsFit(a, b, dir, rows);
        ParseMembersExact(a, b, data, rows);
      }
    }
  }

  lemma EmptyRefused(a: Codec<nat>, b: Codec<nat>)
    requires Lengths(a, b) && Counts(a)
    ensures ParseMembers(a, b, Serialise(a, b, [])).None?
  {
    var data := Serialise(a, b, []);
    if ParseMembers(a, b, data).Some? {
      var members := ParseMembers(a, b, data).value;
      ParseMembersExact(a, b, data, members);
      CountsDiffer(a, b, members);
    }
  }

  lemma CountsDiffer(a: Codec<nat>, b: Codec<nat>, members: seq<Row>)
    requires Lengths(a, b) && Counts(a) && 0 < |members| <= MAX_FILES
    ensures Serialise(a, b, members) != Serialise(a, b, [])
  {
    assert |PrintMany(Member(a, b), members)| >= |ShowMember(a, b, members[|members| - 1])| >= 4;
  }

  lemma RowsFit(a: Codec<nat>, b: Codec<nat>, dir: Directory, rows: seq<Row>)
    requires Sizes(a, b) && Tree(dir) && Scan(rows, dir) && rows != []
    requires Encode(a, b, rows).Some?
    ensures InBounds(rows)
  {
    EncodeExact(a, b, rows);
    forall i | 0 <= i < |rows| ensures MemberFits(rows[i]) {
      assert rows[i].key in dir;
      MemberSize(a, b, rows, i);
    }
  }

  lemma {:induction false} MemberSize(a: Codec<nat>, b: Codec<nat>, rows: seq<Row>, i: nat)
    requires i < |rows|
    ensures |rows[i].value| <= |PrintMany(Member(a, b), rows)|
    decreases |rows|
  {
    if i < |rows| - 1 {
      MemberSize(a, b, rows[..|rows| - 1], i);
    }
  }

  // ----- the widths of the format -------------------------------------------

  /** Counts and path lengths take four octets, sizes eight. */
  lemma FormatCodecs()
    ensures Lengths(Fixed(4), Fixed(8)) && Counts(Fixed(4)) && Sizes(Fixed(4), Fixed(8))
  {
    Pow256Values();
    FixedExact(4);
    FixedExact(8);
  }

  /** The round trip in the format itself: what encoding gives decodes to the directory, unless that is empty. */
  lemma FormatRoundTrip(dir: Directory, rows: seq<Row>)
    requires Tree(dir) && Scan(rows, dir)
    ensures Lengths(Fixed(4), Fixed(8)) && Counts(Fixed(4))
    ensures var archive := Encode(Fixed(4), Fixed(8), rows);
            archive.Some? ==>
              Decode(Fixed(4), Fixed(8), archive.value) == if dir == map[] then None else Some(dir)
  {
    FormatCodecs();
    RoundTrip(Fixed(4), Fixed(8), dir, rows);
  }
}
