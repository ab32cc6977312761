/** Where the members of an archive go: paths by their octets, and the directory that writing leaves. */
module ArchivePaths {
  import opened Bytes
  import opened Codecs
  import opened Store
  import opened Archive
  import opened ArchiveRoundTrip
  import Utf8

  // ----- the pieces of a path -----------------------------------------------

  /** The octets from `i` to `j` stand between two slashes, or between a slash and an end of the path. */
  predicate Piece(path: bytes, i: int, j: int) {
    0 <= i <= j <= |path| && (i == 0 || path[i - 1] == 0x2F) && (j == |path| || path[j] == 0x2F) && 0x2F !in path[i..j]
  }

  lemma {:induction false} FirstSegment(path: bytes)
    ensures |Segments(path)[0]| <= |path| && Segments(path)[0] == path[..|Segments(path)[0]|]
    ensures Piece(path, 0, |Segments(path)[0]|)
  {
    if path != [] {
      var rest := path[1..];
      FirstSegment(rest);
      if path[0] != SLASH {
        FirstLonger(path, |Segments(rest)[0]|);
      }
    }
  }

  lemma FirstLonger(path: bytes, n: nat)
    requires path != [] && path[0] != SLASH && Piece(path[1..], 0, n)
    ensures n < |path| && [path[0]] + path[1..][..n] == path[..n + 1] && Piece(path, 0, n + 1)
  {
    assert path[0..n + 1] == [path[0]] + path[1..][0..n];
  }

  /** A later segment starts after a slash. */
  predicate LaterPiece(path: bytes, i: int, j: int) {
    i > 0 && Piece(path, i, j)
  }

  lemma ShiftPiece(path: bytes, i: nat, j: nat)
    requires path != [] && 0 < i <= j <= |path|
    ensures path[1..][i - 1..j - 1] == path[i..j]
    ensures LaterPiece(path, i, j) <==> Piece(path[1..], i - 1, j - 1) && (i > 1 || path[0] == 0x2F)
  {
  }

  lemma {:induction false} LaterSegments(path: bytes, x: bytes)
    ensures x in Segments(path)[1..] <==> exists i, j :: LaterPiece(path, i, j) && path[i..j] == x
  {
    if path != [] {
      var rest := path[1..];
      LaterSegments(rest, x);
      FirstSegment(rest);
      if x in Segments(path)[1..] {
        if path[0] == SLASH && x == Segments(rest)[0] {
          ShiftPiece(path, 1, 1 + |x|);
        } else {
          assert x in Segments(rest)[1..];
          var i, j :| LaterPiece(rest, i, j) && rest[i..j] == x;
          ShiftPiece(path, i + 1, j + 1);
        }
      }
      forall i, j | LaterPiece(path, i, j) && path[i..j] == x ensures x in Segments(path)[1..] {
        ShiftPiece(path, i, j);
        if i == 1 {
          PieceFirst(rest, j - 1);
          assert Segments(path)[1] == x;
        } else {
          assert LaterPiece(rest, i - 1, j - 1) && rest[i - 1..j - 1] == x;
          assert x in Segments(rest)[1..];
        }
      }
    }
  }

  lemma PieceFirst(path: bytes, j: nat)
    requires Piece(path, 0, j)
    ensures Segments(path)[0] == path[..j]
  {
    FirstSegment(path);
  }

  /** A path's segments are its pieces. */
  lemma SegmentsExactly(path: bytes, x: bytes)
    ensures x in Segments(path) <==> exists i, j :: Piece(path, i, j) && path[i..j] == x
  {
    LaterSegments(path, x);
    FirstSegment(path);
    if x in Segments(path) && x !in Segments(path)[1..] {
      assert x == Segments(path)[0] == path[0..|x|];
    }
    forall i, j | Piece(path, i, j) && path[i..j] == x ensures x in Segments(path) {
      if i == 0 {
        PieceFirst(path, j);
      } else {
        assert LaterPiece(path, i, j);
      }
    }
  }

  /** Two dots at `i` make a whole piece. */
  predicate Climbs(path: bytes, i: nat) {
    i + 2 <= |path| && path[i] == 0x2E && path[i + 1] == 0x2E
    && (i == 0 || path[i - 1] == 0x2F) && (i + 2 == |path| || path[i + 2] == 0x2F)
  }

  lemma ClimbsThere(path: bytes, i: nat, j: nat)
    requires Piece(path, i, j) && path[i..j] == DOT_DOT
    ensures Climbs(path, i)
  {
    assert |DOT_DOT| == 2;
    assert path[i] == DOT_DOT[0];
    assert path[i..j][1] == path[i + 1];
  }

  /** A path is safe exactly when it does not start at the root and no piece of it is two dots. */
  lemma SafeExactly(path: bytes)
    ensures Safe(path) <==> (path == [] || path[0] != 0x2F) && forall i: nat :: !Climbs(path, i)
  {
    SegmentsExactly(path, DOT_DOT);
    if i: nat :| Climbs(path, i) {
      assert path[i..i + 2] == DOT_DOT;
      assert Piece(path, i, i + 2);
    }
    if i, j :| Piece(path, i, j) && path[i..j] == DOT_DOT {
      ClimbsThere(path, i, j);
      assert Climbs(path, i);
    }
  }

  // ----- joining and splitting ----------------------------------------------

  predicate Plain(names: seq<bytes>) {
    forall i :: 0 <= i < |names| ==> SLASH !in names[i]
  }

  lemma {:induction false} SegmentsPlain(path: bytes)
    ensures Plain(Segments(path)) && Join(Segments(path)) == path
  {
    if path != [] {
      var rest := path[1..];
      SegmentsPlain(rest);
      var s := Segments(rest);
      if path[0] == SLASH {
        assert Segments(path)[1..] == s;
        assert path == [SLASH] + rest;
      } else {
        assert Segments(path)[1..] == s[1..];
        assert path == [path[0]] + rest;
        JoinHead([path[0]], s);
      }
    }
  }

  lemma JoinHead(x: bytes, names: seq<bytes>)
    requires names != []
    ensures Join([x + names[0]] + names[1..]) == x + Join(names)
  {
    var longer := [x + names[0]] + names[1..];
    assert longer[1..] == names[1..];
    if |names| > 1 {
      assert x + (names[0] + [SLASH] + Join(names[1..])) == x + names[0] + [SLASH] + Join(names[1..]);
    }
  }

  lemma {:induction false} SegmentsOfName(name: bytes)
    requires SLASH !in name
    ensures Segments(name) == [name]
  {
    if name != [] {
      assert SLASH !in name[1..];
      SegmentsOfName(name[1..]);
      assert [name[0]] + name[1..] == name;
    }
  }

  lemma {:induction false} SegmentsOfPair(name: bytes, rest: bytes)
    requires SLASH !in name
    ensures Segments(name + [SLASH] + rest) == [name] + Segments(rest)
    decreases |name|
  {
    var path := name + [SLASH] + rest;
    if name == [] {
      assert path[1..] == rest;
    } else {
      assert path[1..] == name[1..] + [SLASH] + rest;
      assert SLASH !in name[1..];
      SegmentsOfPair(name[1..], rest);
      assert [name[0]] + name[1..] == name;
    }
  }

  /** Splitting a joined list of names gives the list back. */
  lemma {:induction false} SegmentsOfJoin(names: seq<bytes>)
    requires names != [] && Plain(names)
    ensures Segments(Join(names)) == names
  {
    if |names| == 1 {
      SegmentsOfName(names[0]);
    } else {
      SegmentsOfJoin(names[1..]);
      SegmentsOfPair(names[0], Join(names[1..]));
      assert [names[0]] + names[1..] == names;
    }
  }

  // ----- where a path leads -------------------------------------------------

  predicate Proper(name: bytes) {
    name != [] && name != DOT
  }

  lemma {:induction false} NamesProper(segments: seq<bytes>)
    ensures forall x :: x in Names(segments) <==> x in segments && Proper(x)
    ensures Plain(segments) ==> Plain(Names(segments))
    ensures segments != [] && Proper(segments[|segments| - 1]) ==>
              Names(segments) != [] && Names(segments)[|Names(segments)| - 1] == segments[|segments| - 1]
  {
    if segments != [] {
      NamesProper(segments[1..]);
      assert Plain(segments) ==> Plain(segments[1..]);
    }
  }

  lemma {:induction false} NamesFixed(names: seq<bytes>)
    requires forall x :: x in names ==> Proper(x)
    ensures Names(names) == names
  {
    if names != [] {
      assert names[0] in names;
      NamesFixed(names[1..]);
    }
  }

  lemma {:induction false} JoinHolds(names: seq<bytes>, c: byte)
    requires c in Join(names)
    ensures c == SLASH || exists x :: x in names && c in x
  {
    if |names| == 1 {
      assert names[0] in names;
    } else if names != [] && c !in names[0] && c != SLASH {
      JoinHolds(names[1..], c);
    }
  }

  /** Where a path to a file leads is itself a path of that kind, and leads to itself. */
  lemma ResolvedPath(path: bytes)
    requires Safe(path) && NamesFile(path)
    ensures var place := Resolve(path);
            place != [] && Resolve(place) == place && Safe(place) && NamesFile(place)
    ensures Segments(Resolve(path)) == Names(Segments(path))
  {
    var segments := Segments(path);
    var names := Names(segments);
    SegmentsPlain(path);
    NamesProper(segments);
    SegmentsOfJoin(names);
    NamesFixed(names);
    var place := Join(names);
    assert place == [] ==> Segments(place) == [[]];
    assert names[0] in names;
    FirstSegment(place);
    if 0 in place {
      JoinHolds(names, 0);
      var x :| x in names && 0 in x;
      SegmentsExactly(path, x);
    }
  }

  // ----- paths of text ------------------------------------------------------

  lemma CharacterAt(a: bytes, c: byte, b: bytes)
    requires a != [] && c <= 0x7F
    ensures Utf8.Character(a + [c] + b) == Utf8.Character(a)
  {
    var whole := a + [c] + b;
    assert forall i :: 0 <= i < |a| ==> whole[i] == a[i];
    assert whole[|a|] == c;
  }

  /** Text around an octet below 128 is text on both sides. */
  lemma {:induction false} TextSplits(a: bytes, c: byte, b: bytes)
    requires c <= 0x7F
    ensures Utf8.Valid(a + [c] + b) <==> Utf8.Valid(a) && Utf8.Valid(b)
    decreases |a|
  {
    var whole := a + [c] + b;
    if a == [] {
      assert whole[1..] == b;
    } else {
      CharacterAt(a, c, b);
      var n := Utf8.Character(a);
      if n > 0 {
        assert whole[n..] == a[n..] + [c] + b;
        TextSplits(a[n..], c, b);
      }
    }
  }

  lemma {:induction false} TextJoins(names: seq<bytes>)
    ensures Utf8.Valid(Join(names)) <==> forall x :: x in names ==> Utf8.Valid(x)
  {
    if |names| > 1 {
      TextJoins(names[1..]);
      TextSplits(names[0], SLASH, Join(names[1..]));
      assert forall x :: x in names <==> x == names[0] || x in names[1..];
    } else if |names| == 1 {
      assert names == [names[0]];
    }
  }

  lemma ResolvedText(path: bytes)
    requires Utf8.Valid(path)
    ensures Utf8.Valid(Resolve(path))
  {
    SegmentsPlain(path);
    TextJoins(Segments(path));
    NamesProper(Segments(path));
    TextJoins(Names(Segments(path)));
  }

  // ----- what writing leaves ------------------------------------------------

  /** Neither of two places is the other or lies below it. */
  predicate Apart(p: bytes, q: bytes) {
    p != q && !Under(p, q) && !Under(q, p)
  }

  predicate Placeable(path: bytes) {
    Safe(path) && NamesFile(path)
  }

  function Places(members: seq<Row>): (r: seq<bytes>)
    ensures |r| == |members|
  {
    seq(|members|, i requires 0 <= i < |members| => Resolve(members[i].key))
  }

  ghost predicate AllApart(places: seq<bytes>) {
    forall i, j :: 0 <= i < j < |places| ==> Apart(places[i], places[j])
  }

  /** The directory holds each member's data at the member's place, and nothing else. */
  ghost predicate Holds(dir: Directory, places: seq<bytes>, members: seq<Row>)
    requires |places| == |members|
  {
    (forall i :: 0 <= i < |places| ==> places[i] in dir && dir[places[i]] == members[i].value)
    && forall k :: k in dir ==> k in places
  }

  predicate AllPlaceable(members: seq<Row>) {
    forall i :: 0 <= i < |members| ==> Placeable(members[i].key)
  }

  /**
   Writing succeeds exactly when every path is safe and names a file and no two members meet; then the directory
   holds each member's data at its place, and nothing else.
   */
  lemma {:induction false} WrittenExactly(members: seq<Row>)
    ensures InstallAll(members).Some? <==> AllPlaceable(members) && AllApart(Places(members))
    ensures InstallAll(members).Some? ==>
              Holds(InstallAll(members).value, Places(members), members)
              && |InstallAll(members).value| == |members|
    decreases |members|
  {
    if members != [] {
      var front, m := members[..|members| - 1], members[|members| - 1];
      var places, place := Places(front), Resolve(m.key);
      WrittenExactly(front);
      assert members == front + [m];
      assert Places(members) == places + [place];
      ApartNext(places, place);
      assert AllPlaceable(members) <==> AllPlaceable(front) && Placeable(m.key);
      if InstallAll(front).Some? {
        var dir := InstallAll(front).value;
        FreeExactly(dir, places, front, place);
        if Placeable(m.key) {
          ResolvedPath(m.key);
        }
        if Install(dir, m).Some? {
          WrittenNext(dir, places, front, place, m);
        }
      }
    }
  }

  lemma ApartNext(places: seq<bytes>, place: bytes)
    ensures AllApart(places + [place]) <==> AllApart(places) && forall k :: k in places ==> Apart(k, place)
  {
    var all := places + [place];
    if AllApart(all) {
      forall i, j | 0 <= i < j < |places| ensures Apart(places[i], places[j]) {
        assert Apart(all[i], all[j]);
      }
      forall k | k in places ensures Apart(k, place) {
        var i :| 0 <= i < |places| && places[i] == k;
        assert Apart(all[i], all[|places|]);
      }
    }
  }

  lemma FreeExactly(dir: Directory, places: seq<bytes>, members: seq<Row>, place: bytes)
    requires |places| == |members| && Holds(dir, places, members)
    ensures Free(dir, place) <==> place != [] && forall k :: k in places ==> Apart(k, place)
  {
    assert forall k :: k in dir <==> k in places;
  }

  lemma WrittenNext(dir: Directory, places: seq<bytes>, front: seq<Row>, place: bytes, m: Row)
    requires |places| == |front| && Holds(dir, places, front) && place !in dir
    ensures Holds(dir[place := m.value], places + [place], front + [m])
    ensures |dir[place := m.value]| == |dir| + 1
  {
    var after := dir[place := m.value];
    assert after.Keys == dir.Keys + {place};
    assert |after.Keys| == |dir.Keys| + 1;
  }

  /** Whatever octets decode, the directory is one of plainly named files, each inside the root. */
  lemma DecodedTree(a: Codec<nat>, b: Codec<nat>, data: bytes)
    requires Lengths(a, b) && Counts(a)
    ensures Decode(a, b, data).Some? ==> Tree(Decode(a, b, data).value)
  {
    DecodeSplits(a, b, data);
    var parsed := ParseMembers(a, b, data);
    if parsed.Some? && InstallAll(parsed.value).Some? {
      ParseMembersExact(a, b, data, parsed.value);
      WrittenExactly(parsed.value);
      WrittenTree(InstallAll(parsed.value).value, parsed.value);
    }
  }

  lemma WrittenTree(dir: Directory, members: seq<Row>)
    requires Holds(dir, Places(members), members) && AllApart(Places(members)) && AllPlaceable(members)
    requires forall i :: 0 <= i < |members| ==> Utf8.Valid(members[i].key)
    ensures Tree(dir)
  {
    var places := Places(members);
    forall k | k in dir ensures k != [] && Resolve(k) == k && Safe(k) && NamesFile(k) && Utf8Path(k) {
      var i :| 0 <= i < |places| && places[i] == k;
      ResolvedPath(members[i].key);
      ResolvedText(members[i].key);
    }
    forall j, k | j in dir && k in dir ensures !Under(j, k) {
      ApartInOrder(places, j, k);
    }
  }

  lemma ApartInOrder(places: seq<bytes>, j: bytes, k: bytes)
    requires AllApart(places) && j in places && k in places
    ensures !Under(j, k)
  {
    var m :| 0 <= m < |places| && places[m] == j;
    var n :| 0 <= n < |places| && places[n] == k;
    assert m < n ==> Apart(j, k);
    assert n < m ==> Apart(k, j);
  }

  /** So decoding, encoding what was found and decoding again changes nothing. */
  lemma DecodedAgain(a: Codec<nat>, b: Codec<nat>, data: bytes, rows: seq<Row>)
    requires Lengths(a, b) && Counts(a) && Sizes(a, b)
    requires Decode(a, b, data).Some? && Scan(rows, Decode(a, b, data).value)
    ensures var dir := Decode(a, b, data).value;
            Encode(a, b, rows).Some? && dir != map[] ==> Decode(a, b, Encode(a, b, rows).value) == Some(dir)
  {
    DecodedTree(a, b, data);
    RoundTrip(a, b, Decode(a, b, data).value, rows);
  }
}
