/** Well-formed text is exactly what encoding Unicode scalar values gives. */
module Utf8Forms {
  import opened Bytes
  import opened Utf8

  /** A code point that is no surrogate. */
  predicate Scalar(c: nat) {
    c < 0xD800 || 0xE000 <= c < 0x11_0000
  }

  function Encode(c: nat): bytes
    requires Scalar(c)
  {
    if c < 0x80 then [c]
    else if c < 0x800 then [0xC0 + c / 64, 0x80 + c % 64]
    else if c < 0x1_0000 then [0xE0 + c / 64 / 64, 0x80 + c / 64 % 64, 0x80 + c % 64]
    else [0xF0 + c / 64 / 64 / 64, 0x80 + c / 64 / 64 % 64, 0x80 + c / 64 % 64, 0x80 + c % 64]
  }

  ghost predicate AllScalar(text: seq<nat>) {
    forall i :: 0 <= i < |text| ==> Scalar(text[i])
  }

  ghost function EncodeAll(text: seq<nat>): bytes
    requires AllScalar(text)
  {
    if text == [] then [] else Encode(text[0]) + EncodeAll(text[1..])
  }

  // ----- one character ------------------------------------------------------

  lemma EncodedIsCharacter(c: nat, rest: bytes)
    requires Scalar(c)
    ensures Character(Encode(c) + rest) == |Encode(c)|
  {
    var b := Encode(c) + rest;
    assert forall i :: 0 <= i < |Encode(c)| ==> b[i] == Encode(c)[i];
  }

  /** Six bits more. */
  lemma Six(a: nat, d: nat)
    requires d < 64
    ensures (64 * a + d) / 64 == a && (64 * a + d) % 64 == d
  {
  }

  lemma CharacterIsEncoded(b: bytes) returns (c: nat)
    requires Character(b) > 0
    ensures Scalar(c) && b[..Character(b)] == Encode(c)
  {
    var n := Character(b);
    if n == 1 {
      c := b[0];
    } else if n == 2 {
      c := TwoOctets(b);
    } else if n == 3 {
      c := ThreeOctets(b);
    } else {
      c := FourOctets(b);
    }
  }

  lemma TwoOctets(b: bytes) returns (c: nat)
    requires Character(b) == 2
    ensures Scalar(c) && b[..2] == Encode(c)
  {
    var x: nat, y: nat := b[0] - 0xC0, b[1] - 0x80;
    Six(x, y);
    c := 64 * x + y;
  }

  lemma ThreeOctets(b: bytes) returns (c: nat)
    requires Character(b) == 3
    ensures Scalar(c) && b[..3] == Encode(c)
  {
    var x: nat, y: nat, z: nat := b[0] - 0xE0, b[1] - 0x80, b[2] - 0x80;
    Six(x, y);
    Six(64 * x + y, z);
    c := 64 * (64 * x + y) + z;
  }

  lemma FourOctets(b: bytes) returns (c: nat)
    requires Character(b) == 4
    ensures Scalar(c) && b[..4] == Encode(c)
  {
    var w: nat, x: nat, y: nat, z: nat := b[0] - 0xF0, b[1] - 0x80, b[2] - 0x80, b[3] - 0x80;
    Six(w, x);
    Six(64 * w + x, y);
    Six(64 * (64 * w + x) + y, z);
    c := 64 * (64 * (64 * w + x) + y) + z;
  }

  // ----- whole texts --------------------------------------------------------

  lemma {:induction false} EncodedIsValid(text: seq<nat>)
    requires AllScalar(text)
    ensures Valid(EncodeAll(text))
  {
    if text != [] {
      var rest := EncodeAll(text[1..]);
      EncodedIsValid(text[1..]);
      EncodedIsCharacter(text[0], rest);
      assert EncodeAll(text)[|Encode(text[0])|..] == rest;
    }
  }

  lemma {:induction false} ValidIsEncoded(b: bytes) returns (text: seq<nat>)
    requires Valid(b)
    ensures AllScalar(text) && b == EncodeAll(text)
    decreases |b|
  {
    if b == [] {
      text := [];
    } else {
      var n := Character(b);
      var c := CharacterIsEncoded(b);
      var rest := ValidIsEncoded(b[n..]);
      text := [c] + rest;
      assert text[1..] == rest && b == b[..n] + b[n..];
    }
  }

  /** Octets are well formed exactly when they encode some text. */
  lemma ValidExactly(b: bytes)
    ensures Valid(b) <==> exists text: seq<nat> :: AllScalar(text) && b == EncodeAll(text)
  {
    if Valid(b) {
      var text := ValidIsEncoded(b);
    }
    forall text: seq<nat> | AllScalar(text) && b == EncodeAll(text) ensures Valid(b) {
      EncodedIsValid(text);
    }
  }
}
