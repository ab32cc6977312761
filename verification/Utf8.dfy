/** Well-formed UTF-8, as in section 4 of RFC 3629. */
module Utf8 {
  import opened Bytes

  predicate Within(b: bytes, i: nat, low: byte, high: byte) {
    i < |b| && low <= b[i] <= high
  }

  predicate Follow(b: bytes, i: nat) {
    Within(b, i, 0x80, 0xBF)
  }

  /** The length of the well-formed character at the front, or 0. */
  function Character(b: bytes): (n: nat)
    ensures n <= |b|
  {
    if b == [] then 0
    else if b[0] <= 0x7F then 1
    else if 0xC2 <= b[0] <= 0xDF && Follow(b, 1) then 2
    else if b[0] == 0xE0 && Within(b, 1, 0xA0, 0xBF) && Follow(b, 2) then 3
    else if b[0] == 0xED && Within(b, 1, 0x80, 0x9F) && Follow(b, 2) then 3
    else if 0xE1 <= b[0] <= 0xEF && b[0] != 0xED && Follow(b, 1) && Follow(b, 2) then 3
    else if b[0] == 0xF0 && Within(b, 1, 0x90, 0xBF) && Follow(b, 2) && Follow(b, 3) then 4
    else if 0xF1 <= b[0] <= 0xF3 && Follow(b, 1) && Follow(b, 2) && Follow(b, 3) then 4
    else if b[0] == 0xF4 && Within(b, 1, 0x80, 0x8F) && Follow(b, 2) && Follow(b, 3) then 4
    else 0
  }

  predicate Valid(b: bytes)
    decreases |b|
  {
    b == [] || (Character(b) > 0 && Valid(b[Character(b)..]))
  }
}
