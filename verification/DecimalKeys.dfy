/** Sequence numbers as zero-padded decimal keys, and how such keys are read and ordered. */
module DecimalKeys {
  import opened Bytes
  import opened Store

  const ZERO: byte := 0x30
  const PLUS: byte := 0x2B
  const WIDTH: nat := 20

  function Pow10(n: nat): (r: nat)
    ensures r > 0
  {
    if n == 0 then 1 else 10 * Pow10(n - 1)
  }

  function Digits(n: nat, width: nat): (r: bytes)
    ensures |r| == width
  {
    if width == 0 then [] else Digits(n / 10, width - 1) + [ZERO + n % 10]
  }

  function Key(n: nat): bytes {
    Digits(n, WIDTH)
  }

  predicate IsDigit(b: byte) {
    ZERO <= b < ZERO + 10
  }

  predicate AllDigits(text: bytes) {
    forall i :: 0 <= i < |text| ==> IsDigit(text[i])
  }

  function Value(text: bytes): nat
    requires AllDigits(text)
  {
    if text == [] then 0 else 10 * Value(text[..|text| - 1]) + (text[|text| - 1] - ZERO)
  }

  /** Decimal digits, after an optional plus sign, of a number of 64 bits. */
  function Parse(key: bytes): Option<nat> {
    var text := if |key| > 0 && key[0] == PLUS then key[1..] else key;
    if text == [] || !AllDigits(text) || Value(text) > U64_MAX then None else Some(Value(text))
  }

  // ----- reading keys -------------------------------------------------------

  lemma {:induction false} DigitsValue(n: nat, width: nat)
    requires n < Pow10(width)
    ensures AllDigits(Digits(n, width)) && Value(Digits(n, width)) == n
  {
    if width > 0 {
      DigitsValue(n / 10, width - 1);
      var text := Digits(n, width);
      assert text[..|text| - 1] == Digits(n / 10, width - 1);
    }
  }

  lemma WidthSuffices()
    ensures U64_MAX < Pow10(WIDTH)
  {
    assert Pow10(4) == 10_000;
    assert Pow10(8) == 100_000_000;
    assert Pow10(12) == 1_000_000_000_000;
    assert Pow10(16) == 10_000_000_000_000_000;
    assert Pow10(20) == 100_000_000_000_000_000_000;
  }

  /** A key is read back as its number. */
  lemma ParseKey(n: nat)
    requires n <= U64_MAX
    ensures Parse(Key(n)) == Some(n)
  {
    WidthSuffices();
    DigitsValue(n, WIDTH);
    assert IsDigit(Key(n)[0]);
  }

  lemma {:induction false} ValueDigits(text: bytes)
    requires AllDigits(text)
    ensures Value(text) < Pow10(|text|) && Digits(Value(text), |text|) == text
  {
    if text != [] {
      var front, last := text[..|text| - 1], text[|text| - 1];
      ValueDigits(front);
      assert Value(text) / 10 == Value(front) && Value(text) % 10 == last - ZERO;
      assert text == front + [last];
    }
  }

  /** The digits of `n`, zeros in front allowed. */
  predicate Spells(text: bytes, n: nat) {
    |text| > 0 && n < Pow10(|text|) && text == Digits(n, |text|)
  }

  /** A key has a number exactly when it spells it, after a plus sign or not, and the number has 64 bits. */
  lemma ParseExactly(key: bytes, n: nat)
    ensures Parse(key) == Some(n)
            <==> n <= U64_MAX && (Spells(key, n) || (key != [] && key[0] == 0x2B && Spells(key[1..], n)))
  {
    var text := if |key| > 0 && key[0] == PLUS then key[1..] else key;
    if AllDigits(text) {
      ValueDigits(text);
    }
    if Spells(text, n) {
      DigitsValue(n, |text|);
    }
    if Spells(key, n) {
      DigitsValue(n, |key|);
      assert IsDigit(key[0]);
    }
  }

  // ----- ordering keys ------------------------------------------------------

  lemma {:induction false} BeforePush(a: bytes, b: bytes, x: byte, y: byte)
    requires |a| == |b| && (Before(a, b) || (a == b && x < y))
    ensures Before(a + [x], b + [y])
  {
    if a != [] {
      var s, t := a + [x], b + [y];
      assert s[0] == a[0] && t[0] == b[0] && s[1..] == a[1..] + [x] && t[1..] == b[1..] + [y];
      if a[0] == b[0] {
        BeforePush(a[1..], b[1..], x, y);
      }
    }
  }

  lemma {:induction false} DigitsOrder(m: nat, n: nat, width: nat)
    requires m < n < Pow10(width)
    ensures Before(Digits(m, width), Digits(n, width))
  {
    if width > 0 {
      if m / 10 < n / 10 {
        DigitsOrder(m / 10, n / 10, width - 1);
      }
      BeforePush(Digits(m / 10, width - 1), Digits(n / 10, width - 1), ZERO + m % 10, ZERO + n % 10);
    }
  }

  /** Keys are ordered as their numbers are. */
  lemma KeyOrder(m: nat, n: nat)
    requires m <= U64_MAX && n <= U64_MAX
    ensures Before(Key(m), Key(n)) <==> m < n
  {
    WidthSuffices();
    if m < n {
      DigitsOrder(m, n, WIDTH);
    } else if n < m {
      DigitsOrder(n, m, WIDTH);
      BeforeAsymmetric(Key(n), Key(m));
    } else {
      BeforeIrreflexive(Key(m));
    }
  }
}
