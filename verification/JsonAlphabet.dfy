/** The letters of the JSON grammar told by their characters, and how far its numbers go. */
module JsonAlphabet {
  import opened Texts
  import opened Json
  import opened JsonRoundTrip
  import W = Vocabulary

  const ESCAPED: Text := W.Units("\"\\/bfnrt")
  const MEANT: Text := W.Units("\"\\/\U{8}\U{C}\n\r\t")
  const LOWER: Text := W.Units("0123456789abcdef")
  const UPPER: Text := W.Units("0123456789ABCDEF")

  /** The two-character escapes are those of section 7 of RFC 8259, each with its meaning, and no others. */
  lemma EscapesExact(code: Unit)
    ensures |ESCAPED| == |MEANT|
    ensures forall i :: 0 <= i < |ESCAPED| && ESCAPED[i] == code ==> Unescape(code) == Some(MEANT[i])
    ensures code !in ESCAPED ==> Unescape(code) == None
  {
    assert ESCAPED == [QUOTE, BACKSLASH, SLASH, 0x62, 0x66, 0x6E, 0x72, 0x74];
    assert MEANT == [QUOTE, BACKSLASH, SLASH, 0x08, 0x0C, 0x0A, 0x0D, 0x09];
  }

  /** A hexadecimal digit has the value of its place among the digits, in either case. */
  lemma HexExact(u: Unit)
    ensures |LOWER| == |UPPER| == 16
    ensures forall i :: 0 <= i < 16 && (LOWER[i] == u || UPPER[i] == u) ==> HexDigit(u) == Some(i)
    ensures u !in LOWER && u !in UPPER ==> HexDigit(u) == None
  {
    LowerExact(u);
    UpperExact(u);
  }

  lemma LowerExact(u: Unit)
    ensures |LOWER| == 16 && forall i :: 0 <= i < 16 && LOWER[i] == u ==> HexDigit(u) == Some(i)
    ensures 0x30 <= u <= 0x39 ==> LOWER[u - 0x30] == u
    ensures 0x61 <= u <= 0x66 ==> LOWER[u - 0x57] == u
  {
    assert LOWER ==
      [0x30, 0x31, 0x32, 0x33, 0x34, 0x35, 0x36, 0x37, 0x38, 0x39, 0x61, 0x62, 0x63, 0x64, 0x65, 0x66];
  }

  lemma UpperExact(u: Unit)
    ensures |UPPER| == 16 && forall i :: 0 <= i < 16 && UPPER[i] == u ==> HexDigit(u) == Some(i)
    ensures 0x41 <= u <= 0x46 ==> UPPER[u - 0x37] == u
  {
    assert UPPER ==
      [0x30, 0x31, 0x32, 0x33, 0x34, 0x35, 0x36, 0x37, 0x38, 0x39, 0x41, 0x42, 0x43, 0x44, 0x45, 0x46];
  }

  /** White space and the letters that begin an exponent. */
  lemma BlanksExact(u: Unit)
    ensures IsBlank(u) <==> u in W.Units(" \t\n\r")
    ensures IsMarker(u) <==> u in W.Units("eE")
  {
    assert W.Units(" \t\n\r") == [0x20, 0x09, 0x0A, 0x0D];
    assert W.Units("eE") == [0x65, 0x45];
  }

  // ---------------------------------------------------------------- how far numbers go

  lemma {:induction false} PowerSum(base: int, m: nat, n: nat)
    ensures Power(base, m + n) == Power(base, m) * Power(base, n)
  {
    if m > 0 { PowerSum(base, m - 1, n); }
  }

  lemma {:induction false} PowerOfPower(base: int, m: nat, n: nat)
    ensures Power(base, m * n) == Power(Power(base, m), n)
  {
    if n > 0 {
      PowerOfPower(base, m, n - 1);
      assert m * n == m + m * (n - 1);
      PowerSum(base, m, m * (n - 1));
    } else {
      assert m * n == 0;
    }
  }

  lemma Interchanged(a: int, b: int, x: int, y: int)
    ensures (a * b) * (x * y) == (a * x) * (b * y)
  {
    assert (a * b) * (x * y) == a * (b * (x * y));
    assert b * (x * y) == x * (b * y);
    assert a * (x * (b * y)) == (a * x) * (b * y);
  }

  lemma {:induction false} PowerOfProduct(a: int, b: int, n: nat)
    ensures Power(a * b, n) == Power(a, n) * Power(b, n)
  {
    if n > 0 {
      PowerOfProduct(a, b, n - 1);
      Interchanged(a, b, Power(a, n - 1), Power(b, n - 1));
    }
  }

  lemma {:induction false} PowerRises(a: int, b: int, n: nat)
    requires 0 <= a <= b
    ensures 0 <= Power(a, n) <= Power(b, n)
  {
    if n > 0 {
      PowerRises(a, b, n - 1);
      Times(a, b, Power(a, n - 1), Power(b, n - 1));
    }
  }

  lemma Times(a: int, b: int, x: int, y: int)
    requires 0 <= a <= b && 0 <= x <= y
    ensures 0 <= a * x <= b * y
  {
    assert a * x <= b * x && b * x <= b * y;
  }

  lemma PowersOfFive()
    ensures Power(5, 28) == 37252902984619140625
    ensures Power(5, 29) == 186264514923095703125
    ensures Power(5, 31) == 4656612873077392578125
  {
    assert Power(5, 3) == 125 && Power(5, 4) == 625 && Power(5, 1) == 5;
    PowerSum(5, 4, 4);
    PowerSum(5, 8, 8);
    PowerSum(5, 16, 8);
    PowerSum(5, 24, 4);
    PowerSum(5, 28, 1);
    PowerSum(5, 28, 3);
  }

  lemma PowersOfTwo()
    ensures Power(2, 14) == 0x4000
    ensures Power(2, 54) == 0x40_0000_0000_0000
    ensures Power(2, 65) == 0x2_0000_0000_0000_0000
    ensures Power(2, 72) == 0x100_0000_0000_0000_0000
  {
    assert Power(2, 7) == 128 && Power(2, 6) == 64 && Power(2, 4) == 16;
    PowerSum(2, 7, 7);
    PowerSum(2, 14, 14);
    PowerSum(2, 28, 14);
    PowerSum(2, 42, 6);
    PowerSum(2, 48, 6);
    PowerSum(2, 54, 7);
    PowerSum(2, 61, 4);
    PowerSum(2, 65, 7);
  }

  /** `5^308` is at least `2^715`. */
  lemma FiveLarge(n: nat)
    requires n == 11
    ensures Power(2, 65 * n) <= Power(5, 28 * n)
  {
    PowersOfFive();
    PowersOfTwo();
    PowerOfPower(5, 28, n);
    PowerOfPower(2, 65, n);
    PowerRises(Power(2, 65), Power(5, 28), n);
  }

  /** And below the bound of a double, its tens divided out. */
  lemma FiveSmall(n: nat)
    requires n == 9
    ensures Power(5, 31 * n + 29) < (Power(2, 54) - 1) * Power(2, 72 * n + 14)
  {
    PowersOfFive();
    PowersOfTwo();
    PowerOfPower(5, 31, n);
    PowerOfPower(2, 72, n);
    PowerRises(Power(5, 31), Power(2, 72), n);
    PowerSum(5, 31 * n, 29);
    PowerSum(2, 72 * n, 14);
    PowerPositive(72 * n);
    Between(Power(5, 31 * n), Power(2, 72 * n), Power(5, 29), Power(2, 54) - 1, Power(2, 14));
  }

  lemma Between(five: int, two: int, x: int, y: int, z: int)
    requires 0 <= five <= two && 1 <= two && 0 <= x < y * z
    ensures five * x < y * (two * z)
  {
    Times(five, two, x, x);
    TimesMore(two, x, y * z);
    Regrouped(two, y, z);
  }

  lemma {:induction false} PowerPositive(n: nat)
    ensures Power(2, n) >= 1
  {
    if n > 0 { PowerPositive(n - 1); }
  }

  lemma TimesMore(a: int, x: int, y: int)
    requires a >= 1 && x < y
    ensures a * x < a * y
  {
  }

  lemma Regrouped(a: int, b: int, c: int)
    ensures a * (b * c) == b * (a * c)
  {
  }

  /** The tens of `m * 10^308` taken apart, against the bound. */
  lemma Tens(n: nat, m: int)
    requires n == 308 && (m == 1 || m == 2)
    ensures m * Power(10, n) >= (Power(2, 54) - 1) * Power(2, n + 662) <==> m == 2
  {
    var top := (Power(2, 54) - 1) * Power(2, n + 354);
    FiveLarge(11);
    FiveSmall(9);
    assert Power(5, n) < top;
    TopBelow(n + 354);
    PowerSum(2, n + 354, 54);
    PowerSum(2, 1, n + 407);
    assert 2 * Power(5, n) >= top;
    PowerOfProduct(2, 5, n);
    PowerSum(2, n, n + 354);
    PowerPositive(n);
    Regrouped(Power(2, n), Power(2, 54) - 1, Power(2, n + 354));
    Compared(Power(2, n), m * Power(5, n), top);
    Regrouped(Power(2, n), m, Power(5, n));
  }

  lemma TopBelow(n: nat)
    ensures (Power(2, 54) - 1) * Power(2, n) <= Power(2, n) * Power(2, 54)
  {
    PowerPositive(n);
  }

  lemma Compared(a: int, x: int, y: int)
    requires a >= 1
    ensures a * x >= a * y <==> x >= y
  {
    if x < y { TimesMore(a, x, y); }
  }

  /** The literal of a digit with a positive exponent. */
  function Scientific(digit: Unit, exponent: Text): Literal {
    Literal(false, [digit], None, Some(Exponent(0x65, [], exponent)))
  }

  lemma OverflowsAt(digit: Unit, exponent: Text, m: int, n: nat)
    requires DigitsValue([digit] + []) == m && DigitsValue(exponent) == n
    ensures Overflows(Scientific(digit, exponent)) <==> m * Power(10, n) >= (Power(2, 54) - 1) * Power(2, 970)
  {
  }

  /** A double holds `1e308`, but not `2e308`. */
  lemma DoubleRange()
    ensures !Overflows(Scientific(0x31, W.Units("308"))) && Overflows(Scientific(0x32, W.Units("308")))
  {
    assert W.Units("308") == [0x33, 0x30, 0x38];
    ThreeDigits();
    Mantissas();
    var n := DigitsValue(W.Units("308"));
    OverflowsAt(0x31, W.Units("308"), 1, n);
    OverflowsAt(0x32, W.Units("308"), 2, n);
    Tens(n, 1);
    Tens(n, 2);
  }

  lemma Mantissas()
    ensures DigitsValue([0x31] + []) == 1 && DigitsValue([0x32] + []) == 2
  {
    assert [0x31] + [] == [0x31] && [0x32] + [] == [0x32];
    assert [0x31][..0] == [] && [0x32][..0] == [];
  }

  lemma ThreeDigits()
    ensures DigitsValue([0x33, 0x30, 0x38]) == 308
  {
    assert [0x33, 0x30, 0x38][..2] == [0x33, 0x30] && [0x33, 0x30][..1] == [0x33] && [0x33][..0] == [];
    assert DigitsValue([0x33]) == 3;
    assert DigitsValue([0x33, 0x30]) == 30;
  }
}
