/** atoi of stdlib.c, and its round trip with the %d of printf.c. */
module Atoi {
  import opened Arithmetic
  import opened NumberText

  const WORD: int := 0x1_0000_0000

  lemma Int32Shift(x: int, k: int)
    ensures Int32(x + k * WORD) == Int32(x)
  {
    var y := x + 0x8000_0000;
    DivModUnique(y + k * WORD, WORD, y / WORD + k, y % WORD);
  }

  lemma Int32Keeps(x: int)
    requires -0x8000_0000 <= x < 0x8000_0000
    ensures Int32(x) == x
  {
    DivModUnique(x + 0x8000_0000, WORD, 0, x + 0x8000_0000);
  }

  lemma Int32Differs(x: int) returns (k: int)
    ensures Int32(x) == x + k * WORD
  {
    k := -((x + 0x8000_0000) / WORD);
  }

  // Wrapping early and wrapping late give the same
  lemma Int32Step(x: int, c: int)
    ensures Int32(Int32(Int32(x) * 10) + c) == Int32(x * 10 + c)
  {
    var k := Int32Differs(x);
    var m := Int32Differs(Int32(x) * 10);
    assert Int32(x) * 10 == x * 10 + k * 10 * WORD;
    Int32Shift(x * 10 + c, k * 10 + m);
  }

  lemma Int32Sign(x: int, sign: int)
    requires sign == 1 || sign == -1
    ensures Int32(Int32(x) * sign) == Int32(x * sign)
  {
    var k := Int32Differs(x);
    Int32Shift(x * sign, k * sign);
  }

  /** The number that a text stands for when each character counts as its distance from '0'. */
  function Decimal(s: string): int {
    if s == "" then 0 else Decimal(s[..|s| - 1]) * 10 + (s[|s| - 1] as int - 48)
  }

  /** What atoi makes of a text: the number behind an optional minus, reduced to an int. */
  function AtoiValue(s: string): int {
    if s != "" && s[0] == '-' then Int32(-Decimal(s[1..])) else Int32(Decimal(s))
  }

  /** atoi on the characters before the terminating NUL. */
  method AtoiText(nptr: string) returns (r: int)
    ensures r == AtoiValue(nptr)
  {
    var start, sign, res := 0, 1, 0;
    if nptr != "" && nptr[0] == '-' { start, sign := 1, -1; }
    ghost var first: nat := start;
    while start < |nptr|
      invariant first <= start <= |nptr| && res == Int32(Decimal(nptr[first..start]))
    {
      var c := nptr[start] as int - 48;
      assert nptr[first..start + 1][..start - first] == nptr[first..start];
      Int32Step(Decimal(nptr[first..start]), c);
      res := Int32(res * 10);
      res := Int32(res + c);
      start := start + 1;
    }
    assert nptr[first..start] == nptr[first..] && nptr[0..] == nptr;
    Int32Sign(Decimal(nptr[first..]), sign);
    r := Int32(res * sign);
  }

  // ---- reading back what was printed

  predicate DecimalDigits(s: string) {
    forall i {:trigger s[i]} :: 0 <= i < |s| ==> '0' <= s[i] <= '9'
  }

  lemma DecimalSnoc(s: string, c: char)
    ensures Decimal(s + [c]) == Decimal(s) * 10 + (c as int - 48)
  {
    assert (s + [c])[..|s|] == s;
  }

  lemma {:induction false} DecimalIsValue(s: string)
    requires DecimalDigits(s)
    ensures Decimal(s) == ValueOf(s, 10)
  {
    if s != "" { DecimalIsValue(s[..|s| - 1]); }
  }

  lemma {:induction false} LeadingZeros(n: int, s: string)
    ensures Decimal(Rep('0', n) + s) == Decimal(s)
    decreases |s|, n
  {
    if s == "" {
      EmptyRight(Rep('0', n));
      if n > 0 {
        LeadingZeros(n - 1, "");
        EmptyRight(Rep('0', n - 1));
        RepJoin('0', n - 1, 1);
        DecimalSnoc(Rep('0', n - 1), '0');
        assert Rep('0', 1) == "0";
      }
    } else {
      var z, t := Rep('0', n), s[..|s| - 1];
      LeadingZeros(n, t);
      assert z + s == z + t + [s[|s| - 1]];
      DecimalSnoc(z + t, s[|s| - 1]);
    }
  }

  lemma {:induction false} NumeralIsDecimal(v: nat)
    ensures DecimalDigits(Numeral(v, 10, false))
  {
    var q, d := v / 10, DigitChar(v % 10, false);
    QuotIs(v, 10);
    Turn(v, 10, false, q, d);
    if q > 0 {
      NumeralIsDecimal(q);
      DecimalAppends(Numeral(q, 10, false), d);
    }
  }

  lemma DecimalAppends(t: string, c: char)
    requires DecimalDigits(t) && '0' <= c <= '9'
    ensures DecimalDigits(t + [c])
  {
  }

  /** The text of %d, plain or padded with zeros to at most 32 characters. */
  function PrintD(x: int, width: nat): string {
    Field(RevDigits(Abs(x), 10, false, ROOM), if x < 0 then "-" else "",
          Flags(false, width > 0, false, false, false, false, width, 0))
  }

  // The text is sign, zeros and digits
  lemma PrintShape(digits: string, sign: string, f: Flags) returns (zeros: int)
    requires !f.left && !f.hasPrec && f.prec == 0 && (f.zero <==> f.width > 0) && f.width <= ROOM
    ensures Standard(digits, sign, f) == sign + (Rep('0', zeros) + digits)
  {
    EmptyLeft(digits);
    if f.zero {
      zeros := f.width - |sign| - |digits|;
      Assoc(sign, Rep('0', zeros), digits);
    } else {
      zeros := 0;
      EmptyLeft(sign);
    }
  }

  lemma ZerosAreDecimal(n: int, digits: string)
    requires DecimalDigits(digits)
    ensures DecimalDigits(Rep('0', n) + digits)
  {
    var s := Rep('0', n) + digits;
    forall i | 0 <= i < |s| ensures '0' <= s[i] <= '9' {
      if i < |s| - |digits| { RepAt('0', n, i); } else { assert s[i] == digits[i - (|s| - |digits|)]; }
    }
  }

  lemma ReadsMinus(d: string)
    ensures AtoiValue("-" + d) == Int32(-Decimal(d))
  {
    var s := "-" + d;
    assert s[0] == '-' && s[1..] == d;
  }

  // A text of zeros and digits
  lemma ReadsDigits(digits: string, zeros: int)
    requires digits != "" && DecimalDigits(digits)
    ensures var d := Rep('0', zeros) + digits; Decimal(d) == Decimal(digits) && AtoiValue(d) == Int32(Decimal(digits))
  {
    var d := Rep('0', zeros) + digits;
    LeadingZeros(zeros, digits);
    ZerosAreDecimal(zeros, digits);
    assert '0' <= d[0] <= '9';
  }

  function DigitsOf(v: nat): string {
    Numeral(v, 10, false)
  }

  lemma DigitsOfFacts(v: nat)
    requires v < Power(10, 31)
    ensures var d := DigitsOf(v); d != "" && |d| <= 31 && DecimalDigits(d) && Decimal(d) == v
    ensures Rev(DigitsOf(v)) == RevDigits(v, 10, false, ROOM)
  {
    NumeralFits(v, 10, false, 31);
    NumeralIsDecimal(v);
    DecimalIsValue(DigitsOf(v));
    NumeralDenotes(v, 10, false);
    assert Power(10, 32) == 10 * Power(10, 31);
    NumeralIsReversed(v, 10, false, ROOM);
    RevTwice(RevDigits(v, 10, false, ROOM));
  }

  lemma PrintDText(x: int, width: nat) returns (zeros: int)
    requires Abs(x) < Power(10, 31) && width <= ROOM
    ensures PrintD(x, width) == (if x < 0 then "-" else "") + (Rep('0', zeros) + DigitsOf(Abs(x)))
  {
    var sign, f, d := if x < 0 then "-" else "",
        Flags(false, width > 0, false, false, false, false, width, 0), DigitsOf(Abs(x));
    DigitsOfFacts(Abs(x));
    forall i | 0 <= i < |d| ensures IsDigitChar(d[i]) { }
    FieldIsStandard(d, sign, f);
    zeros := PrintShape(d, sign, f);
  }

  /** atoi reads %d, plain or zero-padded to at most 32 characters, back as x modulo 2^32. */
  lemma AtoiReadsPrintD(x: int, width: nat)
    requires Abs(x) < Power(10, 31) && width <= ROOM
    ensures AtoiValue(PrintD(x, width)) == Int32(x)
  {
    var zeros := PrintDText(x, width);
    var d := DigitsOf(Abs(x));
    DigitsOfFacts(Abs(x));
    ReadsDigits(d, zeros);
    if x < 0 { ReadsMinus(Rep('0', zeros) + d); } else { EmptyLeft(Rep('0', zeros) + d); }
  }
}
