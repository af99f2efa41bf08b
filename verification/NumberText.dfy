/** The text that printf.c makes of an integer, and what the C standard (section 7.21.6.1 of C11) asks for. */
module NumberText {
  import opened Arithmetic

  // PRINTF_NTOA_BUFFER_SIZE
  const ROOM: nat := 32

  datatype Flags = Flags(left: bool, zero: bool, plus: bool,
                         space: bool, upper: bool, hasPrec: bool, width: nat, prec: nat)

  function Rep(c: char, n: int): (s: string)
    ensures |s| == if n < 0 then 0 else n
  {
    if n <= 0 then "" else seq(n, _ => c)
  }

  lemma RepTail(c: char, n: int)
    requires n > 0
    ensures Rep(c, n) == [c] + Rep(c, n - 1)
  {
  }

  function Rev(s: string): (r: string)
    ensures |r| == |s|
  {
    if s == "" then "" else Rev(s[1..]) + [s[0]]
  }

  lemma RepAt(c: char, n: int, i: nat)
    requires i < n
    ensures Rep(c, n)[i] == c
  {
  }

  lemma RepJoin(c: char, m: nat, n: nat)
    ensures Rep(c, m) + Rep(c, n) == Rep(c, m + n)
  {
  }

  lemma Assoc(a: string, b: string, c: string)
    ensures a + b + c == a + (b + c)
  {
  }

  lemma EmptyLeft(a: string)
    ensures "" + a == a
  {
  }

  lemma EmptyRight(a: string)
    ensures a + "" == a
  {
  }

  lemma {:induction false} RevJoin(a: string, b: string)
    ensures Rev(a + b) == Rev(b) + Rev(a)
  {
    if a == "" {
      EmptyLeft(b);
      EmptyRight(Rev(b));
    } else {
      assert (a + b)[1..] == a[1..] + b;
      RevJoin(a[1..], b);
      Assoc(Rev(b), Rev(a[1..]), [a[0]]);
    }
  }

  lemma RevOne(c: char)
    ensures Rev([c]) == [c]
  {
    EmptyLeft([c]);
  }

  lemma {:induction false} RevTwice(a: string)
    ensures Rev(Rev(a)) == a
  {
    if a != "" {
      RevTwice(a[1..]);
      RevJoin(Rev(a[1..]), [a[0]]);
      RevOne(a[0]);
      assert a == [a[0]] + a[1..];
    }
  }

  lemma {:induction false} RevRep(c: char, n: int)
    ensures Rev(Rep(c, n)) == Rep(c, n)
    decreases if n < 0 then 0 else n
  {
    if n > 0 {
      RevRep(c, n - 1);
      RepTail(c, n);
      assert ([c] + Rep(c, n - 1))[1..] == Rep(c, n - 1);
      RepJoin(c, n - 1, 1);
      assert Rep(c, 1) == [c];
    }
  }

  // ---- digits

  function DigitChar(d: nat, upper: bool): char
    requires d < 16
  {
    if d < 10 then '0' + d as char else (if upper then 'A' else 'a') + (d - 10) as char
  }

  function DigitValue(c: char): nat {
    if '0' <= c <= '9' then (c - '0') as nat else if 'a' <= c <= 'f' then (c - 'a') as nat + 10
    else if 'A' <= c <= 'F' then (c - 'A') as nat + 10 else 0
  }

  predicate IsDigitChar(c: char) {
    '0' <= c <= '9' || 'a' <= c <= 'f' || 'A' <= c <= 'F'
  }

  // v / base and v % base by subtraction, which spares the proofs about digits nonlinear arithmetic
  function Quot(v: nat, base: nat): (q: nat)
    requires base >= 2
    ensures q < v || q == v == 0
  {
    if v < base then 0 else 1 + Quot(v - base, base)
  }

  function Rest(v: nat, base: nat): (r: nat)
    requires base >= 2
    ensures r < base
  {
    if v < base then v else Rest(v - base, base)
  }

  lemma {:induction false} Euclid(v: nat, base: nat)
    requires base >= 2
    ensures Rest(v, base) + base * Quot(v, base) == v
  {
    if v >= base {
      Euclid(v - base, base);
      Distribute(base, Quot(v - base, base));
    }
  }

  lemma Distribute(b: nat, q: nat)
    ensures b * (1 + q) == b + b * q
  {
  }

  /** They are what C computes. */
  lemma QuotIs(v: nat, base: nat)
    requires base >= 2
    ensures Quot(v, base) == v / base && Rest(v, base) == v % base
  {
    Euclid(v, base);
    DivModUnique(v, base, Quot(v, base), Rest(v, base));
  }

  /** The digits of v from the lowest, as many as there is room for: the loop of lines 296-300. */
  function RevDigits(v: nat, base: nat, upper: bool, room: nat): (s: string)
    requires 2 <= base <= 16 && room > 0
    ensures 1 <= |s| <= room && forall i :: 0 <= i < |s| ==> IsDigitChar(s[i])
    decreases room
  {
    var q := Quot(v, base);
    [DigitChar(Rest(v, base), upper)] + if q > 0 && room > 1 then RevDigits(q, base, upper, room - 1) else []
  }

  function Power(base: nat, n: nat): nat {
    if n == 0 then 1 else base * Power(base, n - 1)
  }

  lemma Grows(b: nat, x: nat, y: nat)
    requires x <= y
    ensures b * x <= b * y
  {
  }

  // The product of base and q is between, and does not reach beyond, v
  lemma Bounds(base: nat, q: nat, p: nat, v: nat)
    requires base > 0 && base * q <= v < base * q + base
    ensures v < base * p ==> q < p
    ensures v >= base * p ==> q >= p
  {
    if q >= p { Grows(base, p, q); } else { Grows(base, q + 1, p); Distribute(base, q); }
  }

  lemma QuotientBounds(v: nat, base: nat, p: nat)
    requires base >= 2
    ensures v < base * p ==> Quot(v, base) < p
    ensures v >= base * p ==> Quot(v, base) >= p
  {
    Euclid(v, base);
    Bounds(base, Quot(v, base), p, v);
  }

  lemma DigitOf(d: nat, upper: bool)
    requires d < 16
    ensures DigitValue(DigitChar(d, upper)) == d
  {
  }

  // ---- the numeral of a value, highest digit first, however long

  lemma DigitsSnoc(t: string, c: char)
    requires Digits(t) && IsDigitChar(c)
    ensures Digits(t + [c])
  {
  }

  function Numeral(v: nat, base: nat, upper: bool): (s: string)
    requires 2 <= base <= 16
    ensures s != "" && Digits(s)
  {
    if Quot(v, base) == 0 then [DigitChar(Rest(v, base), upper)]
    else
      DigitsSnoc(Numeral(Quot(v, base), base, upper), DigitChar(Rest(v, base), upper));
      Numeral(Quot(v, base), base, upper) + [DigitChar(Rest(v, base), upper)]
  }

  predicate Digits(s: string) {
    forall i {:trigger s[i]} :: 0 <= i < |s| ==> IsDigitChar(s[i])
  }

  /** The number a text of digits stands for. */
  function ValueOf(s: string, base: nat): nat {
    if s == "" then 0 else base * ValueOf(s[..|s| - 1], base) + DigitValue(s[|s| - 1])
  }

  lemma ValueJoins(t: string, d: char, q: nat, base: nat, v: nat)
    requires ValueOf(t, base) == q && base * q + DigitValue(d) == v
    ensures ValueOf(t + [d], base) == v
  {
    assert (t + [d])[..|t|] == t;
  }

  // What one turn of either recursion does, with quotient and digit named
  lemma Turn(v: nat, base: nat, upper: bool, q: nat, d: char)
    requires 2 <= base <= 16 && q == Quot(v, base) && d == DigitChar(Rest(v, base), upper)
    ensures Numeral(v, base, upper) == if q == 0 then [d] else Numeral(q, base, upper) + [d]
  {
  }

  lemma TurnValue(v: nat, base: nat, upper: bool, q: nat, d: char)
    requires 2 <= base <= 16 && q == Quot(v, base) && d == DigitChar(Rest(v, base), upper)
    ensures base * q + DigitValue(d) == v && (v == 0 ==> q == 0 && d == '0')
  {
    DigitOf(Rest(v, base), upper);
    Euclid(v, base);
  }

  lemma TurnDigits(v: nat, base: nat, upper: bool, room: nat, q: nat, d: char)
    requires 2 <= base <= 16 && room > 0 && q == Quot(v, base) && d == DigitChar(Rest(v, base), upper)
    ensures RevDigits(v, base, upper, room) ==
            [d] + if q > 0 && room > 1 then RevDigits(q, base, upper, room - 1) else []
  {
  }

  /** The numeral stands for the value. */
  lemma {:induction false} NumeralDenotes(v: nat, base: nat, upper: bool)
    requires 2 <= base <= 16
    ensures ValueOf(Numeral(v, base, upper), base) == v
  {
    var q, d := Quot(v, base), DigitChar(Rest(v, base), upper);
    Turn(v, base, upper, q, d);
    TurnValue(v, base, upper, q, d);
    if q == 0 {
      ValueJoins("", d, q, base, v);
      EmptyLeft([d]);
    } else {
      NumeralDenotes(q, base, upper);
      ValueJoins(Numeral(q, base, upper), d, q, base, v);
    }
  }

  /** It starts with a zero only if it is "0". */
  lemma {:induction false} NumeralStarts(v: nat, base: nat, upper: bool)
    requires 2 <= base <= 16
    ensures if v == 0 then Numeral(v, base, upper) == "0" else DigitValue(Numeral(v, base, upper)[0]) > 0
  {
    var q, d := Quot(v, base), DigitChar(Rest(v, base), upper);
    Turn(v, base, upper, q, d);
    TurnValue(v, base, upper, q, d);
    if q > 0 { NumeralStarts(q, base, upper); }
  }

  lemma RevFirst(c: char, s: string)
    ensures Rev([c] + s) == Rev(s) + [c]
  {
    RevJoin([c], s);
    RevOne(c);
  }

  /** With room for all of them, the digits that the loop stores are the numeral backwards. */
  lemma {:induction false} NumeralIsReversed(v: nat, base: nat, upper: bool, room: nat)
    requires 2 <= base <= 16 && room > 0 && v < Power(base, room)
    ensures Rev(RevDigits(v, base, upper, room)) == Numeral(v, base, upper)
    decreases room
  {
    var q, d := Quot(v, base), DigitChar(Rest(v, base), upper);
    Turn(v, base, upper, q, d);
    TurnDigits(v, base, upper, room, q, d);
    QuotientBounds(v, base, Power(base, room - 1));
    EmptyRight([d]);
    if q > 0 {
      NumeralIsReversed(q, base, upper, room - 1);
      RevFirst(d, RevDigits(q, base, upper, room - 1));
    } else {
      RevOne(d);
    }
  }

  /** Without, the loop fills the room and the numeral is longer. */
  lemma {:induction false} NumeralIsLonger(v: nat, base: nat, upper: bool, room: nat)
    requires 2 <= base <= 16 && room > 0 && v >= Power(base, room)
    ensures |RevDigits(v, base, upper, room)| == room < |Numeral(v, base, upper)|
    decreases room
  {
    var q, d := Quot(v, base), DigitChar(Rest(v, base), upper);
    Turn(v, base, upper, q, d);
    TurnDigits(v, base, upper, room, q, d);
    QuotientBounds(v, base, Power(base, room - 1));
    PowerPositive(base, room - 1);
    if room > 1 { NumeralIsLonger(q, base, upper, room - 1); }
  }

  lemma {:induction false} PowerPositive(base: nat, n: nat)
    requires base > 0
    ensures Power(base, n) > 0
  {
    if n > 0 { PowerPositive(base, n - 1); }
  }

  lemma {:induction false} NumeralFits(v: nat, base: nat, upper: bool, n: nat)
    requires 2 <= base <= 16 && n > 0 && v < Power(base, n)
    ensures |Numeral(v, base, upper)| <= n
    decreases n
  {
    var q, d := Quot(v, base), DigitChar(Rest(v, base), upper);
    Turn(v, base, upper, q, d);
    QuotientBounds(v, base, Power(base, n - 1));
    if q > 0 { NumeralFits(q, base, upper, n - 1); }
  }

  // ---- the field

  function Sign(neg: bool, f: Flags): string {
    if neg then "-" else if f.plus then "+" else if f.space then " " else ""
  }

  // Lines 233-243: the digits rev, lowest first, and the zeros behind them
  function Filled(rev: string, sign: string, f: Flags): string {
    var w := if f.width > 0 && f.zero && |sign| > 0 then f.width - 1 else f.width;
    var r := rev + Rep('0', Min(f.prec, ROOM) - |rev|);
    if f.left then rev else if f.zero then r + Rep('0', Min(w, ROOM) - |r|) else r
  }

  // Lines 267-277
  function Signed(r: string, sign: string): string {
    if |r| < ROOM then r + sign else r
  }

  // _out_rev
  function OutRev(r: string, f: Flags): string {
    if f.left then Rev(r) + Rep(' ', f.width - |r|) else if f.zero then Rev(r) else Rep(' ', f.width - |r|) + Rev(r)
  }

  /** _ntoa_format for the digits rev. */
  function Field(rev: string, sign: string, f: Flags): string {
    OutRev(Signed(Filled(rev, sign, f), sign), f)
  }

  /** The field that the standard asks for. */
  function Standard(digits: string, sign: string, f: Flags): string {
    var d := Rep('0', f.prec - |digits|) + digits;
    if f.left then sign + d + Rep(' ', f.width - |sign| - |d|)
    else if f.zero && !f.hasPrec then sign + Rep('0', f.width - |sign| - |d|) + d
    else Rep(' ', f.width - |sign| - |d|) + sign + d
  }

  /** What a caller can check: no precision beyond the digits with '-', and nothing that the buffer has no room for. */
  predicate Supported(n: nat, sign: string, f: Flags) {
    if f.left then f.prec <= n
    else if f.zero then f.width <= ROOM
    else f.prec + |sign| <= ROOM || (sign == " " && f.prec == ROOM && f.width > ROOM)
  }

  // What _vsnprintf passes on: a precision clears the zero flag
  predicate Passed(f: Flags) {
    (f.hasPrec ==> !f.zero) && (!f.hasPrec ==> f.prec == 0)
  }

  lemma RevSign(sign: string)
    requires |sign| <= 1
    ensures Rev(sign) == sign
  {
    if |sign| == 1 {
      RevOne(sign[0]);
      assert sign == [sign[0]];
    }
  }

  // With room for the sign, the reverse of digits, zeros and sign
  lemma SignedField(digits: string, zeros: int, sign: string)
    requires |sign| <= 1 && |digits| + |sign| <= ROOM && zeros + |digits| + |sign| <= ROOM
    ensures var r := Signed(Rev(digits) + Rep('0', zeros), sign);
            Rev(r) == sign + (Rep('0', zeros) + digits) && |r| == |sign| + |Rep('0', zeros) + digits|
  {
    var r := Rev(digits) + Rep('0', zeros);
    EmptyRight(r);
    RevJoin(r, sign);
    RevJoin(Rev(digits), Rep('0', zeros));
    RevTwice(digits);
    RevRep('0', zeros);
    RevSign(sign);
  }

  lemma ZerosAreDigits(n: int, digits: string)
    requires Digits(digits)
    ensures Digits(Rep('0', n) + digits)
  {
    var s := Rep('0', n) + digits;
    forall i | 0 <= i < |s| ensures IsDigitChar(s[i]) {
      if i < |s| - |digits| { RepAt('0', n, i); } else { assert s[i] == digits[i - (|s| - |digits|)]; }
    }
  }

  // ---- what the field is, by kind of padding

  function ZeroCount(n: nat, sign: string, f: Flags): int {
    (if f.width > 0 && |sign| > 0 then f.width - 1 else f.width) - n
  }

  lemma FilledWithZeros(rev: string, n: nat, sign: string, f: Flags)
    requires !f.left && f.zero && f.prec == 0 && n == |rev|
    ensures Filled(rev, sign, f) == rev + Rep('0', Min(ZeroCount(0, sign, f), ROOM) - n)
  {
    EmptyRight(rev);
  }

  lemma FilledWithSpaces(rev: string, n: nat, sign: string, f: Flags)
    requires !f.left && !f.zero && n == |rev|
    ensures Filled(rev, sign, f) == rev + Rep('0', Min(f.prec, ROOM) - n)
  {
    assert Min(f.prec, ROOM) - n == Min(f.prec, ROOM) - |rev|;
  }

  lemma FilledLeft(rev: string, sign: string, f: Flags)
    requires f.left
    ensures Filled(rev, sign, f) == rev
  {
  }

  lemma LeftText(x: string, r: string, digits: string, sign: string, f: Flags)
    requires f.left && |digits| + |sign| <= ROOM && |sign| <= 1
    requires r == Signed(Rev(digits), sign) && x == Rev(r) + Rep(' ', f.width - |r|)
    ensures x == sign + digits + Rep(' ', f.width - |sign| - |digits|)
  {
    SignedField(digits, 0, sign);
    EmptyLeft(digits);
    EmptyRight(Rev(digits));
  }

  lemma ZeroText(x: string, r: string, digits: string, sign: string, f: Flags, zeros: int)
    requires !f.left && f.zero && |digits| + |sign| <= ROOM && |sign| <= 1 && zeros == ZeroCount(|digits|, sign, f)
    requires r == Signed(Rev(digits) + Rep('0', Min(ZeroCount(0, sign, f), ROOM) - |digits|), sign) && x == Rev(r)
    ensures if f.width <= ROOM then x == sign + (Rep('0', zeros) + digits) else |x| <= ROOM
  {
    if f.width <= ROOM {
      assert Min(ZeroCount(0, sign, f), ROOM) - |digits| == zeros;
      SignedField(digits, zeros, sign);
    }
  }

  // What the buffer holds when spaces pad, read backwards
  function SpaceBuffer(digits: string, sign: string, prec: nat): string
    requires |digits| <= ROOM
  {
    if prec + |sign| <= ROOM then sign + (Rep('0', prec - |digits|) + digits) else Rep('0', ROOM - |digits|) + digits
  }

  lemma SpaceText(r: string, digits: string, sign: string, prec: nat)
    requires |digits| + |sign| <= ROOM && |sign| <= 1
    requires r == Signed(Rev(digits) + Rep('0', Min(prec, ROOM) - |digits|), sign)
    ensures Rev(r) == SpaceBuffer(digits, sign, prec)
  {
    if prec + |sign| <= ROOM { SignedField(digits, prec - |digits|, sign); } else { FullBuffer(r, digits, sign, prec); }
  }

  // Zeros fill the buffer and the sign has no room
  lemma FullBuffer(r: string, digits: string, sign: string, prec: nat)
    requires |digits| + |sign| <= ROOM && |sign| <= 1 && prec + |sign| > ROOM
    requires r == Signed(Rev(digits) + Rep('0', Min(prec, ROOM) - |digits|), sign)
    ensures |r| == ROOM && Rev(r) == Rep('0', ROOM - |digits|) + digits
  {
    RevJoin(Rev(digits), Rep('0', ROOM - |digits|));
    RevTwice(digits);
    RevRep('0', ROOM - |digits|);
  }

  // ---- when that is the standard's field

  lemma LeftIsStandard(x: string, digits: string, sign: string, f: Flags)
    requires f.left && Digits(digits) && x == sign + digits + Rep(' ', f.width - |sign| - |digits|)
    ensures x == Standard(digits, sign, f) <==> f.prec <= |digits|
  {
    EmptyLeft(digits);
    if f.prec > |digits| {
      ZerosAreDigits(f.prec - |digits|, digits);
      ZerosInFront(sign, digits, Rep('0', f.prec - |digits|) + digits, f.width);
    }
  }

  // Digits with zeros in front differ from the digits padded with spaces
  lemma ZerosInFront(sign: string, digits: string, d: string, width: nat)
    requires |d| > |digits| && Digits(d)
    ensures sign + digits + Rep(' ', width - |sign| - |digits|) != sign + d + Rep(' ', width - |sign| - |d|)
  {
    var n, k := width - |sign| - |digits|, |sign| + |digits|;
    var x, y := sign + digits + Rep(' ', n), sign + d + Rep(' ', width - |sign| - |d|);
    assert y[k] == d[|digits|];
    if k < |x| {
      RepAt(' ', n, 0);
      assert x[k] == Rep(' ', n)[0];
    }
  }

  lemma ZeroFits(digits: string, sign: string, f: Flags)
    requires !f.left && f.zero && Passed(f) && |sign| <= 1
    ensures Standard(digits, sign, f) == sign + (Rep('0', ZeroCount(|digits|, sign, f)) + digits)
  {
    var zeros, m := ZeroCount(|digits|, sign, f), f.width - |sign| - |digits|;
    EmptyLeft(digits);
    if zeros != m { assert Rep('0', zeros) == Rep('0', m); }
    Assoc(sign, Rep('0', zeros), digits);
  }

  lemma StandardWidth(digits: string, sign: string, f: Flags)
    ensures |Standard(digits, sign, f)| >= f.width
  {
  }

  lemma ZeroIsStandard(x: string, digits: string, sign: string, f: Flags)
    requires !f.left && f.zero && Passed(f) && |sign| <= 1
    requires if f.width <= ROOM then x == sign + (Rep('0', ZeroCount(|digits|, sign, f)) + digits) else |x| <= ROOM
    ensures x == Standard(digits, sign, f) <==> f.width <= ROOM
  {
    if f.width <= ROOM { ZeroFits(digits, sign, f); } else { StandardWidth(digits, sign, f); }
  }

  // A full buffer b put out without the sign
  lemma FullIsStandard(x: string, b: string, digits: string, sign: string, f: Flags, d: string)
    requires |digits| <= ROOM && |sign| <= 1 && Digits(digits) && f.prec + |sign| > ROOM
    requires d == Rep('0', f.prec - |digits|) + digits && b == Rep('0', ROOM - |digits|) + digits
    requires x == Rep(' ', f.width - ROOM) + b
    ensures x == Rep(' ', f.width - |sign| - |d|) + (sign + d) <==> sign == " " && f.prec == ROOM && f.width > ROOM
  {
    if f.prec == ROOM {
      OneCharMore(sign, b, f.width);
    } else {
      ZerosAreDigits(f.prec - |digits|, digits);
      MoreText(sign, d, b, f.width);
    }
  }

  lemma StandardSpaces(digits: string, sign: string, f: Flags, d: string)
    requires !f.left && !f.zero && d == Rep('0', f.prec - |digits|) + digits
    ensures Standard(digits, sign, f) == Rep(' ', f.width - |sign| - |d|) + (sign + d)
  {
    Assoc(Rep(' ', f.width - |sign| - |d|), sign, d);
  }

  // Padding b and padding sign + b to the same width give the same text only if the sign is a space in the padding
  lemma OneCharMore(sign: string, b: string, width: nat)
    requires |sign| == 1 && |b| == ROOM
    ensures Rep(' ', width - ROOM) + b == Rep(' ', width - |sign| - |b|) + (sign + b) <==> sign == " " && width > ROOM
  {
    if width > ROOM {
      var x, y, k := Rep(' ', width - ROOM) + b, Rep(' ', width - 1 - |b|) + (sign + b), width - ROOM - 1;
      RepAt(' ', width - ROOM, k);
      assert x[k] == ' ' && y[k] == sign[0];
      if sign == " " {
        RepJoin(' ', k, 1);
        assert Rep(' ', 1) == " ";
        Assoc(Rep(' ', k), sign, b);
      }
    } else {
      assert |Rep(' ', width - ROOM) + b| < |sign + b|;
    }
  }

  // A longer text d, with no space where the padding of b would still be, does not pad to the same
  lemma MoreText(sign: string, d: string, b: string, width: nat)
    requires |d| > ROOM == |b| && |sign| <= 1 && Digits(d)
    ensures Rep(' ', width - ROOM) + b != Rep(' ', width - |sign| - |d|) + (sign + d)
  {
    var t := sign + d;
    var x, y := Rep(' ', width - ROOM) + b, Rep(' ', width - |sign| - |d|) + t;
    if width >= |t| {
      var k := width - ROOM - 1;
      var j := k - (width - |t|);
      RepAt(' ', width - ROOM, k);
      assert x[k] == ' ' && y[k] == t[j] == d[j - |sign|];
    }
  }

  lemma LeftCase(x: string, digits: string, sign: string, f: Flags)
    requires f.left && |digits| + |sign| <= ROOM && |sign| <= 1 && Digits(digits)
    requires x == Field(Rev(digits), sign, f)
    ensures x == Standard(digits, sign, f) <==> f.prec <= |digits|
  {
    FilledLeft(Rev(digits), sign, f);
    LeftText(x, Signed(Rev(digits), sign), digits, sign, f);
    LeftIsStandard(x, digits, sign, f);
  }

  lemma ZeroCase(digits: string, sign: string, f: Flags)
    requires !f.left && f.zero && Passed(f) && |digits| + |sign| <= ROOM && |sign| <= 1
    ensures Field(Rev(digits), sign, f) == Standard(digits, sign, f) <==> f.width <= ROOM
  {
    var r := Signed(Rev(digits) + Rep('0', Min(ZeroCount(0, sign, f), ROOM) - |digits|), sign);
    var x := Rev(r);
    ZeroShape(digits, sign, f);
    ZeroText(x, r, digits, sign, f, ZeroCount(|digits|, sign, f));
    ZeroIsStandard(x, digits, sign, f);
  }

  lemma ZeroShape(digits: string, sign: string, f: Flags)
    requires !f.left && f.zero && Passed(f)
    ensures Field(Rev(digits), sign, f) ==
            Rev(Signed(Rev(digits) + Rep('0', Min(ZeroCount(0, sign, f), ROOM) - |digits|), sign))
  {
    FilledWithZeros(Rev(digits), |digits|, sign, f);
  }

  lemma OutRevSpaces(r: string, f: Flags, t: string)
    requires !f.left && !f.zero && Rev(r) == t
    ensures OutRev(r, f) == Rep(' ', f.width - |t|) + t
  {
    assert f.width - |r| == f.width - |t|;
  }

  lemma SpaceExact(x: string, digits: string, sign: string, f: Flags, t: string)
    requires !f.left && !f.zero && |digits| + |sign| <= ROOM && |sign| <= 1 && Digits(digits)
    requires t == SpaceBuffer(digits, sign, f.prec) && x == Rep(' ', f.width - |t|) + t
    ensures x == Standard(digits, sign, f) <==> Supported(|digits|, sign, f)
  {
    var d := Rep('0', f.prec - |digits|) + digits;
    StandardSpaces(digits, sign, f, d);
    if f.prec + |sign| <= ROOM {
      assert f.width - |t| == f.width - |sign| - |d|;
    } else {
      FullIsStandard(x, t, digits, sign, f, d);
    }
  }

  lemma SpaceRev(rev: string, digits: string, sign: string, f: Flags) returns (r: string)
    requires !f.left && !f.zero && |digits| + |sign| <= ROOM && |sign| <= 1 && rev == Rev(digits)
    ensures r == Signed(Filled(rev, sign, f), sign) && Rev(r) == SpaceBuffer(digits, sign, f.prec)
  {
    FilledWithSpaces(rev, |digits|, sign, f);
    r := Signed(rev + Rep('0', Min(f.prec, ROOM) - |digits|), sign);
    SpaceText(r, digits, sign, f.prec);
  }

  lemma SpaceField(rev: string, digits: string, sign: string, f: Flags)
    requires !f.left && !f.zero && |digits| + |sign| <= ROOM && |sign| <= 1 && rev == Rev(digits)
    ensures var t := SpaceBuffer(digits, sign, f.prec); Field(rev, sign, f) == Rep(' ', f.width - |t|) + t
  {
    var r := SpaceRev(rev, digits, sign, f);
    OutRevSpaces(r, f, SpaceBuffer(digits, sign, f.prec));
  }

  lemma SpaceCase(x: string, rev: string, digits: string, sign: string, f: Flags)
    requires !f.left && !f.zero && |digits| + |sign| <= ROOM && |sign| <= 1 && Digits(digits)
    requires rev == Rev(digits) && x == Field(rev, sign, f)
    ensures x == Standard(digits, sign, f) <==> Supported(|digits|, sign, f)
  {
    SpaceField(rev, digits, sign, f);
    SpaceExact(x, digits, sign, f, SpaceBuffer(digits, sign, f.prec));
  }

  /** The field is the standard's exactly when the width and precision asked for are supported. */
  lemma FieldIsStandard(digits: string, sign: string, f: Flags)
    requires Passed(f) && |digits| + |sign| <= ROOM && |sign| <= 1 && Digits(digits)
    ensures Field(Rev(digits), sign, f) == Standard(digits, sign, f) <==> Supported(|digits|, sign, f)
  {
    if f.left { LeftCase(Field(Rev(digits), sign, f), digits, sign, f); }
    else if f.zero { ZeroCase(digits, sign, f); }
    else { SpaceCase(Field(Rev(digits), sign, f), Rev(digits), digits, sign, f); }
  }

  // ---- what is put out instead

  /** With '-' a precision counts for nothing. */
  lemma LeftIgnoresPrecision(digits: string, sign: string, f: Flags)
    requires Passed(f) && f.left && |digits| + |sign| <= ROOM && |sign| <= 1 && Digits(digits)
    ensures Field(Rev(digits), sign, f) == Standard(digits, sign, f.(prec := 0))
  {
    var g := f.(prec := 0);
    FieldIsStandard(digits, sign, g);
    assert Field(Rev(digits), sign, f) == Field(Rev(digits), sign, g);
  }

  /** And zeros that fill the buffer leave no room for the sign. */
  lemma ZerosFillBuffer(digits: string, sign: string, f: Flags)
    requires Passed(f) && !f.left && |digits| + |sign| <= ROOM && |sign| <= 1
    requires if f.zero then f.width > ROOM else f.prec + |sign| > ROOM
    ensures Field(Rev(digits), sign, f) ==
            (if f.zero then "" else Rep(' ', f.width - ROOM)) + (Rep('0', ROOM - |digits|) + digits)
  {
    FilledUp(Rev(digits), sign, f);
    RevFilled(digits, ROOM - |digits|);
    FullOut(Filled(Rev(digits), sign, f), sign, f);
  }

  lemma FilledUp(rev: string, sign: string, f: Flags)
    requires !f.left && |rev| <= ROOM && |sign| <= 1 && Passed(f)
    requires if f.zero then f.width > ROOM else f.prec + |sign| > ROOM
    ensures Filled(rev, sign, f) == rev + Rep('0', ROOM - |rev|) && |Filled(rev, sign, f)| == ROOM
  {
    if f.zero {
      FilledWithZeros(rev, |rev|, sign, f);
      assert Min(ZeroCount(0, sign, f), ROOM) == ROOM;
    } else {
      FilledWithSpaces(rev, |rev|, sign, f);
      assert Min(f.prec, ROOM) == ROOM;
    }
  }

  lemma RevFilled(digits: string, zeros: int)
    ensures Rev(Rev(digits) + Rep('0', zeros)) == Rep('0', zeros) + digits
  {
    RevJoin(Rev(digits), Rep('0', zeros));
    RevTwice(digits);
    RevRep('0', zeros);
  }

  lemma FullOut(r: string, sign: string, f: Flags)
    requires !f.left && |r| == ROOM
    ensures OutRev(Signed(r, sign), f) == (if f.zero then "" else Rep(' ', f.width - ROOM)) + Rev(r)
  {
    EmptyLeft(Rev(r));
  }

  // ---- digits that were cut off

  // Without a sign, a full buffer goes out as it is
  lemma FullText(rev: string, f: Flags)
    requires |rev| == ROOM
    ensures Field(rev, "", f) ==
            if f.left then Rev(rev) + Rep(' ', f.width - ROOM) else
            if f.zero then Rev(rev) else Rep(' ', f.width - ROOM) + Rev(rev)
  {
    EmptyRight(rev);
    assert Filled(rev, "", f) == rev;
  }

  lemma CutSpaces(x: string, b: string, digits: string, d: string, f: Flags)
    requires !f.left && !f.zero && |b| == ROOM < |d| && Digits(d) && d == Rep('0', f.prec - |digits|) + digits
    requires x == Rep(' ', f.width - ROOM) + b
    ensures x != Standard(digits, "", f)
  {
    StandardSpaces(digits, "", f, d);
    MoreText("", d, b, f.width);
  }

  /** Digits that the buffer has no room for are lost, and the field is never the standard's. */
  lemma CutIsNotStandard(rev: string, digits: string, f: Flags)
    requires |rev| == ROOM < |digits| && Digits(digits) && Passed(f)
    ensures Field(rev, "", f) != Standard(digits, "", f)
  {
    FullText(rev, f);
    var d := Rep('0', f.prec - |digits|) + digits;
    ZerosAreDigits(f.prec - |digits|, digits);
    if f.left { CutLeft(Rev(rev), digits, d, f); }
    else if f.zero { CutZero(digits, f); } else { CutSpaces(Field(rev, "", f), Rev(rev), digits, d, f); }
  }

  lemma CutLeft(b: string, digits: string, d: string, f: Flags)
    requires f.left && |b| == ROOM < |d| && Digits(d) && d == Rep('0', f.prec - |digits|) + digits
    ensures b + Rep(' ', f.width - ROOM) != Standard(digits, "", f)
  {
    EmptyLeft(d);
    assert Standard(digits, "", f) == d + Rep(' ', f.width - |d|);
    MoreLeft(b, d, f.width);
  }

  lemma MoreLeft(b: string, d: string, width: nat)
    requires |b| < |d| && Digits(d)
    ensures b + Rep(' ', width - |b|) != d + Rep(' ', width - |d|)
  {
    var x, y := b + Rep(' ', width - |b|), d + Rep(' ', width - |d|);
    assert y[|b|] == d[|b|];
    if |b| < |x| {
      RepAt(' ', width - |b|, 0);
      assert x[|b|] == Rep(' ', width - |b|)[0];
    }
  }

  lemma CutZero(digits: string, f: Flags)
    requires !f.left && f.zero
    ensures |Standard(digits, "", f)| >= |digits|
  {
  }
}
