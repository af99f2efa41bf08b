/** vsnprintf of printf.c: what a format and its arguments stand for, and how much of it reaches the buffer. */
module Snprintf {
  import opened Arithmetic
  import opened Options
  import opened NumberText
  import Atoi

  // ---- arguments: 64-bit words and strings

  datatype Arg = Word(bits: nat) | Text(s: string)

  const W8: nat := 0x100
  const W16: nat := 0x1_0000
  const W32: nat := 0x1_0000_0000
  const W64: nat := 0x1_0000_0000_0000_0000

  // ---- a directive, read from the text behind its %; None where the C program has no defined behaviour

  datatype Length = Plain | Chars | Shorts | Longs

  /** A word cut to the unsigned type of that length. */
  function Cut(bits: nat, l: Length): nat {
    match l
    case Plain => bits % W32
    case Chars => bits % W8
    case Shorts => bits % W16
    case Longs => bits % W64
  }

  /** And to the signed type. */
  function CutSigned(bits: nat, l: Length): int {
    match l
    case Plain => if Cut(bits, l) >= W32 / 2 then Cut(bits, l) - W32 else Cut(bits, l)
    case Chars => if Cut(bits, l) >= W8 / 2 then Cut(bits, l) - W8 else Cut(bits, l)
    case Shorts => if Cut(bits, l) >= W16 / 2 then Cut(bits, l) - W16 else Cut(bits, l)
    case Longs => if Cut(bits, l) >= W64 / 2 then Cut(bits, l) - W64 else Cut(bits, l)
  }

  datatype Parsed = Parsed(f: Flags, rest: string, args: seq<Arg>)

  predicate Starts(s: string, c: char) {
    s != "" && s[0] == c
  }

  predicate StartsDigit(s: string) {
    s != "" && '0' <= s[0] <= '9'
  }

  const NO_FLAGS := Flags(false, false, false, false, false, false, 0, 0)

  // Lines 605-615; the # flag is not part of this model
  function FlagsOf(s: string, f: Flags): (r: (Flags, string))
    ensures |r.1| <= |s|
  {
    if Starts(s, '0') then FlagsOf(s[1..], f.(zero := true))
    else if Starts(s, '-') then FlagsOf(s[1..], f.(left := true))
    else if Starts(s, '+') then FlagsOf(s[1..], f.(plus := true))
    else if Starts(s, ' ') then FlagsOf(s[1..], f.(space := true))
    else (f, s)
  }

  // _atoi
  function NatOf(s: string, n: nat): (r: (nat, string))
    ensures |r.1| <= |s|
  {
    if StartsDigit(s) then NatOf(s[1..], (n * 10 + (s[0] - '0') as nat) % W32) else (n, s)
  }

  // Lines 618-632
  function WidthOf(p: Parsed): (r: Option<Parsed>)
    ensures r.Some? ==> |r.value.rest| <= |p.rest|
  {
    if StartsDigit(p.rest) then
      var (n, rest) := NatOf(p.rest, 0);
      Some(p.(f := p.f.(width := n), rest := rest))
    else if Starts(p.rest, '*') then
      if p.args != [] && p.args[0].Word? then
        var w := CutSigned(p.args[0].bits, Plain);
        Some(Parsed(p.f.(left := p.f.left || w < 0, width := Abs(w)), p.rest[1..], p.args[1..]))
      else None
    else Some(p)
  }

  // Lines 635-647
  function PrecisionOf(p: Parsed): (r: Option<Parsed>)
    ensures r.Some? ==> |r.value.rest| <= |p.rest|
  {
    if !Starts(p.rest, '.') then Some(p)
    else
      var q := p.(f := p.f.(hasPrec := true), rest := p.rest[1..]);
      if StartsDigit(q.rest) then
        var (n, rest) := NatOf(q.rest, 0);
        Some(q.(f := q.f.(prec := n), rest := rest))
      else if Starts(q.rest, '*') then
        if q.args != [] && q.args[0].Word? then
          var w := CutSigned(q.args[0].bits, Plain);
          Some(Parsed(q.f.(prec := if w > 0 then w else 0), q.rest[1..], q.args[1..]))
        else None
      else Some(q)
  }

  // Lines 650-683, where long and long long, ptrdiff_t, intmax_t and size_t all have 64 bits
  function LengthOf(s: string): (r: (Length, string))
    ensures |r.1| <= |s|
  {
    if Starts(s, 'l') then if Starts(s[1..], 'l') then (Longs, s[2..]) else (Longs, s[1..])
    else if Starts(s, 'h') then if Starts(s[1..], 'h') then (Chars, s[2..]) else (Shorts, s[1..])
    else if Starts(s, 't') || Starts(s, 'j') || Starts(s, 'z') then (Longs, s[1..])
    else (Plain, s)
  }

  // ---- what a conversion puts out

  // Lines 694-723
  function NumberFlags(c: char, f: Flags): Flags {
    var g := if c == 'd' || c == 'i' then f else f.(plus := false, space := false);
    g.(upper := c == 'X', zero := f.zero && !f.hasPrec)
  }

  function BaseOf(c: char): (b: nat)
    ensures 2 <= b <= 16
  {
    if c == 'x' || c == 'X' then 16 else if c == 'o' then 8 else if c == 'b' then 2 else 10
  }

  /** _ntoa_long: no digits at all for zero with a precision. */
  function NumberField(value: nat, neg: bool, base: nat, f: Flags): string
    requires 2 <= base <= 16
  {
    Field(if f.hasPrec && value == 0 then "" else RevDigits(value, base, f.upper, ROOM), Sign(neg, f), f)
  }

  // Lines 696-756: magnitude, sign, base and flags of a number
  datatype Number = Number(value: nat, neg: bool, base: nat, f: Flags)

  function NumberOf(c: char, l: Length, bits: nat, f: Flags): (n: Number)
    ensures 2 <= n.base <= 16
  {
    if c == 'd' || c == 'i' then Number(Abs(CutSigned(bits, l)), CutSigned(bits, l) < 0, 10, NumberFlags(c, f))
    else Number(Cut(bits, l), false, BaseOf(c), NumberFlags(c, f))
  }

  function TextOf(n: Number): string
    requires 2 <= n.base <= 16
  {
    NumberField(n.value, n.neg, n.base, n.f)
  }

  /** The digits that the standard asks for: none for zero with a precision, which brings its own zeros. */
  function NumeralOf(n: Number): (s: string)
    requires 2 <= n.base <= 16
    ensures Digits(s)
  {
    if n.f.hasPrec && n.value == 0 then "" else Numeral(n.value, n.base, n.f.upper)
  }

  /** They stand for the value, and none is superfluous. */
  lemma NumeralOfDenotes(n: Number)
    requires 2 <= n.base <= 16
    ensures ValueOf(NumeralOf(n), n.base) == n.value
    ensures n.value > 0 ==> DigitValue(NumeralOf(n)[0]) > 0
    ensures n.value == 0 ==> NumeralOf(n) == if n.f.hasPrec then "" else "0"
  {
    NumeralDenotes(n.value, n.base, n.f.upper);
    NumeralStarts(n.value, n.base, n.f.upper);
  }

  /** What a caller can check about a conversion: at most 32 digits, and a width and precision that are supported. */
  predicate Printable(n: Number)
    requires 2 <= n.base <= 16
  {
    |NumeralOf(n)| <= ROOM && Supported(|NumeralOf(n)|, Sign(n.neg, n.f), n.f)
  }

  // Every value has at most 31 digits, except for unsigned ones in base 2
  lemma DigitBounds(base: nat)
    requires base in {8, 10, 16}
    ensures W64 <= Power(base, 31)
  {
    PowersAre(base);
    PowerGrows(base, 22, 31);
  }

  lemma PowersAre(base: nat)
    requires base in {8, 10, 16}
    ensures Power(base, 22) >= W64
  {
    assert Power(8, 4) == 4096 && Power(10, 4) == 10000 && Power(16, 4) == 65536;
    PowerJoin(base, 4, 4);
    PowerJoin(base, 8, 8);
    PowerJoin(base, 16, 4);
    PowerJoin(base, 20, 2);
    assert Power(8, 2) == 64 && Power(10, 2) == 100 && Power(16, 2) == 256;
  }

  lemma {:induction false} PowerJoin(base: nat, m: nat, n: nat)
    ensures Power(base, m + n) == Power(base, m) * Power(base, n)
  {
    if m > 0 {
      PowerJoin(base, m - 1, n);
      TimesAssociates(base, Power(base, m - 1), Power(base, n));
    }
  }

  lemma TimesAssociates(x: nat, y: nat, z: nat)
    ensures x * y * z == x * (y * z)
  {
  }

  lemma {:induction false} PowerGrows(base: nat, m: nat, n: nat)
    requires m <= n && base > 0
    ensures Power(base, m) <= Power(base, n)
    decreases n
  {
    if m < n { PowerGrows(base, m, n - 1); Grows(Power(base, n - 1), 1, base); }
  }

  lemma CutBelow(bits: nat, l: Length)
    ensures Cut(bits, l) < W64 && Abs(CutSigned(bits, l)) < W64
  {
  }

  // Without a sign, or with at most 31 digits
  lemma NumberIsStandard(n: Number)
    requires 2 <= n.base <= 16 && Passed(n.f) && n.value < W64
    requires n.base in {8, 10, 16} || Sign(n.neg, n.f) == ""
    ensures TextOf(n) == Standard(NumeralOf(n), Sign(n.neg, n.f), n.f) <==> Printable(n)
  {
    var sign := Sign(n.neg, n.f);
    if n.f.hasPrec && n.value == 0 {
      FieldIsStandard("", sign, n.f);
    } else {
      if n.base in {8, 10, 16} {
        DigitBounds(n.base);
        NumeralFits(n.value, n.base, n.f.upper, 31);
        PowerGrows(n.base, 31, ROOM);
      }
      if n.value < Power(n.base, ROOM) {
        var rev := RevDigits(n.value, n.base, n.f.upper, ROOM);
        NumeralIsReversed(n.value, n.base, n.f.upper, ROOM);
        NumeralFits(n.value, n.base, n.f.upper, ROOM);
        RevTwice(rev);
        FieldIsStandard(NumeralOf(n), sign, n.f);
      } else {
        NumeralIsLonger(n.value, n.base, n.f.upper, ROOM);
        CutIsNotStandard(RevDigits(n.value, n.base, n.f.upper, ROOM), NumeralOf(n), n.f);
      }
    }
  }

  /** Every integer conversion puts out the standard's field of the value cut to its length, exactly when it has at most
      32 digits and its width and precision are supported. */
  lemma ConversionIsStandard(c: char, l: Length, bits: nat, f: Flags)
    requires IsNumber(c) && (f.hasPrec || f.prec == 0)
    ensures var n := NumberOf(c, l, bits, f);
            TextOf(n) == Standard(NumeralOf(n), Sign(n.neg, n.f), n.f) <==> Printable(n)
  {
    CutBelow(bits, l);
    NumberIsStandard(NumberOf(c, l, bits, f));
  }

  /** %-5.3d of 7: with '-' the zeros that the precision asks for are not written. */
  lemma LeftLosesPrecision()
    ensures var f := NO_FLAGS.(left := true, hasPrec := true, width := 5, prec := 3);
            var n := NumberOf('d', Plain, 7, f);
            TextOf(n) != Standard(NumeralOf(n), Sign(n.neg, n.f), n.f)
  {
    var f := NO_FLAGS.(left := true, hasPrec := true, width := 5, prec := 3);
    NumeralFits(7, 10, false, 1);
    ConversionIsStandard('d', Plain, 7, f);
  }

  /** %040d of 7: the buffer of 32 characters has no room for the zeros. */
  lemma WideZerosAreCut()
    ensures var n := NumberOf('d', Plain, 7, NO_FLAGS.(zero := true, width := 40));
            TextOf(n) != Standard(NumeralOf(n), Sign(n.neg, n.f), n.f)
  {
    ConversionIsStandard('d', Plain, 7, NO_FLAGS.(zero := true, width := 40));
  }

  function Padded(s: string, f: Flags): string {
    if f.left then s + Rep(' ', f.width - |s|) else Rep(' ', f.width - |s|) + s
  }

  function StringText(s: string, f: Flags): string {
    Padded(if f.hasPrec then s[..Min(|s|, f.prec)] else s, f)
  }

  predicate IsNumber(c: char) {
    c in {'d', 'i', 'u', 'x', 'X', 'o', 'b'}
  }

  // Lines 686-852
  function Conversion(p: Parsed, l: Length): Option<(string, Parsed)> {
    if p.rest == "" then None
    else
      var c, rest := p.rest[0], p.rest[1..];
      if IsNumber(c) || c == 'c' || c == 'p' then
        if p.args == [] || !p.args[0].Word? then None
        else
          var bits := p.args[0].bits;
          var t :=
            if IsNumber(c) then TextOf(NumberOf(c, l, bits, p.f))
            else if c == 'c' then Padded([(bits % W8) as char], p.f)
            else NumberField(bits % W64, false, 16, p.f.(width := 16, zero := true, upper := true));
          Some((t, Parsed(p.f, rest, p.args[1..])))
      else if c == 's' then
        if p.args == [] || !p.args[0].Text? then None
        else Some((StringText(p.args[0].s, p.f), Parsed(p.f, rest, p.args[1..])))
      else Some(([c], p.(rest := rest)))
  }

  // From behind the % to the end of the directive
  function Directive(s: string, args: seq<Arg>): (r: Option<(string, Parsed)>)
    ensures r.Some? ==> |r.value.1.rest| < |s|
  {
    var (f, s1) := FlagsOf(s, NO_FLAGS);
    if Starts(s1, '#') then None
    else
      match WidthOf(Parsed(f, s1, args))
      case None => None
      case Some(p) =>
        match PrecisionOf(p)
        case None => None
        case Some(q) =>
          var (l, s2) := LengthOf(q.rest);
          Conversion(q.(rest := s2), l)
  }

  /** The untruncated output of a format, or None if it is not defined. */
  function Render(s: string, args: seq<Arg>): Option<string>
    decreases |s|
  {
    if s == "" then Some("")
    else if s[0] != '%' then
      match Render(s[1..], args)
      case None => None
      case Some(t) => Some([s[0]] + t)
    else
      match Directive(s[1..], args)
      case None => None
      case Some((t, p)) =>
        match Render(p.rest, p.args)
        case None => None
        case Some(u) => Some(t + u)
  }

  // ---- the output buffer

  class Sink {
    const buffer: array<char>
    const maxlen: nat
    var idx: nat
    ghost var text: string        // everything put out so far
    ghost const before: seq<char> // the buffer at the start

    /** The buffer holds as much of the text as fits, and is untouched beyond it. */
    ghost predicate Valid()
      reads this, buffer
    {
      && idx == |text| && maxlen <= buffer.Length == |before|
      && (forall i :: 0 <= i < idx && i < maxlen ==> buffer[i] == text[i])
      && (forall i :: 0 <= i < buffer.Length && (i >= idx || i >= maxlen) ==> buffer[i] == before[i])
    }

    constructor (buffer: array<char>, maxlen: nat)
      requires maxlen <= buffer.Length
      ensures Valid() && this.buffer == buffer && this.maxlen == maxlen && text == "" && before == buffer[..]
    {
      this.buffer, this.maxlen, idx := buffer, maxlen, 0;
      text, before := "", buffer[..];
    }

    // _out_buffer and the idx++ of its callers
    method Put(c: char)
      requires Valid()
      modifies `idx, `text, buffer
      ensures Valid() && text == old(text) + [c]
    {
      if idx < maxlen { buffer[idx] := c; }
      idx := idx + 1;
      text := text + [c];
    }

    // The loops that pad with spaces
    method Spaces(from: nat, to: nat)
      requires Valid()
      modifies `idx, `text, buffer
      ensures Valid() && text == old(text) + Rep(' ', to - from)
    {
      var i := from;
      EmptyRight(text);
      while i < to
        invariant Valid() && from <= i && (from <= to ==> i <= to) && (from > to ==> i == from)
        invariant text == old(text) + Rep(' ', i - from)
      {
        Put(' ');
        RepSnoc(' ', i - from);
        Assoc(old(text), Rep(' ', i - from), " ");
        i := i + 1;
      }
    }
  }

  lemma RepSnoc(c: char, n: nat)
    ensures Rep(c, n) + [c] == Rep(c, n + 1)
  {
    RepJoin(c, n, 1);
    EmptyRight([c]);
  }

  lemma RevSnoc(a: string, c: char, s: string)
    requires s == a + [c]
    ensures Rev(s) == [c] + Rev(a)
  {
    RevJoin(a, [c]);
    RevOne(c);
  }

  /** _out_rev */
  method OutReversed(out: Sink, buf: array<char>, len0: nat, f: Flags)
    requires out.Valid() && buf != out.buffer && len0 <= buf.Length
    modifies out`idx, out`text, out.buffer
    ensures out.Valid() && out.text == old(out.text) + OutRev(buf[..len0], f)
  {
    ghost var t0, r, pad := out.text, buf[..len0], Rep(' ', f.width - len0);
    var start := out.idx;
    if !f.left && !f.zero { out.Spaces(len0, f.width); }
    OutBackwards(out, buf, len0);
    if f.left {
      out.Spaces(out.idx - start, f.width);
      Assoc(t0, Rev(r), pad);
    } else if !f.zero {
      Assoc(t0, pad, Rev(r));
    }
  }

  // Lines 214-216
  method OutBackwards(out: Sink, buf: array<char>, len0: nat)
    requires out.Valid() && buf != out.buffer && len0 <= buf.Length
    modifies out`idx, out`text, out.buffer
    ensures out.Valid() && out.text == old(out.text) + Rev(buf[..len0])
  {
    var len: nat := len0;
    EmptyRight(out.text);
    EmptyLeft(Rev(buf[..len0]));
    ghost var done := "";
    while len > 0
      invariant len <= len0 && out.Valid() && out.text == old(out.text) + done
      invariant done + Rev(buf[..len]) == Rev(buf[..len0])
    {
      assert buf[..len] == buf[..len - 1] + [buf[len - 1]];
      RevSnoc(buf[..len - 1], buf[len - 1], buf[..len]);
      len := len - 1;
      out.Put(buf[len]);
      Assoc(old(out.text), done, [buf[len]]);
      Assoc(done, [buf[len]], Rev(buf[..len]));
      done := done + [buf[len]];
    }
    EmptyRight(done);
    assert buf[..0] == "";
  }

  // Lines 237-242: zeros up to a count, as far as the buffer goes
  method FillZeros(buf: array<char>, len0: nat, upTo: nat) returns (len: nat)
    requires buf.Length == ROOM && len0 <= ROOM
    modifies buf
    ensures len0 <= len <= ROOM && buf[..len] == old(buf[..len0]) + Rep('0', Min(upTo, ROOM) - len0)
  {
    len := len0;
    EmptyRight(buf[..len0]);
    while len < upTo && len < ROOM
      invariant len0 <= len <= ROOM && (len > len0 ==> len <= upTo)
      invariant buf[..len] == old(buf[..len0]) + Rep('0', len - len0)
    {
      buf[len] := '0';
      RepSnoc('0', len - len0);
      Assoc(old(buf[..len0]), Rep('0', len - len0), "0");
      assert buf[..len + 1] == buf[..len] + "0";
      len := len + 1;
    }
  }

  /** _ntoa_format, for a precision that has already cleared the zero flag. */
  method NtoaFormat(out: Sink, buf: array<char>, len0: nat, negative: bool, f: Flags)
    requires out.Valid() && buf != out.buffer && buf.Length == ROOM && len0 <= ROOM
    modifies out`idx, out`text, out.buffer, buf
    ensures out.Valid() && out.text == old(out.text) + Field(old(buf[..len0]), Sign(negative, f), f)
  {
    ghost var rev, sign := buf[..len0], Sign(negative, f);
    var len, width := len0, f.width;
    if !f.left {
      if f.width > 0 && f.zero && (negative || f.plus || f.space) { width := width - 1; }
      len := FillZeros(buf, len, f.prec);
      if f.zero { len := FillZeros(buf, len, width); }
    }
    assert buf[..len] == Filled(rev, sign, f);
    len := PutSign(buf, len, negative, f);
    OutReversed(out, buf, len, f);
  }

  // Lines 267-277
  method PutSign(buf: array<char>, len0: nat, negative: bool, f: Flags) returns (len: nat)
    requires buf.Length == ROOM && len0 <= ROOM
    modifies buf
    ensures len <= ROOM && buf[..len] == Signed(old(buf[..len0]), Sign(negative, f))
  {
    len := len0;
    EmptyRight(buf[..len]);
    if len < ROOM {
      if negative {
        buf[len] := '-';
        len := len + 1;
      } else if f.plus {
        buf[len] := '+';
        len := len + 1;
      } else if f.space {
        buf[len] := ' ';
        len := len + 1;
      }
    }
  }

  // Lines 296-300
  method DigitsToBuffer(buf: array<char>, value0: nat, base: nat, upper: bool) returns (len: nat)
    requires buf.Length == ROOM && 2 <= base <= 16
    modifies buf
    ensures len <= ROOM && buf[..len] == RevDigits(value0, base, upper, ROOM)
  {
    var value: nat := value0;
    len := 0;
    ghost var todo := RevDigits(value, base, upper, ROOM);
    EmptyLeft(todo);
    var more := true;
    while more
      invariant len <= ROOM && (more ==> len < ROOM)
      invariant buf[..len] + todo == RevDigits(value0, base, upper, ROOM)
      invariant todo == if more then RevDigits(value, base, upper, ROOM - len) else ""
      decreases more, ROOM - len
    {
      len, value, more, todo := StoreDigit(buf, len, value, base, upper, todo, RevDigits(value0, base, upper, ROOM));
    }
    EmptyRight(buf[..len]);
  }

  method Store(buf: array<char>, len: nat, c: char)
    requires len < buf.Length
    modifies buf
    ensures buf[..len + 1] == old(buf[..len]) + [c]
  {
    buf[len] := c;
  }

  // One turn of that loop: all is what the buffer holds and what is still to do
  method StoreDigit(buf: array<char>, len0: nat, value0: nat, base: nat, upper: bool, ghost todo0: string,
                    ghost all: string)
    returns (len: nat, value: nat, more: bool, ghost todo: string)
    requires buf.Length == ROOM && 2 <= base <= 16 && len0 < ROOM
    requires todo0 == RevDigits(value0, base, upper, ROOM - len0) && buf[..len0] + todo0 == all
    modifies buf
    ensures len == len0 + 1 && (more ==> len < ROOM) && buf[..len] + todo == all
    ensures todo == if more then RevDigits(value, base, upper, ROOM - len) else ""
  {
    ghost var t := buf[..len0];
    QuotIs(value0, base);
    var digit := DigitChar(value0 % base, upper);
    Store(buf, len0, digit);
    len, value := len0 + 1, value0 / base;
    more := value > 0 && len < ROOM;
    TurnDigits(value0, base, upper, ROOM - len0, value, digit);
    todo := if more then RevDigits(value, base, upper, ROOM - len) else "";
    Assoc(t, [digit], todo);
  }

  /** _ntoa_long and _ntoa_long_long */
  method NtoaLong(out: Sink, value: nat, negative: bool, base: nat, f: Flags)
    requires out.Valid() && 2 <= base <= 16
    modifies out`idx, out`text, out.buffer
    ensures out.Valid() && out.text == old(out.text) + NumberField(value, negative, base, f)
  {
    var buf := new char[ROOM];
    var len := 0;
    if !f.hasPrec || value > 0 { len := DigitsToBuffer(buf, value, base, f.upper); }
    assert buf[..len] == if f.hasPrec && value == 0 then "" else RevDigits(value, base, f.upper, ROOM);
    NtoaFormat(out, buf, len, negative, f);
  }

  // ---- reading a directive

  method ReadFlags(format: string, i0: nat) returns (f: Flags, i: nat)
    requires i0 <= |format|
    ensures i0 <= i <= |format| && FlagsOf(format[i0..], NO_FLAGS) == (f, format[i..])
  {
    f, i := NO_FLAGS, i0;
    while i < |format| && format[i] in {'0', '-', '+', ' '}
      invariant i0 <= i <= |format| && FlagsOf(format[i0..], NO_FLAGS) == FlagsOf(format[i..], f)
      decreases |format| - i
    {
      assert format[i..][1..] == format[i + 1..];
      match format[i] {
        case '0' => f := f.(zero := true);
        case '-' => f := f.(left := true);
        case '+' => f := f.(plus := true);
        case _ => f := f.(space := true);
      }
      i := i + 1;
    }
  }

  /** _atoi */
  method ReadNat(format: string, i0: nat) returns (n: nat, i: nat)
    requires i0 <= |format|
    ensures i0 <= i <= |format| && NatOf(format[i0..], 0) == (n, format[i..])
  {
    n, i := 0, i0;
    while i < |format| && '0' <= format[i] <= '9'
      invariant i0 <= i <= |format| && NatOf(format[i0..], 0) == NatOf(format[i..], n)
    {
      assert format[i..][1..] == format[i + 1..];
      n := (n * 10 + (format[i] - '0') as nat) % W32;
      i := i + 1;
    }
  }

  method ReadWidth(format: string, i0: nat, f0: Flags, args0: seq<Arg>) returns (f: Flags, i: nat, args: seq<Arg>)
    requires i0 <= |format| && WidthOf(Parsed(f0, format[i0..], args0)).Some?
    ensures i0 <= i <= |format| && WidthOf(Parsed(f0, format[i0..], args0)) == Some(Parsed(f, format[i..], args))
  {
    f, i, args := f0, i0, args0;
    if i < |format| && '0' <= format[i] <= '9' {
      var n;
      n, i := ReadNat(format, i);
      f := f.(width := n);
    } else if i < |format| && format[i] == '*' {
      assert format[i..][1..] == format[i + 1..];
      var w := CutSigned(args[0].bits, Plain);
      if w < 0 { f := f.(left := true, width := -w); } else { f := f.(width := w); }
      args, i := args[1..], i + 1;
    }
  }

  method ReadPrecision(format: string, i0: nat, f0: Flags, args0: seq<Arg>) returns (f: Flags, i: nat, args: seq<Arg>)
    requires i0 <= |format| && PrecisionOf(Parsed(f0, format[i0..], args0)).Some?
    ensures i0 <= i <= |format| && PrecisionOf(Parsed(f0, format[i0..], args0)) == Some(Parsed(f, format[i..], args))
  {
    f, i, args := f0, i0, args0;
    if i < |format| && format[i] == '.' {
      assert format[i..][1..] == format[i + 1..];
      f, i := f.(hasPrec := true), i + 1;
      if i < |format| && '0' <= format[i] <= '9' {
        var n;
        n, i := ReadNat(format, i);
        f := f.(prec := n);
      } else if i < |format| && format[i] == '*' {
        assert format[i..][1..] == format[i + 1..];
        var w := CutSigned(args[0].bits, Plain);
        f := f.(prec := if w > 0 then w else 0);
        args, i := args[1..], i + 1;
      }
    }
  }

  method ReadLength(format: string, i0: nat) returns (l: Length, i: nat)
    requires i0 <= |format|
    ensures i0 <= i <= |format| && LengthOf(format[i0..]) == (l, format[i..])
  {
    l, i := Plain, i0;
    if i == |format| { return; }
    ghost var s := format[i0..];
    assert s[1..] == format[i0 + 1..];
    if format[i] == 'l' {
      l, i := Longs, i + 1;
      if i < |format| && format[i] == 'l' {
        i := i + 1;
        assert s[2..] == format[i0 + 2..];
      }
    } else if format[i] == 'h' {
      l, i := Shorts, i + 1;
      if i < |format| && format[i] == 'h' {
        l, i := Chars, i + 1;
        assert s[2..] == format[i0 + 2..];
      }
    } else if format[i] == 't' || format[i] == 'j' || format[i] == 'z' {
      l, i := Longs, i + 1;
    }
  }

  // ---- conversions

  // Lines 694-756
  method PutNumber(out: Sink, c: char, l: Length, bits: nat, f0: Flags)
    requires out.Valid() && IsNumber(c)
    modifies out`idx, out`text, out.buffer
    ensures out.Valid() && out.text == old(out.text) + TextOf(NumberOf(c, l, bits, f0))
  {
    var n := ReadNumber(c, l, bits, f0);
    PutDigits(out, n);
  }

  method ReadNumber(c: char, l: Length, bits: nat, f0: Flags) returns (n: Number)
    requires IsNumber(c)
    ensures n == NumberOf(c, l, bits, f0)
  {
    var f := ReadNumberFlags(c, f0);
    var base := if c == 'x' || c == 'X' then 16 else if c == 'o' then 8 else if c == 'b' then 2 else 10;
    if c == 'i' || c == 'd' {
      var value := CutSigned(bits, l);
      n := Number(Magnitude(value), value < 0, base, f);
    } else {
      n := Number(Cut(bits, l), false, base, f);
    }
  }

  // The argument of _ntoa_long in lines 730, 735 and 739
  function Magnitude(value: int): (m: nat)
    ensures m == Abs(value)
  {
    if value > 0 then value else 0 - value
  }

  // Lines 709-722
  method ReadNumberFlags(c: char, f0: Flags) returns (f: Flags)
    ensures f == NumberFlags(c, f0)
  {
    f := f0.(upper := c == 'X');
    if c != 'i' && c != 'd' { f := f.(plus := false, space := false); }
    if f.hasPrec { f := f.(zero := false); }
  }

  method PutDigits(out: Sink, n: Number)
    requires out.Valid() && 2 <= n.base <= 16
    modifies out`idx, out`text, out.buffer
    ensures out.Valid() && out.text == old(out.text) + TextOf(n)
  {
    NtoaLong(out, n.value, n.neg, n.base, n.f);
  }

  // Lines 779-797 and 799-823: a text of known length between its padding
  method PutPadded(out: Sink, s: string, f: Flags)
    requires out.Valid()
    modifies out`idx, out`text, out.buffer
    ensures out.Valid() && out.text == old(out.text) + Padded(s, f)
  {
    ghost var t := out.text;
    EmptyRight(t);
    if !f.left { out.Spaces(|s|, f.width); }
    ghost var u := out.text;
    EmptyRight(u);
    var k := 0;
    while k < |s|
      invariant k <= |s| && out.Valid() && out.text == u + s[..k]
    {
      out.Put(s[k]);
      assert s[..k + 1] == s[..k] + [s[k]];
      Assoc(u, s[..k], [s[k]]);
      k := k + 1;
    }
    assert s[..k] == s;
    if f.left { out.Spaces(|s|, f.width); }
    Assoc(t, Rep(' ', f.width - |s|), s);
    Assoc(t, s, Rep(' ', f.width - |s|));
  }

  /** Lines 686-852 */
  method Convert(out: Sink, format: string, i0: nat, l: Length, f: Flags, args0: seq<Arg>)
    returns (i: nat, args: seq<Arg>)
    requires i0 <= |format| && out.Valid() && Conversion(Parsed(f, format[i0..], args0), l).Some?
    modifies out`idx, out`text, out.buffer
    ensures i0 < i <= |format| && out.Valid()
    ensures var (t, p) := Conversion(Parsed(f, format[i0..], args0), l).value;
            out.text == old(out.text) + t && p == Parsed(f, format[i..], args)
  {
    var c := format[i0];
    assert format[i0..][1..] == format[i0 + 1..];
    i, args := i0 + 1, args0;
    if IsNumber(c) {
      PutNumber(out, c, l, args[0].bits, f);
      args := args[1..];
    } else if c == 'c' {
      PutPadded(out, [(args[0].bits % W8) as char], f);
      args := args[1..];
    } else if c == 's' {
      var s := args[0].s;
      PutPadded(out, if f.hasPrec then s[..Min(|s|, f.prec)] else s, f);
      args := args[1..];
    } else if c == 'p' {
      NtoaLong(out, args[0].bits % W64, false, 16, f.(width := 16, zero := true, upper := true));
      args := args[1..];
    } else {
      out.Put(c);
    }
  }

  // A whole directive, from behind its %
  method DoDirective(out: Sink, format: string, i0: nat, args0: seq<Arg>) returns (i: nat, args: seq<Arg>)
    requires i0 <= |format| && out.Valid() && Directive(format[i0..], args0).Some?
    modifies out`idx, out`text, out.buffer
    ensures i0 < i <= |format| && out.Valid()
    ensures var (t, p) := Directive(format[i0..], args0).value;
            out.text == old(out.text) + t && p.rest == format[i..] && p.args == args
  {
    var f, l;
    f, i := ReadFlags(format, i0);
    f, i, args := ReadWidth(format, i, f, args0);
    f, i, args := ReadPrecision(format, i, f, args);
    l, i := ReadLength(format, i);
    i, args := Convert(out, format, i, l, f, args);
  }

  /** The loop of _vsnprintf: it puts out what the format stands for. */
  method PutFormat(out: Sink, format: string, args0: seq<Arg>)
    requires out.Valid() && Render(format, args0).Some?
    modifies out`idx, out`text, out.buffer
    ensures out.Valid() && out.text == old(out.text) + Render(format, args0).value
  {
    ghost var t := Render(format, args0).value;
    var i, args := 0, args0;
    assert format[0..] == format;
    while i < |format|
      invariant i <= |format| && out.Valid() && Render(format[i..], args).Some?
      invariant out.text + Render(format[i..], args).value == old(out.text) + t
      decreases |format| - i
    {
      ghost var was, rest := out.text, Render(format[i..], args).value;
      assert format[i..][1..] == format[i + 1..];
      if format[i] != '%' {
        out.Put(format[i]);
        Assoc(was, [format[i]], Render(format[i + 1..], args).value);
        i := i + 1;
      } else {
        ghost var d := Directive(format[i + 1..], args).value;
        i, args := DoDirective(out, format, i + 1, args);
        Assoc(was, d.0, Render(format[i..], args).value);
      }
    }
    assert format[i..] == "";
    EmptyRight(out.text);
  }

  /** _vsnprintf with a buffer, as snprintf calls it: the buffer gets the first count - 1 characters of the untruncated
      output and a NUL, nothing else is written, and the length of the untruncated output is returned. */
  method Vsnprintf(buffer: array<char>, count: nat, format: string, args: seq<Arg>) returns (ret: nat)
    requires count <= buffer.Length && Render(format, args).Some?
    modifies buffer
    ensures var t := Render(format, args).value;
            && ret == |t|
            && (forall i :: 0 <= i < count && i < |t| && i < count - 1 ==> buffer[i] == t[i])
            && (count > 0 ==> buffer[Min(|t|, count - 1)] == 0 as char)
            && (forall i :: 0 <= i < buffer.Length && (i > |t| || i >= count) ==> buffer[i] == old(buffer[i]))
  {
    var out := new Sink(buffer, count);
    PutFormat(out, format, args);
    EmptyLeft(Render(format, args).value);
    var end := if out.idx < count then out.idx else count - 1;
    if 0 <= end < count { buffer[end] := 0 as char; }
    ret := out.idx;
  }

  // ---- printing an int and reading it back

  // %d, or %0Nd for the width N: the flags it sets
  function FieldFlags(width: nat): Flags {
    NO_FLAGS.(zero := width > 0, width := width)
  }

  lemma PrintedNumber(x: int, width: nat)
    ensures TextOf(Number(Abs(x), x < 0, 10, FieldFlags(width))) == Atoi.PrintD(x, width)
  {
    assert Sign(x < 0, FieldFlags(width)) == if x < 0 then "-" else "";
    assert FieldFlags(width) == Flags(false, width > 0, false, false, false, false, width, 0);
  }

  // The d of either directive
  lemma DConversion(bits: nat, width: nat)
    ensures Conversion(Parsed(FieldFlags(width), "d", [Word(bits)]), Plain) ==
            Some((Atoi.PrintD(CutSigned(bits, Plain), width), Parsed(FieldFlags(width), "", [])))
  {
    var p, x := Parsed(FieldFlags(width), "d", [Word(bits)]), CutSigned(bits, Plain);
    assert "d"[1..] == "" && p.args[1..] == [];
    assert NumberFlags('d', FieldFlags(width)) == FieldFlags(width);
    assert NumberOf('d', Plain, bits, FieldFlags(width)) == Number(Abs(x), x < 0, 10, FieldFlags(width));
    PrintedNumber(x, width);
  }

  lemma PlainD(bits: nat)
    ensures Directive("d", [Word(bits)]) ==
            Some((Atoi.PrintD(CutSigned(bits, Plain), 0), Parsed(FieldFlags(0), "", [])))
  {
    var p := Parsed(NO_FLAGS, "d", [Word(bits)]);
    assert FlagsOf("d", NO_FLAGS) == (NO_FLAGS, "d") && WidthOf(p) == Some(p) && PrecisionOf(p) == Some(p);
    assert LengthOf("d") == (Plain, "d") && FieldFlags(0) == NO_FLAGS;
    DConversion(bits, 0);
  }

  lemma NatStep(v: nat, s: string, n: nat)
    requires v < 10 && n < 100
    ensures var d := DigitChar(v, false);
            '0' <= d <= '9' && (v > 0 ==> d != '0') && NatOf([d] + s, n) == NatOf(s, n * 10 + v)
  {
    var d := DigitChar(v, false);
    assert ([d] + s)[1..] == s;
  }

  lemma WidthDigits(width: nat)
    requires 1 <= width <= 32
    ensures var q, d := width / 10, DigitChar(width % 10, false);
            Numeral(width, 10, false) == if q == 0 then [d] else [DigitChar(q, false), d]
  {
    var q, d := width / 10, DigitChar(width % 10, false);
    QuotIs(width, 10);
    QuotIs(q, 10);
    Turn(width, 10, false, q, d);
    if q > 0 { Turn(q, 10, false, 0, DigitChar(q, false)); }
  }

  // The decimal text of a width from 1 to 32, read back by _atoi
  lemma WidthText(width: nat)
    requires 1 <= width <= 32
    ensures var s := Numeral(width, 10, false); '1' <= s[0] <= '9' && NatOf(s + "d", 0) == (width, "d")
  {
    var q, d := width / 10, DigitChar(width % 10, false);
    WidthDigits(width);
    NatStep(width % 10, "d", q);
    assert NatOf("d", width) == (width, "d");
    if q > 0 {
      var c := DigitChar(q, false);
      NatStep(q, [d] + "d", 0);
      assert [c, d] + "d" == [c] + ([d] + "d");
    }
  }

  lemma ZeroD(bits: nat, width: nat)
    requires 1 <= width <= 32
    ensures Directive("0" + Numeral(width, 10, false) + "d", [Word(bits)]) ==
            Some((Atoi.PrintD(CutSigned(bits, Plain), width), Parsed(FieldFlags(width), "", [])))
  {
    var t := Numeral(width, 10, false) + "d";
    var s := "0" + Numeral(width, 10, false) + "d";
    var f := NO_FLAGS.(zero := true);
    WidthText(width);
    assert s[0] == '0' && s[1..] == t && t[0] == Numeral(width, 10, false)[0];
    assert FlagsOf(t, f) == (f, t) && FlagsOf(s, NO_FLAGS) == (f, t);
    var q := Parsed(FieldFlags(width), "d", [Word(bits)]);
    assert WidthOf(Parsed(f, t, [Word(bits)])) == Some(q) && PrecisionOf(q) == Some(q) && LengthOf("d") == (Plain, "d");
    DConversion(bits, width);
  }

  /** %d, or %0Nd for a width N of 1 to 32. */
  function FormatD(width: nat): string {
    if width == 0 then "%d" else "%" + ("0" + Numeral(width, 10, false) + "d")
  }

  lemma RenderD(bits: nat, width: nat)
    requires width <= 32
    ensures Render(FormatD(width), [Word(bits)]) == Some(Atoi.PrintD(CutSigned(bits, Plain), width))
  {
    var s, t := FormatD(width), if width == 0 then "d" else "0" + Numeral(width, 10, false) + "d";
    if width == 0 { PlainD(bits); } else { ZeroD(bits, width); }
    assert s[0] == '%' && s[1..] == t && Render("", []) == Some("");
    EmptyRight(Atoi.PrintD(CutSigned(bits, Plain), width));
  }

  /** What snprintf makes of %d, or of %0Nd up to the width 32, atoi reads back. */
  lemma PrintThenAtoi(bits: nat, width: nat)
    requires width <= 32
    ensures Render(FormatD(width), [Word(bits)]).Some?
    ensures Atoi.AtoiValue(Render(FormatD(width), [Word(bits)]).value) == CutSigned(bits, Plain)
  {
    RenderD(bits, width);
    ReadBack(CutSigned(bits, Plain), width);
  }

  lemma ReadBack(x: int, width: nat)
    requires -0x8000_0000 <= x < 0x8000_0000 && width <= ROOM
    ensures Atoi.AtoiValue(Atoi.PrintD(x, width)) == x
  {
    PowerOfTen();
    Atoi.AtoiReadsPrintD(x, width);
    Atoi.Int32Keeps(x);
  }

  lemma PowerOfTen()
    ensures Power(10, 31) > 0x8000_0000
  {
    DigitBounds(10);
  }
}
