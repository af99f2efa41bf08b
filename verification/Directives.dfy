/** The directives of a format as section 7.21.6.1 of C11 spells them, and what vsnprintf makes of each. */
module Directives {
  import opened Arithmetic
  import opened Options
  import opened NumberText
  import opened Snprintf

  // ---- how a directive is spelled

  datatype Size = Absent | Literal(digits: string) | Star

  /** A directive behind its %: flags in any order, width, precision behind its point, length and conversion. */
  datatype Spec = Spec(flags: string, width: Size, precise: bool, precision: Size, length: string, conv: char)

  predicate Decimals(t: string) {
    forall i {:trigger t[i]} :: 0 <= i < |t| ==> '0' <= t[i] <= '9'
  }

  predicate IsFlag(c: char) {
    c == '0' || c == '-' || c == '+' || c == ' '
  }

  predicate SizeOk(z: Size) {
    z.Literal? ==> z.digits != "" && Decimals(z.digits) && ValueOf(z.digits, 10) < 0x1_0000_0000
  }

  predicate IsSigned(c: char) {
    c == 'd' || c == 'i'
  }

  predicate Converts(c: char) {
    IsSigned(c) || c in {'u', 'x', 'X', 'o', 'b'}
  }

  /** A character that stands for itself behind a %, such as another %; the f, e and g of floating point do, too. */
  predicate IsOther(c: char) {
    && !Converts(c) && !IsFlag(c) && !('0' <= c <= '9')
    && c !in {'c', 's', 'p', '#', '*', '.', 'l', 'h', 'j', 'z', 't'}
  }

  // A zero in front of a width would be a flag
  predicate WellSpelled(d: Spec) {
    && (forall i {:trigger d.flags[i]} :: 0 <= i < |d.flags| ==> IsFlag(d.flags[i]))
    && SizeOk(d.width) && (d.width.Literal? ==> d.width.digits[0] != '0')
    && SizeOk(d.precision)
    && d.length in {"", "hh", "h", "l", "ll", "j", "z", "t"}
    && (Converts(d.conv) || d.conv in {'c', 's', 'p'} || IsOther(d.conv))
  }

  function SizeText(z: Size): string {
    match z
    case Absent => ""
    case Literal(t) => t
    case Star => "*"
  }

  // The format from each part on; rest is what follows the directive
  function FromLength(d: Spec, rest: string): string {
    d.length + ([d.conv] + rest)
  }

  function FromPrecision(d: Spec, rest: string): string {
    if d.precise then "." + (SizeText(d.precision) + FromLength(d, rest)) else FromLength(d, rest)
  }

  function FromWidth(d: Spec, rest: string): string {
    SizeText(d.width) + FromPrecision(d, rest)
  }

  /** The format from behind the % of directive d. */
  function Spelled(d: Spec, rest: string): string {
    d.flags + FromWidth(d, rest)
  }

  // ---- what it asks for

  /** Flags, width and precision that a directive asks for, the stars' arguments taken in. */
  datatype Asked = Asked(left: bool, zero: bool, plus: bool, space: bool, width: nat, precision: Option<nat>)

  // The argument of a star is an int
  predicate StarOk(z: Size, args: seq<Arg>) {
    z.Star? ==> args != [] && args[0].Word?
  }

  function SizeAsked(z: Size, args: seq<Arg>): int
    requires StarOk(z, args)
  {
    match z
    case Absent => 0
    case Literal(t) => ValueOf(t, 10)
    case Star => Int32(args[0].bits)
  }

  function Behind(z: Size, args: seq<Arg>): seq<Arg>
    requires StarOk(z, args)
  {
    if z.Star? then args[1..] else args
  }

  predicate StarsOk(d: Spec, args: seq<Arg>) {
    StarOk(d.width, args) && (d.precise ==> StarOk(d.precision, Behind(d.width, args)))
  }

  // The arguments from that of the conversion on
  function Operands(d: Spec, args: seq<Arg>): seq<Arg>
    requires StarsOk(d, args)
  {
    if d.precise then Behind(d.precision, Behind(d.width, args)) else Behind(d.width, args)
  }

  /** A negative width is a '-' flag and a width, and a negative precision one of 0. */
  function AskedBy(d: Spec, args: seq<Arg>): Asked
    requires StarsOk(d, args)
  {
    var w := SizeAsked(d.width, args);
    var p := if d.precise then SizeAsked(d.precision, Behind(d.width, args)) else 0;
    Asked('-' in d.flags || w < 0, '0' in d.flags, '+' in d.flags, ' ' in d.flags, Abs(w),
          if d.precise then Some(if p < 0 then 0 else p) else None)
  }

  /** One more than the largest unsigned number of that length. */
  function Modulus(length: string): (m: nat)
    ensures m >= 2
  {
    if length == "hh" then 0x100 else if length == "h" then 0x1_0000
    else if length == "" then 0x1_0000_0000 else 0x1_0000_0000_0000_0000
  }

  // ---- reading it

  function FlagsFor(a: Asked): Flags {
    var precision := if a.precision.Some? then a.precision.value else 0;
    Flags(a.left, a.zero, a.plus, a.space, false, a.precision.Some?, a.width, precision)
  }

  function LengthFor(length: string): Length {
    if length == "hh" then Chars else if length == "h" then Shorts else if length == "" then Plain else Longs
  }

  function WithFlags(f: Flags, fl: string): Flags {
    f.(left := f.left || '-' in fl, zero := f.zero || '0' in fl, plus := f.plus || '+' in fl,
       space := f.space || ' ' in fl)
  }

  lemma Peel(c: char, t: string, s: string)
    ensures ([c] + t + s)[0] == c && ([c] + t + s)[1..] == t + s
  {
  }

  lemma FlagsCons(f: Flags, c: char, t: string)
    ensures WithFlags(WithFlags(f, [c]), t) == WithFlags(f, [c] + t)
  {
    var u := [c] + t;
    forall x ensures x in u <==> x == c || x in t {
      if x in t { var i :| 0 <= i < |t| && t[i] == x; assert u[i + 1] == x; }
      if x == c { assert u[0] == x; }
    }
  }

  lemma FlagStep(c: char, u: string, f: Flags)
    requires IsFlag(c)
    ensures FlagsOf([c] + u, f) == FlagsOf(u, WithFlags(f, [c]))
  {
    assert ([c] + u)[0] == c && ([c] + u)[1..] == u;
  }

  lemma {:induction false} FlagsRead(fl: string, s: string, f: Flags)
    requires forall i {:trigger fl[i]} :: 0 <= i < |fl| ==> IsFlag(fl[i])
    requires s != "" && !IsFlag(s[0])
    ensures FlagsOf(fl + s, f) == (WithFlags(f, fl), s)
  {
    if fl == "" {
      EmptyLeft(s);
    } else {
      var c, t := fl[0], fl[1..];
      assert fl == [c] + t && fl + s == [c] + (t + s);
      FlagStep(c, t + s, f);
      FlagsRead(t, s, WithFlags(f, [c]));
      FlagsCons(f, c, t);
    }
  }

  // _atoi from n on
  function Acc(t: string, n: nat): nat
    requires Decimals(t)
  {
    if t == "" then n else Acc(t[1..], (n * 10 + (t[0] - '0') as nat) % W32)
  }

  lemma {:induction false} NatRead(t: string, s: string, n: nat)
    requires Decimals(t) && !StartsDigit(s)
    ensures NatOf(t + s, n) == (Acc(t, n), s)
  {
    if t == "" {
      EmptyLeft(s);
    } else {
      assert t == [t[0]] + t[1..];
      Peel(t[0], t[1..], s);
      NatRead(t[1..], s, (n * 10 + (t[0] - '0') as nat) % W32);
    }
  }

  lemma {:induction false} AccSnoc(t: string, c: char, n: nat)
    requires Decimals(t) && '0' <= c <= '9'
    ensures Decimals(t + [c]) && Acc(t + [c], n) == (Acc(t, n) * 10 + (c - '0') as nat) % W32
  {
    if t == "" {
      assert t + [c] == [c] && [c][1..] == "";
    } else {
      assert (t + [c])[1..] == t[1..] + [c];
      AccSnoc(t[1..], c, (n * 10 + (t[0] - '0') as nat) % W32);
    }
  }

  lemma SmallWord(n: nat)
    requires n < W32
    ensures n % W32 == n
  {
  }

  lemma SnocValue(u: string, c: char)
    requires '0' <= c <= '9'
    ensures ValueOf(u + [c], 10) == ValueOf(u, 10) * 10 + (c - '0') as nat
  {
    assert (u + [c])[..|u|] == u;
  }

  lemma {:induction false} AccIsValue(t: string)
    requires Decimals(t) && ValueOf(t, 10) < W32
    ensures Acc(t, 0) == ValueOf(t, 10)
  {
    if t != "" {
      var u, c := t[..|t| - 1], t[|t| - 1];
      assert t == u + [c];
      AccIsValue(u);
      AccSnoc(u, c, 0);
      SnocValue(u, c);
      SmallWord(ValueOf(t, 10));
    }
  }

  lemma LiteralRead(t: string, s: string)
    requires Decimals(t) && t != "" && ValueOf(t, 10) < W32 && !StartsDigit(s)
    ensures StartsDigit(t + s) && NatOf(t + s, 0) == (ValueOf(t, 10), s)
  {
    NatRead(t, s, 0);
    AccIsValue(t);
    assert (t + s)[0] == t[0];
  }

  lemma IntIsCut(bits: nat)
    ensures CutSigned(bits, Plain) == Int32(bits)
  {
    var q, r := bits / W32, bits % W32;
    if r >= W32 / 2 { DivModUnique(bits + 0x8000_0000, W32, q + 1, r - 0x8000_0000); }
    else { DivModUnique(bits + 0x8000_0000, W32, q, r + 0x8000_0000); }
  }

  // How what follows a size starts: with no digit and no star
  predicate EndsSize(s: string) {
    s != "" && !('0' <= s[0] <= '9') && s[0] != '*'
  }

  lemma WidthRead(z: Size, s: string, f: Flags, args: seq<Arg>)
    requires SizeOk(z) && StarOk(z, args) && EndsSize(s) && f.width == 0
    ensures var w := SizeAsked(z, args);
            WidthOf(Parsed(f, SizeText(z) + s, args)) ==
            Some(Parsed(f.(left := f.left || w < 0, width := Abs(w)), s, Behind(z, args)))
  {
    match z
    case Absent => EmptyLeft(s);
    case Literal(t) => LiteralRead(t, s);
    case Star =>
      IntIsCut(args[0].bits);
      assert ("*" + s)[0] == '*' && ("*" + s)[1..] == s;
  }

  lemma PrecisionRead(z: Size, s: string, f: Flags, args: seq<Arg>)
    requires SizeOk(z) && StarOk(z, args) && EndsSize(s) && f.prec == 0
    ensures var p := SizeAsked(z, args);
            PrecisionOf(Parsed(f, "." + (SizeText(z) + s), args)) ==
            Some(Parsed(f.(hasPrec := true, prec := if p < 0 then 0 else p), s, Behind(z, args)))
  {
    var t := SizeText(z) + s;
    assert ("." + t)[0] == '.' && ("." + t)[1..] == t;
    match z
    case Absent => EmptyLeft(s);
    case Literal(u) => LiteralRead(u, s);
    case Star =>
      IntIsCut(args[0].bits);
      assert t[0] == '*' && t[1..] == s;
  }

  predicate EndsLength(c: char) {
    c !in {'l', 'h', 't', 'j', 'z'}
  }

  lemma LengthRead(l: string, c: char, rest: string)
    requires l in {"", "hh", "h", "l", "ll", "j", "z", "t"} && EndsLength(c)
    ensures LengthOf(l + ([c] + rest)) == (LengthFor(l), [c] + rest)
  {
    var s := [c] + rest;
    var t := l + s;
    if |l| == 0 { EmptyLeft(s); }
    else if |l| == 1 { assert t[0] == l[0] && t[1..] == s; }
    else { assert t[0] == l[0] && t[1..][0] == l[1] && t[2..] == s; }
  }

  lemma LengthStarts(d: Spec, rest: string)
    requires WellSpelled(d)
    ensures var s := FromLength(d, rest); s != "" && !IsFlag(s[0]) && s[0] != '.' && s[0] != '#' && EndsSize(s)
    ensures EndsLength(d.conv)
  {
    var s := FromLength(d, rest);
    if d.length == "" { EmptyLeft([d.conv] + rest); } else { assert s[0] == d.length[0]; }
  }

  lemma PrecisionStarts(d: Spec, rest: string)
    requires WellSpelled(d)
    ensures var s := FromPrecision(d, rest); s != "" && !IsFlag(s[0]) && s[0] != '#' && EndsSize(s)
  {
    LengthStarts(d, rest);
    if d.precise { assert FromPrecision(d, rest)[0] == '.'; }
  }

  lemma WidthStarts(d: Spec, rest: string)
    requires WellSpelled(d)
    ensures var s := FromWidth(d, rest); s != "" && !IsFlag(s[0]) && s[0] != '#'
  {
    PrecisionStarts(d, rest);
    match d.width
    case Absent => EmptyLeft(FromPrecision(d, rest));
    case Literal(t) => assert FromWidth(d, rest)[0] == t[0];
    case Star => assert FromWidth(d, rest)[0] == '*';
  }

  lemma DirectiveIs(s: string, args: seq<Arg>, f: Flags, s1: string, p: Parsed, q: Parsed, l: Length, s2: string)
    requires FlagsOf(s, NO_FLAGS) == (f, s1) && !Starts(s1, '#') && WidthOf(Parsed(f, s1, args)) == Some(p)
    requires PrecisionOf(p) == Some(q) && LengthOf(q.rest) == (l, s2)
    ensures Directive(s, args) == Conversion(q.(rest := s2), l)
  {
  }

  // The flags once the width has been read
  function WidthFlags(d: Spec, args: seq<Arg>): Flags
    requires StarsOk(d, args)
  {
    var f, w := WithFlags(NO_FLAGS, d.flags), SizeAsked(d.width, args);
    f.(left := f.left || w < 0, width := Abs(w))
  }

  lemma PrecisionPart(d: Spec, rest: string, args: seq<Arg>)
    requires WellSpelled(d) && StarsOk(d, args)
    ensures PrecisionOf(Parsed(WidthFlags(d, args), FromPrecision(d, rest), Behind(d.width, args))) ==
            Some(Parsed(FlagsFor(AskedBy(d, args)), FromLength(d, rest), Operands(d, args)))
  {
    LengthStarts(d, rest);
    if d.precise {
      PrecisionRead(d.precision, FromLength(d, rest), WidthFlags(d, args), Behind(d.width, args));
    }
  }

  /** Every spelling of a directive is read as what it asks for. */
  lemma DirectiveReads(d: Spec, rest: string, args: seq<Arg>)
    requires WellSpelled(d) && StarsOk(d, args)
    ensures Directive(Spelled(d, rest), args) ==
            Conversion(Parsed(FlagsFor(AskedBy(d, args)), [d.conv] + rest, Operands(d, args)), LengthFor(d.length))
  {
    var f := WithFlags(NO_FLAGS, d.flags);
    WidthStarts(d, rest);
    FlagsRead(d.flags, FromWidth(d, rest), NO_FLAGS);
    PrecisionStarts(d, rest);
    WidthRead(d.width, FromPrecision(d, rest), f, args);
    PrecisionPart(d, rest, args);
    LengthStarts(d, rest);
    LengthRead(d.length, d.conv, rest);
    DirectiveIs(Spelled(d, rest), args, f, FromWidth(d, rest),
                Parsed(WidthFlags(d, args), FromPrecision(d, rest), Behind(d.width, args)),
                Parsed(FlagsFor(AskedBy(d, args)), FromLength(d, rest), Operands(d, args)),
                LengthFor(d.length), [d.conv] + rest);
  }

  // ---- numbers

  predicate IsDigitOf(c: char, base: nat, upper: bool) {
    ('0' <= c <= '9' || if upper then 'A' <= c <= 'F' else 'a' <= c <= 'f') && DigitValue(c) < base
  }

  /** digits are those of n, in upper or lower case, and none is superfluous. */
  predicate IsNumeral(digits: string, n: nat, base: nat, upper: bool) {
    && digits != "" && ValueOf(digits, base) == n
    && (forall i {:trigger digits[i]} :: 0 <= i < |digits| ==> IsDigitOf(digits[i], base, upper))
    && if n == 0 then digits == "0" else DigitValue(digits[0]) > 0
  }

  function BaseFor(c: char): (b: nat)
    ensures 2 <= b <= 16
  {
    match c
    case 'x' => 16
    case 'X' => 16
    case 'o' => 8
    case 'b' => 2
    case _ => 10
  }

  /** v is the argument as a number of the length, signed for d and i. */
  predicate IsValue(v: int, c: char, m: nat, bits: nat)
    requires m > 0
  {
    if IsSigned(c) then -(m as int) / 2 <= v < m / 2 && (v - bits) % m == 0 else v == bits % m
  }

  function SignFor(c: char, v: int, a: Asked): string {
    if !IsSigned(c) then "" else if v < 0 then "-" else if a.plus then "+" else if a.space then " " else ""
  }

  /** What a caller can check: room for digits, zeros and sign, and no precision beyond the digits with '-'. */
  predicate HasRoom(n: nat, sign: string, a: Asked) {
    var p := if a.precision.Some? then a.precision.value else 0;
    && n <= 32
    && if a.left then p <= n
       else if a.zero && a.precision.None? then a.width <= 32
       else p + |sign| <= 32 || (sign == " " && p == 32 && a.width > 32)
  }

  lemma {:induction false} NumeralDigits(v: nat, base: nat, upper: bool)
    requires 2 <= base <= 16
    ensures forall i {:trigger Numeral(v, base, upper)[i]} :: 0 <= i < |Numeral(v, base, upper)| ==>
              IsDigitOf(Numeral(v, base, upper)[i], base, upper)
  {
    var q, r := Quot(v, base), Rest(v, base);
    var c := DigitChar(r, upper);
    Turn(v, base, upper, q, c);
    DigitIs(r, base, upper);
    if q > 0 { NumeralDigits(q, base, upper); }
  }

  lemma DigitIs(r: nat, base: nat, upper: bool)
    requires r < base <= 16
    ensures IsDigitOf(DigitChar(r, upper), base, upper)
  {
  }

  lemma NumeralIs(v: nat, base: nat, upper: bool)
    requires 2 <= base <= 16
    ensures IsNumeral(Numeral(v, base, upper), v, base, upper)
  {
    NumeralDenotes(v, base, upper);
    NumeralStarts(v, base, upper);
    NumeralDigits(v, base, upper);
  }

  lemma SignedCut(bits: nat, m: nat)
    requires m > 0 && m % 2 == 0
    ensures var r := bits % m; var v := if r >= m / 2 then r - m else r;
            -(m as int) / 2 <= v < m / 2 && (v - bits) % m == 0
  {
    var q, r := bits / m, bits % m;
    var k: int := if r >= m / 2 then -q - 1 else -q;
    var v: int := if r >= m / 2 then r - m else r;
    assert bits == q * m + r;
    assert v - bits == k * m + 0;
    DivModUnique(v - bits, m, k, 0);
  }

  lemma ValueIs(c: char, length: string, bits: nat)
    ensures IsValue(if IsSigned(c) then CutSigned(bits, LengthFor(length)) else Cut(bits, LengthFor(length)), c,
                    Modulus(length), bits)
  {
    SignedCut(bits, Modulus(length));
  }

  // What the model calls the number
  lemma NumberIs(c: char, length: string, bits: nat, a: Asked) returns (v: int, digits: string)
    requires Converts(c)
    ensures IsValue(v, c, Modulus(length), bits)
    ensures var n := NumberOf(c, LengthFor(length), bits, FlagsFor(a));
            n.value == Abs(v) && digits == NumeralOf(n) && Sign(n.neg, n.f) == SignFor(c, v, a)
    ensures if v == 0 && a.precision.Some? then digits == "" else
              digits == Numeral(Abs(v), BaseFor(c), c == 'X') && IsNumeral(digits, Abs(v), BaseFor(c), c == 'X')
  {
    ValueIs(c, length, bits);
    var n := NumberOf(c, LengthFor(length), bits, FlagsFor(a));
    v := if IsSigned(c) then CutSigned(bits, LengthFor(length)) else Cut(bits, LengthFor(length));
    digits := NumeralOf(n);
    NumeralIs(Abs(v), BaseFor(c), c == 'X');
  }

  lemma SameLayout(digits: string, sign: string, c: char, a: Asked)
    ensures Standard(digits, sign, NumberFlags(c, FlagsFor(a))) == Standard(digits, sign, FlagsFor(a))
  {
  }

  /** An integer directive, however spelled, puts out the field that C11 lays out for the digits of its value, exactly
      when there is room for it. */
  lemma NumberDirective(d: Spec, rest: string, args: seq<Arg>, bits: nat)
    returns (t: string, v: int, digits: string)
    requires WellSpelled(d) && Converts(d.conv) && StarsOk(d, args)
    requires Operands(d, args) != [] && Operands(d, args)[0] == Word(bits)
    ensures Puts(d, rest, args, t, Operands(d, args)[1..])
    ensures IsValue(v, d.conv, Modulus(d.length), bits)
    ensures var a := AskedBy(d, args); var sign := SignFor(d.conv, v, a);
            && (if v == 0 && a.precision.Some? then digits == ""
                else digits == Numeral(Abs(v), BaseFor(d.conv), d.conv == 'X')
                     && IsNumeral(digits, Abs(v), BaseFor(d.conv), d.conv == 'X'))
            && (t == Standard(digits, sign, FlagsFor(a)) <==> HasRoom(|digits|, sign, a))
  {
    var a := AskedBy(d, args);
    var n := NumberOf(d.conv, LengthFor(d.length), bits, FlagsFor(a));
    v, digits := NumberIs(d.conv, d.length, bits, a);
    t := TextOf(n);
    ConversionIsStandard(d.conv, LengthFor(d.length), bits, FlagsFor(a));
    SameLayout(digits, SignFor(d.conv, v, a), d.conv, a);
    DirectiveReads(d, rest, args);
    Tail(d.conv, rest);
  }

  lemma Tail(c: char, rest: string)
    ensures ([c] + rest)[0] == c && ([c] + rest)[1..] == rest
  {
  }

  /** The directive puts out t, takes the arguments up to left and leaves the format at rest. */
  predicate Puts(d: Spec, rest: string, args: seq<Arg>, t: string, left: seq<Arg>) {
    var r := Directive(Spelled(d, rest), args);
    r.Some? && r.value.0 == t && r.value.1.rest == rest && r.value.1.args == left
  }

  /** The text of a format is the texts of its directives and the characters between them, in order. */
  lemma RenderDirective(d: Spec, rest: string, args: seq<Arg>, t: string, left: seq<Arg>)
    requires Puts(d, rest, args, t, left)
    ensures Render("%" + Spelled(d, rest), args) ==
            match Render(rest, left) case None => None case Some(u) => Some(t + u)
  {
    var s := "%" + Spelled(d, rest);
    assert s[0] == '%' && s[1..] == Spelled(d, rest);
  }

  lemma RenderCharacter(c: char, rest: string, args: seq<Arg>)
    requires c != '%'
    ensures Render([c] + rest, args) == match Render(rest, args) case None => None case Some(u) => Some([c] + u)
  {
    Tail(c, rest);
  }

  // ---- strings, characters, pointers and the per cent sign

  function Aligned(s: string, a: Asked): string {
    if a.left then s + Rep(' ', a.width - |s|) else Rep(' ', a.width - |s|) + s
  }

  /** %s puts out the string, or as much of it as the precision allows, on the side of the field that '-' asks for. */
  lemma StringDirective(d: Spec, rest: string, args: seq<Arg>, s: string)
    requires WellSpelled(d) && d.conv == 's' && StarsOk(d, args)
    requires Operands(d, args) != [] && Operands(d, args)[0] == Text(s)
    ensures var a := AskedBy(d, args);
            var cut := if a.precision.Some? && a.precision.value < |s| then s[..a.precision.value] else s;
            Puts(d, rest, args, Aligned(cut, a), Operands(d, args)[1..])
  {
    DirectiveReads(d, rest, args);
    Tail(d.conv, rest);
    assert s[..|s|] == s;
  }

  /** %c puts out its argument cut to a char. */
  lemma CharacterDirective(d: Spec, rest: string, args: seq<Arg>, bits: nat)
    requires WellSpelled(d) && d.conv == 'c' && StarsOk(d, args)
    requires Operands(d, args) != [] && Operands(d, args)[0] == Word(bits)
    ensures Puts(d, rest, args, Aligned([(bits % 0x100) as char], AskedBy(d, args)), Operands(d, args)[1..])
  {
    DirectiveReads(d, rest, args);
    Tail(d.conv, rest);
  }

  /** %%, and any other character that is no conversion, puts out that character and takes no argument. */
  lemma OtherDirective(d: Spec, rest: string, args: seq<Arg>)
    requires WellSpelled(d) && IsOther(d.conv) && StarsOk(d, args)
    ensures Puts(d, rest, args, [d.conv], Operands(d, args))
  {
    DirectiveReads(d, rest, args);
    Tail(d.conv, rest);
  }

  // ---- conversions without flags, width and precision

  lemma PowerOfTwo()
    ensures Power(2, 32) == 0x1_0000_0000
  {
    assert Power(2, 8) == 256;
    PowerJoin(2, 8, 8);
    PowerJoin(2, 16, 16);
  }

  lemma DigitsFit(v: nat, c: char, m: nat, upper: bool)
    requires Converts(c) && v < m && m <= 0x1_0000_0000_0000_0000 && (c == 'b' ==> m <= 0x1_0000_0000)
    ensures |Numeral(v, BaseFor(c), upper)| <= if c == 'b' then 32 else 31
  {
    if c == 'b' {
      PowerOfTwo();
      NumeralFits(v, 2, upper, 32);
    } else {
      DigitBounds(BaseFor(c));
      NumeralFits(v, BaseFor(c), upper, 31);
    }
  }

  function Bare(length: string, c: char): Spec {
    Spec("", Absent, false, Absent, length, c)
  }

  lemma BareSpelled(length: string, c: char)
    ensures "%" + length + [c] == "%" + Spelled(Bare(length, c), "")
  {
    EmptyRight([c]);
    EmptyLeft(length + [c]);
  }

  lemma BareStandard(digits: string, sign: string, a: Asked)
    requires !a.left && !a.zero && a.width == 0 && a.precision.None?
    ensures Standard(digits, sign, FlagsFor(a)) == sign + digits
  {
    EmptyLeft(digits);
    EmptyLeft(sign);
  }

  // What a length stands for
  predicate Long(length: string, m: nat) {
    || (length == "hh" && m == 0x100) || (length == "h" && m == 0x1_0000) || (length == "" && m == 0x1_0000_0000)
    || (length in {"l", "ll", "j", "z", "t"} && m == 0x1_0000_0000_0000_0000)
  }

  lemma BareNumber(c: char, length: string, m: nat, bits: nat) returns (t: string, v: int, digits: string)
    requires Converts(c) && Long(length, m) && (c == 'b' ==> m <= 0x1_0000_0000)
    ensures Render("%" + length + [c], [Word(bits)]) == Some(t)
    ensures IsValue(v, c, m, bits) && t == (if v < 0 then "-" else "") + digits
    ensures IsNumeral(digits, Abs(v), BaseFor(c), c == 'X')
  {
    var d, args := Bare(length, c), [Word(bits)];
    t, v, digits := NumberDirective(d, "", args, bits);
    DigitsFit(Abs(v), c, m, c == 'X');
    BareStandard(digits, SignFor(c, v, AskedBy(d, args)), AskedBy(d, args));
    RenderDirective(d, "", args, t, args[1..]);
    EmptyRight(t);
    BareSpelled(length, c);
  }

  /** %u, %o, %x, %X and %b, of every length, write the argument in their base; %b of 64 bits has no room for more than
      32 digits. */
  lemma UnsignedText(c: char, base: nat, length: string, m: nat, bits: nat) returns (t: string)
    requires || (c == 'u' && base == 10) || (c == 'o' && base == 8) || (c == 'x' && base == 16)
             || (c == 'X' && base == 16) || (c == 'b' && base == 2)
    requires Long(length, m) && (c == 'b' ==> m <= 0x1_0000_0000)
    ensures Render("%" + length + [c], [Word(bits)]) == Some(t)
    ensures IsNumeral(t, bits % m, base, c == 'X')
  {
    var v, digits;
    t, v, digits := BareNumber(c, length, m, bits);
    EmptyLeft(digits);
  }

  /** %d and %i, of every length, write the signed number that is the argument modulo 2 to the length. */
  lemma SignedText(c: char, length: string, m: nat, bits: nat, v: int) returns (t: string, digits: string)
    requires (c == 'd' || c == 'i') && Long(length, m)
    requires -(m as int) / 2 <= v < m / 2 && (v - bits) % m == 0
    ensures Render("%" + length + [c], [Word(bits)]) == Some(t)
    ensures t == (if v < 0 then "-" else "") + digits && IsNumeral(digits, Abs(v), 10, false)
  {
    var w;
    t, w, digits := BareNumber(c, length, m, bits);
    SignedUnique(v, w, m, bits);
  }

  lemma PointerStandard(digits: string, f: Flags)
    requires |digits| <= 16 && f.zero && f.width == 16 && f.prec == 0 && !f.left && !f.hasPrec
    ensures Standard(digits, "", f) == Rep('0', 16 - |digits|) + digits
  {
    EmptyLeft(digits);
    EmptyLeft(Rep('0', 16 - |digits|));
  }

  lemma PointerDigits(v: nat) returns (digits: string)
    requires v < W64
    ensures |digits| <= 16 && IsNumeral(digits, v, 16, true)
    ensures NumberField(v, false, 16, NO_FLAGS.(width := 16, zero := true, upper := true)) ==
            Rep('0', 16 - |digits|) + digits
  {
    var f := NO_FLAGS.(width := 16, zero := true, upper := true);
    digits := Numeral(v, 16, true);
    NumeralIs(v, 16, true);
    PowerJoin(16, 8, 8);
    assert Power(16, 8) == 0x1_0000_0000;
    NumeralFits(v, 16, true, 16);
    NumberIsStandard(Number(v, false, 16, f));
    PointerStandard(digits, f);
  }

  lemma PointerDirective(d: Spec, rest: string, args: seq<Arg>, bits: nat, t: string)
    requires d == Bare("", 'p') && args != [] && args[0] == Word(bits)
    requires t == NumberField(bits % W64, false, 16, NO_FLAGS.(width := 16, zero := true, upper := true))
    ensures Puts(d, rest, args, t, args[1..])
  {
    DirectiveReads(d, rest, args);
    Tail('p', rest);
    assert FlagsFor(AskedBy(d, args)) == NO_FLAGS;
  }

  /** %p writes the 64 bits of a pointer as 16 upper-case hexadecimal digits. */
  lemma PointerText(bits: nat) returns (digits: string)
    ensures |digits| <= 16 && IsNumeral(digits, bits % 0x1_0000_0000_0000_0000, 16, true)
    ensures Render("%p", [Word(bits)]) == Some(Rep('0', 16 - |digits|) + digits)
  {
    digits := PointerDigits(bits % W64);
    var t := Rep('0', 16 - |digits|) + digits;
    PointerDirective(Bare("", 'p'), "", [Word(bits)], bits, t);
    RenderDirective(Bare("", 'p'), "", [Word(bits)], t, []);
    EmptyRight(t);
    BareSpelled("", 'p');
  }

  lemma SignedUnique(v: int, w: int, m: nat, bits: nat)
    requires m > 0 && -(m as int) / 2 <= v < m / 2 && -(m as int) / 2 <= w < m / 2
    requires (v - bits) % m == 0 && (w - bits) % m == 0
    ensures v == w
  {
    var i, j := (v - bits) / m, (w - bits) / m;
    assert v - w == i * m - j * m;
    Minus(i, j, m);
    if i > j { AtLeast(i - j, m); } else if i < j { AtLeast(j - i, m); Minus(j, i, m); }
  }
}
