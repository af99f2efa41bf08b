/** One format for each flag, size and conversion, with the text it puts out. */
module DirectiveExamples {
  import opened Arithmetic
  import opened Options
  import opened NumberText
  import opened Snprintf
  import opened Directives

  lemma Seven()
    ensures Numeral(7, 10, false) == "7"
  {
    OneDigit(7, 10, false);
  }

  lemma FortyTwo()
    ensures Numeral(42, 10, false) == "42"
  {
    OneDigit(4, 10, false);
    OneMore(42, 10, false, 4, '2');
  }

  lemma Hexadecimal()
    ensures Numeral(255, 16, false) == "ff" && Numeral(255, 16, true) == "FF"
  {
    OneDigit(15, 16, false);
    OneMore(255, 16, false, 15, 'f');
    OneDigit(15, 16, true);
    OneMore(255, 16, true, 15, 'F');
  }

  lemma OctalAndBinary()
    ensures Numeral(8, 8, false) == "10" && Numeral(5, 2, false) == "101"
  {
    OneDigit(1, 8, false);
    OneMore(8, 8, false, 1, '0');
    OneDigit(1, 2, false);
    OneMore(2, 2, false, 1, '0');
    OneMore(5, 2, false, 2, '1');
  }

  lemma OneDigit(v: nat, base: nat, upper: bool)
    requires v < base && 2 <= base <= 16
    ensures Numeral(v, base, upper) == [DigitChar(v, upper)]
  {
    Turn(v, base, upper, 0, DigitChar(v, upper));
  }

  lemma OneMore(v: nat, base: nat, upper: bool, q: nat, c: char)
    requires 2 <= base <= 16 && q > 0 && q == v / base && c == DigitChar(v % base, upper)
    ensures Numeral(v, base, upper) == Numeral(q, base, upper) + [c]
  {
    QuotIs(v, base);
    Turn(v, base, upper, q, c);
  }

  // A directive whose argument is v, at the end of a format
  lemma Shown(d: Spec, args: seq<Arg>, a: Asked, bits: nat, v: int, digits: string, sign: string, t: string)
    requires WellSpelled(d) && Converts(d.conv) && StarsOk(d, args) && Operands(d, args) == [Word(bits)]
    requires AskedBy(d, args) == a && sign == SignFor(d.conv, v, a)
    requires v != 0 && IsValue(v, d.conv, Modulus(d.length), bits)
    requires digits == Numeral(Abs(v), BaseFor(d.conv), d.conv == 'X')
    requires HasRoom(|digits|, sign, a) && t == Standard(digits, sign, FlagsFor(a))
    ensures Render("%" + Spelled(d, ""), args) == Some(t)
  {
    var u, w, ds := NumberDirective(d, "", args, bits);
    if IsSigned(d.conv) { SignedUnique(v, w, Modulus(d.length), bits); }
    RenderDirective(d, "", args, u, []);
    EmptyRight(u);
  }

  lemma Reps()
    ensures Rep(' ', 3) == "   " && Rep('0', 2) == "00" && Rep(' ', 0) == "" && Rep('0', 0) == ""
  {
  }

  lemma DigitIsItsValue(c: char)
    requires '0' <= c <= '9'
    ensures Decimals([c]) && ValueOf([c], 10) == (c - '0') as nat
  {
    assert ValueOf([c][..0], 10) == 0;
  }

  predicate Spellable(d: Spec) {
    && (forall i {:trigger d.flags[i]} :: 0 <= i < |d.flags| ==> IsFlag(d.flags[i]))
    && (Converts(d.conv) || d.conv in {'c', 's', 'p'} || IsOther(d.conv))
  }

  // A directive with nothing else, or one flag and nothing else
  lemma Alone(d: Spec, args: seq<Arg>)
    requires d == Spec("", Absent, false, Absent, "", d.conv) && Spellable(d)
    ensures WellSpelled(d) && StarsOk(d, args) && Operands(d, args) == args
    ensures AskedBy(d, args) == Asked(false, false, false, false, 0, None) && Spelled(d, "") == [d.conv]
  {
    EmptyLeft([d.conv]);
  }

  lemma OneFlag(d: Spec, f: char, args: seq<Arg>)
    requires d == Spec([f], Absent, false, Absent, "", d.conv) && Spellable(d)
    ensures WellSpelled(d) && StarsOk(d, args) && Operands(d, args) == args
    ensures AskedBy(d, args) == Asked(f == '-', f == '0', f == '+', f == ' ', 0, None) && Spelled(d, "") == [f, d.conv]
  {
  }

  // A width of one digit, behind one flag or none
  lemma WidthOnly(d: Spec, c: char, args: seq<Arg>)
    requires '1' <= c <= '9' && d == Spec("", Literal([c]), false, Absent, "", d.conv) && Spellable(d)
    ensures WellSpelled(d) && StarsOk(d, args) && Operands(d, args) == args
    ensures AskedBy(d, args) == Asked(false, false, false, false, (c - '0') as nat, None)
    ensures Spelled(d, "") == [c, d.conv]
  {
    DigitIsItsValue(c);
    EmptyLeft([c, d.conv]);
  }

  lemma FlagAndWidth(d: Spec, f: char, c: char, args: seq<Arg>)
    requires '1' <= c <= '9' && d == Spec([f], Literal([c]), false, Absent, "", d.conv) && Spellable(d)
    ensures WellSpelled(d) && StarsOk(d, args) && Operands(d, args) == args
    ensures AskedBy(d, args) == Asked(f == '-', f == '0', f == '+', f == ' ', (c - '0') as nat, None)
    ensures Spelled(d, "") == [f, c, d.conv]
  {
    DigitIsItsValue(c);
  }

  // A precision of one digit
  lemma PrecisionOnly(d: Spec, c: char, args: seq<Arg>)
    requires '0' <= c <= '9' && d == Spec("", Absent, true, Literal([c]), "", d.conv) && Spellable(d)
    ensures WellSpelled(d) && StarsOk(d, args) && Operands(d, args) == args
    ensures AskedBy(d, args) == Asked(false, false, false, false, 0, Some((c - '0') as nat))
    ensures Spelled(d, "") == ['.', c, d.conv]
  {
    DigitIsItsValue(c);
  }

  // A width that is an argument
  lemma StarOnly(d: Spec, w: nat, args: seq<Arg>)
    requires w < 0x8000_0000 && d == Spec("", Star, false, Absent, "", d.conv) && Spellable(d)
    ensures WellSpelled(d) && StarsOk(d, [Word(w)] + args) && Operands(d, [Word(w)] + args) == args
    ensures AskedBy(d, [Word(w)] + args) == Asked(false, false, false, false, w, None)
    ensures Spelled(d, "") == ['*', d.conv]
  {
    var all := [Word(w)] + args;
    assert all[0] == Word(w) && all[1..] == args;
  }

  /** "%5d" of 42: a width fills up with spaces on the left. */
  lemma Width()
    ensures Render("%5d", [Word(42)]) == Some("   42")
  {
    var d, a := Spec("", Literal("5"), false, Absent, "", 'd'), Asked(false, false, false, false, 5, None);
    WidthOnly(d, '5', [Word(42)]);
    FortyTwo();
    Reps();
    Shown(d, [Word(42)], a, 42, 42, "42", "", "   42");
    assert "%" + Spelled(d, "") == "%5d";
  }

  /** "%-5d" of 42: and with '-' on the right. */
  lemma LeftAligned()
    ensures Render("%-5d", [Word(42)]) == Some("42   ")
  {
    var d, a := Spec("-", Literal("5"), false, Absent, "", 'd'), Asked(true, false, false, false, 5, None);
    FlagAndWidth(d, '-', '5', [Word(42)]);
    FortyTwo();
    Reps();
    Shown(d, [Word(42)], a, 42, 42, "42", "", "42   ");
    assert "%" + Spelled(d, "") == "%-5d";
  }

  /** "%05d" of -42: with '0' it fills up with zeros behind the sign. */
  lemma ZeroPadded()
    ensures Render("%05d", [Word(0xffff_ffd6)]) == Some("-0042")
  {
    var d, a := Spec("0", Literal("5"), false, Absent, "", 'd'), Asked(false, true, false, false, 5, None);
    FlagAndWidth(d, '0', '5', [Word(0xffff_ffd6)]);
    FortyTwo();
    Reps();
    Shown(d, [Word(0xffff_ffd6)], a, 0xffff_ffd6, -42, "42", "-", "-0042");
    assert "%" + Spelled(d, "") == "%05d";
  }

  /** "%+d" of 7: '+' puts a sign in front of a number that is not negative. */
  lemma PlusSign()
    ensures Render("%+d", [Word(7)]) == Some("+7")
  {
    var d, a := Spec("+", Absent, false, Absent, "", 'd'), Asked(false, false, true, false, 0, None);
    OneFlag(d, '+', [Word(7)]);
    Seven();
    Reps();
    Shown(d, [Word(7)], a, 7, 7, "7", "+", "+7");
    assert "%" + Spelled(d, "") == "%+d";
  }

  /** "% d" of 7: ' ' puts a space there. */
  lemma SpaceSign()
    ensures Render("% d", [Word(7)]) == Some(" 7")
  {
    var d, a := Spec(" ", Absent, false, Absent, "", 'd'), Asked(false, false, false, true, 0, None);
    OneFlag(d, ' ', [Word(7)]);
    Seven();
    Reps();
    Shown(d, [Word(7)], a, 7, 7, "7", " ", " 7");
    assert "%" + Spelled(d, "") == "% d";
  }

  /** "%.3d" of 7: a precision is the least number of digits. */
  lemma Precision()
    ensures Render("%.3d", [Word(7)]) == Some("007")
  {
    var d, a := Spec("", Absent, true, Literal("3"), "", 'd'), Asked(false, false, false, false, 0, Some(3));
    PrecisionOnly(d, '3', [Word(7)]);
    Seven();
    Reps();
    Shown(d, [Word(7)], a, 7, 7, "7", "", "007");
    assert "%" + Spelled(d, "") == "%.3d";
  }

  /** "%*d" of 5 and 42: a star takes the width from the arguments. */
  lemma StarWidth()
    ensures Render("%*d", [Word(5), Word(42)]) == Some("   42")
  {
    var d, a := Spec("", Star, false, Absent, "", 'd'), Asked(false, false, false, false, 5, None);
    StarOnly(d, 5, [Word(42)]);
    assert [Word(5)] + [Word(42)] == [Word(5), Word(42)];
    FortyTwo();
    Reps();
    Shown(d, [Word(5), Word(42)], a, 42, 42, "42", "", "   42");
    assert "%" + Spelled(d, "") == "%*d";
  }

  lemma Plain(c: char, bits: nat, digits: string)
    requires c in {'x', 'X', 'o', 'b'} && 0 < bits < 0x1_0000_0000 && |digits| <= 32
    requires digits == Numeral(bits, BaseFor(c), c == 'X')
    ensures Render("%" + [c], [Word(bits)]) == Some(digits)
  {
    var d, a := Spec("", Absent, false, Absent, "", c), Asked(false, false, false, false, 0, None);
    Alone(d, [Word(bits)]);
    EmptyLeft([c]);
    BareStandard(digits, "", a);
    EmptyLeft(digits);
    Shown(d, [Word(bits)], a, bits, bits, digits, "", digits);
  }

  /** Hexadecimal in either case, octal and binary. */
  lemma Bases()
    ensures Render("%x", [Word(255)]) == Some("ff") && Render("%X", [Word(255)]) == Some("FF")
    ensures Render("%o", [Word(8)]) == Some("10") && Render("%b", [Word(5)]) == Some("101")
  {
    Hexadecimal();
    OctalAndBinary();
    Plain('x', 255, "ff");
    Plain('X', 255, "FF");
    Plain('o', 8, "10");
    Plain('b', 5, "101");
    assert "%x" == "%" + ['x'] && "%X" == "%" + ['X'] && "%o" == "%" + ['o'] && "%b" == "%" + ['b'];
  }

  // The last directive of a format
  lemma Last(d: Spec, args: seq<Arg>, t: string)
    requires Puts(d, "", args, t, [])
    ensures Render("%" + Spelled(d, ""), args) == Some(t)
  {
    RenderDirective(d, "", args, t, []);
    EmptyRight(t);
  }

  /** "%5s" of "ab": a string stands on the right of its field. */
  lemma StringWidth()
    ensures Render("%5s", [Text("ab")]) == Some("   ab")
  {
    var d := Spec("", Literal("5"), false, Absent, "", 's');
    WidthOnly(d, '5', [Text("ab")]);
    StringDirective(d, "", [Text("ab")], "ab");
    Reps();
    Last(d, [Text("ab")], "   ab");
    assert "%" + Spelled(d, "") == "%5s";
  }

  /** "%-5s" of "ab": with '-' on the left. */
  lemma StringLeft()
    ensures Render("%-5s", [Text("ab")]) == Some("ab   ")
  {
    var d := Spec("-", Literal("5"), false, Absent, "", 's');
    FlagAndWidth(d, '-', '5', [Text("ab")]);
    StringDirective(d, "", [Text("ab")], "ab");
    Reps();
    Last(d, [Text("ab")], "ab   ");
    assert "%" + Spelled(d, "") == "%-5s";
  }

  /** "%.2s" of "abc": a precision is the largest number of its characters. */
  lemma StringPrecision()
    ensures Render("%.2s", [Text("abc")]) == Some("ab")
  {
    var d := Spec("", Absent, true, Literal("2"), "", 's');
    PrecisionOnly(d, '2', [Text("abc")]);
    StringDirective(d, "", [Text("abc")], "abc");
    Reps();
    EmptyLeft("ab");
    assert "abc"[..2] == "ab";
    Last(d, [Text("abc")], "ab");
    assert "%" + Spelled(d, "") == "%.2s";
  }

  /** "%c" of 65. */
  lemma Character()
    ensures Render("%c", [Word(65)]) == Some("A")
  {
    var d := Spec("", Absent, false, Absent, "", 'c');
    Alone(d, [Word(65)]);
    CharacterDirective(d, "", [Word(65)], 65);
    Reps();
    EmptyLeft("A");
    Last(d, [Word(65)], "A");
    assert "%" + Spelled(d, "") == "%c";
  }

  /** "%%". */
  lemma PerCent()
    ensures Render("%%", []) == Some("%")
  {
    var d := Spec("", Absent, false, Absent, "", '%');
    Alone(d, []);
    OtherDirective(d, "", []);
    Last(d, [], "%");
    assert "%" + Spelled(d, "") == "%%";
  }
}
