/**
 The radix page tables of vme.c for x86/qemu: the words a table is made of, what the hardware reads from a table
 (Intel SDM volume 3A, sections 4.3 and 4.5), and the tree of table pages that one address space owns.
 */
module PageTable {
  import opened Arithmetic
  import opened Words

  // ---- the two configurations of lines 3-22

  datatype Arch = X86 | X64

  datatype Info = Info(mask: nat, shift: nat, bits: nat)

  function WordBits(a: Arch): nat {
    if a.X86? then 32 else 64
  }

  function Levels(a: Arch): (l: nat)
    ensures l >= 2
  {
    if a.X86? then 2 else 4
  }

  function PtInfo(a: Arch, i: nat): Info
    requires i <= Levels(a)
  {
    if i == 0 then Info(0, 0, 0)
    else if a.X86? then if i == 1 then Info(0xffc0_0000, 22, 10) else Info(0x003f_f000, 12, 10)
    else if i == 1 then Info(0xff80_0000_0000, 39, 9)
    else if i == 2 then Info(0x007f_c000_0000, 30, 9)
    else if i == 3 then Info(0x3fe0_0000, 21, 9)
    else Info(0x001f_f000, 12, 9)
  }

  function Entries(a: Arch): (n: nat)
    ensures n > 0
  {
    if a.X86? then 1024 else 512
  }

  // The bytes of address space below one entry of a level-i table
  function Span(a: Arch, i: nat): (n: nat)
    requires 1 <= i <= Levels(a)
    ensures n > 0
  {
    if a.X86? then if i == 1 then 0x40_0000 else 0x1000
    else if i == 1 then 0x80_0000_0000 else if i == 2 then 0x4000_0000 else if i == 3 then 0x20_0000 else 0x1000
  }

  function IndexOf(a: Arch, addr: nat, i: nat): nat
    requires i <= Levels(a)
  {
    if i == 0 then 0 else addr / Span(a, i) % Entries(a)
  }

  // ---- words

  predicate Present(w: nat) { w % 2 == 1 }

  predicate Writable(w: nat) { w / 2 % 2 == 1 }

  predicate User(w: nat) { w / 4 % 2 == 1 }

  // PTE_PS
  predicate Large(w: nat) { w / 128 % 2 == 1 }

  /** Tables of levels 2 and 3 in 64-bit mode may map 1 GiB and 2 MiB at once; the 32-bit kernel leaves CR4.PSE off. */
  predicate IsLarge(a: Arch, level: nat, w: nat) {
    a.X64? && 2 <= level <= 3 && Large(w)
  }

  function BaseOf(w: nat): nat { w - w % 4096 }

  /** A page address with PTE_P and further flags. */
  function Entry(page: nat, w: bool, u: bool): nat {
    page + 1 + (if w then 2 else 0) + if u then 4 else 0
  }

  lemma EntryFields(page: nat, w: bool, u: bool)
    requires page % 4096 == 0
    ensures var e := Entry(page, w, u);
            Present(e) && (Writable(e) <==> w) && (User(e) <==> u) && !Large(e) && BaseOf(e) == page
  {
    var q, f := page / 4096, 1 + (if w then 2 else 0) + if u then 4 else 0;
    LowDigits(q, f);
    assert page == 4096 * q && Entry(page, w, u) == 4096 * q + f;
  }

  // The digit of e above m of them, when e is f plus a multiple of 2 * m
  lemma DigitStays(e: nat, f: nat, m: nat, k: nat)
    requires m > 0 && e == k * (2 * m) + f
    ensures e / m % 2 == f / m % 2
  {
    var q, r := f / m, f % m;
    assert e == (2 * k + q) * m + r;
    DivModUnique(e, m, 2 * k + q, r);
  }

  lemma LowDigits(q: nat, f: nat)
    requires f < 4096
    ensures var e := 4096 * q + f; e % 2 == f % 2 && e / 2 % 2 == f / 2 % 2 && e / 4 % 2 == f / 4 % 2 && e % 4096 == f
    ensures (4096 * q + f) / 128 % 2 == f / 128 % 2
  {
    var e := 4096 * q + f;
    DivModUnique(e, 4096, q, f);
    DigitStays(e, f, 1, 2048 * q);
    DigitStays(e, f, 2, 1024 * q);
    DigitStays(e, f, 4, 512 * q);
    DigitStays(e, f, 128, 16 * q);
  }

  // ---- these are the bit operations of vme.c

  lemma Pow2Of12()
    ensures Pow2(12) == 4096
  {
    assert Pow2(6) == 64;
    Pow2Adds(6, 6);
  }

  /** PTE_P, PTE_W and PTE_U read off the digits of a word. */
  lemma FlagsAreBits(w: nat)
    ensures And(w, 1) != 0 <==> Present(w)
    ensures And(w, 2) != 0 <==> Writable(w)
    ensures And(w, 4) != 0 <==> User(w)
  {
    AndEven(w, 1);
    AndEven(w, 2);
    AndEven(w / 2, 1);
  }

  /** baseof() clears the lowest 12 digits. */
  lemma BaseIsMask(a: Arch, w: nat)
    requires w < Pow2(WordBits(a))
    ensures 4095 < Pow2(WordBits(a)) && And(w, Not(WordBits(a), 4095)) == BaseOf(w)
  {
    Pow2Of12();
    AndHigh(WordBits(a), 12, w);
    LowIsMod(12, w);
  }

  lemma OrDigits(x: nat, g: nat)
    requires x % 4 == 0 && g < 4
    ensures Or(x, g) == x + g
  {
    assert Pow2(2) == 4;
    LowIsMod(2, x);
    OrDisjoint(2, x, g);
  }

  lemma OrOdd(x: nat, g: nat)
    ensures Or(2 * x + 1, 2 * g) == 2 * Or(x, g) + 1
  {
    var a, b := 2 * x + 1, 2 * g;
    assert a / 2 == x && b / 2 == g && a % 2 == 1;
  }

  lemma OrFlags(h: nat, g: nat)
    requires g < 4
    ensures Or(Or(8 * h, 1), 2 * g) == 8 * h + 1 + 2 * g
  {
    OrDigits(8 * h, 1);
    OrOdd(4 * h, g);
    OrDigits(4 * h, g);
  }

  lemma FlagsAdd(w: bool, u: bool)
    ensures Or(if w then 2 else 0, if u then 4 else 0) == (if w then 2 else 0) + if u then 4 else 0
  {
    assert Or(2, 4) == 6;
  }

  /** page | PTE_P | flags for a page-aligned page. */
  lemma EntryIsOr(page: nat, w: bool, u: bool)
    requires page % 4096 == 0
    ensures Or(Or(page, 1), Or(if w then 2 else 0, if u then 4 else 0)) == Entry(page, w, u)
  {
    FlagsAdd(w, u);
    OrFlags(page / 4096 * 512, (if w then 1 else 0) + if u then 2 else 0);
  }

  lemma ConfigPowers()
    ensures Pow2(9) == 512 && Pow2(10) == 1024 && Pow2(12) == 4096 && Pow2(21) == 0x20_0000 && Pow2(22) == 0x40_0000
    ensures Pow2(30) == 0x4000_0000 && Pow2(39) == 0x80_0000_0000
  {
    Pow2Of12();
    assert Pow2(9) == 512;
    Pow2Adds(12, 9);
    Pow2Adds(12, 10);
    Pow2Adds(21, 9);
    Pow2Adds(30, 9);
  }

  /** indexof() with the masks and shifts of the table is division by the span of one entry. */
  lemma IndexIsMaskAndShift(a: Arch, addr: nat, i: nat)
    requires i <= Levels(a)
    ensures var info := PtInfo(a, i); Shr(And(addr, info.mask), info.shift) == IndexOf(a, addr, i)
    ensures i > 0 ==> Pow2(PtInfo(a, i).bits) == Entries(a) && Pow2(PtInfo(a, i).shift) == Span(a, i)
  {
    ConfigPowers();
    var info := PtInfo(a, i);
    if i > 0 {
      ShlIsTimes(Pow2(info.bits) - 1, info.shift);
      assert info.mask == (Pow2(info.bits) - 1) * Pow2(info.shift);
      AndShifted(info.shift, info.bits, addr);
      ShrIsDiv(addr, info.shift);
      LowIsMod(info.bits, Shr(addr, info.shift));
    }
  }
}
