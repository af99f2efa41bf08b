/** One page of the allocator of pmm.c (64-bit build): its bitmap, its full flag, taking and returning a block. */
module SlabPage {
  import opened Options
  import opened Words

  const PAGE_SZ: nat := 0x11000
  const HDR_SIZE: nat := 0x1000
  const AVAIL_SZ: nat := 0x10000
  const ALL_ONES: nat := 0xffff_ffff_ffff_ffff

  // A size_t of the 64-bit build
  const BITS: nat := 64

  predicate IsClass(size: nat) {
    size in {8, 16, 32, 64, 128, 256, 512, 1024, 2048, 4096}
  }

  // The bitmap words of a class in use
  function NumBitmap(size: nat): (n: nat)
    requires IsClass(size)
    ensures 1 <= n <= 128
  {
    if size == 8 then 128 else if size == 16 then 64 else if size == 32 then 32 else if size == 64 then 16
    else if size == 128 then 8 else if size == 256 then 4 else if size == 512 then 2 else 1
  }

  /** The table above is the macro NUM_BITMAP of pmm.h, and the words hold one bit per block. */
  lemma NumBitmapIsMacro(size: nat)
    requires IsClass(size)
    ensures NumBitmap(size) == (AVAIL_SZ - 1) / (size * 8 * 8) + 1
    ensures NumBitmap(size) * 64 == Blocks(size) + Shift(size)
    ensures Blocks(size) * size == AVAIL_SZ
  {
    assert size == 8 ==> 0xffff / (8 * 64) == 127;
    assert size == 16 ==> 0xffff / (16 * 64) == 63;
    assert size == 32 ==> 0xffff / (32 * 64) == 31;
    assert size == 64 ==> 0xffff / (64 * 64) == 15;
  }

  // The offset of the encodings for 2048 and 4096: their low bits are never set
  function Shift(size: nat): nat {
    if size == 4096 then 48 else if size == 2048 then 32 else 0
  }

  function Blocks(size: nat): nat
    requires IsClass(size)
  {
    64 * NumBitmap(size) - Shift(size)
  }

  datatype Page = Page(size: nat, full: bool, words: seq<nat>)

  function InitialWord(size: nat): nat {
    if size == 2048 then 0xffff_ffff_0000_0000 else if size == 4096 then 0xffff_0000_0000_0000 else ALL_ONES
  }

  /** init_page */
  function InitPage(size: nat): Page
    requires IsClass(size)
  {
    Page(size, false, seq(NumBitmap(size), _ => InitialWord(size)))
  }

  // ---- reading the bitmap

  predicate WellFormed(p: Page) {
    && IsClass(p.size) && |p.words| == NumBitmap(p.size)
    && (forall i {:trigger p.words[i]} :: 0 <= i < |p.words| ==> p.words[i] < Pow2(BITS))
  }

  // Where the bit of block b is
  function WordOf(size: nat, b: nat): (i: nat)
    requires IsClass(size) && b < Blocks(size)
    ensures i < NumBitmap(size)
  {
    (b + Shift(size)) / 64
  }

  function BitOf(size: nat, b: nat): (k: nat)
    requires IsClass(size) && b < Blocks(size)
    ensures k < 64 && 64 * WordOf(size, b) + k == b + Shift(size)
  {
    (b + Shift(size)) % 64
  }

  // Block b is free when its bit is set
  predicate IsFree(p: Page, b: nat)
    requires WellFormed(p) && b < Blocks(p.size)
  {
    Bit(p.words[WordOf(p.size, b)], BitOf(p.size, b))
  }

  // The bits that the encodings for 2048 and 4096 leave out
  ghost predicate LowBitsClear(p: Page)
    requires WellFormed(p)
  {
    forall k :: 0 <= k < Shift(p.size) ==> !Bit(p.words[0], k)
  }

  /** What every page satisfies: the low bits an encoding reserves are clear, and a page marked full hides at
      most one free block, the last one. */
  ghost predicate Valid(p: Page) {
    && WellFormed(p)
    && LowBitsClear(p)
    && (p.full ==> forall b :: 0 <= b < Blocks(p.size) && IsFree(p, b) ==> b == Blocks(p.size) - 1)
  }

  // ---- taking a block

  // The scan of lines 64-66
  function FirstWord(words: seq<nat>, from: nat): (r: nat)
    requires from <= |words|
    ensures from <= r <= |words| && (r < |words| ==> words[r] != 0) && forall i :: from <= i < r ==> words[i] == 0
    decreases |words| - from
  {
    if from == |words| || words[from] != 0 then from else FirstWord(words, from + 1)
  }

  // loc(): the position that ctz gives, less the encoding's offset
  function Loc(w: nat, size: nat): int
    requires w > 0
  {
    Ctz(w) - Shift(size)
  }

  function ClearLowest(w: nat): nat
    requires w < Pow2(BITS)
  {
    AndBelow(w, Negate(BITS, w));
    And(w, Not(BITS, Mask(BITS, w)))
  }

  /** Lines 64-125: the page afterwards, and the word and loc() that line 68 turns into an address.  emptyTest is
      what the comparison of line 78, 86 or 94 yields on a word that has become zero, where ctz is undefined. */
  function Take(p: Page, emptyTest: bool): (Page, Option<(nat, int)>)
    requires WellFormed(p)
  {
    var i := FirstWord(p.words, 0);
    if i == |p.words| then (p, None) else (TakeFrom(p, i, emptyTest), Some((i, Loc(p.words[i], p.size))))
  }

  // Lines 70-125: clear the bit, and mark the page full when only the top bit of the last word is left
  function TakeFrom(p: Page, i: nat, emptyTest: bool): Page
    requires WellFormed(p) && i < |p.words| && p.words[i] > 0
  {
    var rest := ClearLowest(p.words[i]);
    var last := i == NumBitmap(p.size) - 1 && if rest == 0 then emptyTest else Loc(rest, p.size) == 63 - Shift(p.size);
    p.(words := p.words[i := rest], full := p.full || last)
  }

  lemma LocInRange(p: Page, i: nat)
    requires WellFormed(p) && LowBitsClear(p)
    requires i < |p.words| && p.words[i] > 0
    ensures Loc(p.words[i], p.size) >= 0 && Ctz(p.words[i]) < 64
  {
    CtzBelow(BITS, p.words[i]);
  }

  // The block a scan finds: word i, lowest set bit
  ghost function Chosen(p: Page, i: nat): nat
    requires WellFormed(p) && LowBitsClear(p)
    requires i < |p.words| && p.words[i] > 0
  {
    LocInRange(p, i);
    64 * i + Ctz(p.words[i]) - Shift(p.size)
  }

  lemma ClearedBits(w: nat, k: nat)
    requires 0 < w < Pow2(BITS) && k < 64
    ensures ClearLowest(w) < Pow2(BITS)
    ensures Bit(ClearLowest(w), k) <==> Bit(w, k) && k != Ctz(w)
  {
    MaskIsLowest(BITS, w);
    CtzBelow(BITS, w);
    AndBelow(w, Negate(BITS, w));
    AndBelow(w, Not(BITS, Mask(BITS, w)));
    AndBit(w, Not(BITS, Mask(BITS, w)), k);
    NotBit(64, Mask(BITS, w), k);
    Pow2Bit(Ctz(w), k);
  }

  lemma ChosenIsFree(p: Page, i: nat)
    requires WellFormed(p) && LowBitsClear(p)
    requires i < |p.words| && p.words[i] > 0
    ensures Chosen(p, i) < Blocks(p.size) && IsFree(p, Chosen(p, i))
  {
    LocInRange(p, i);
    assert WordOf(p.size, Chosen(p, i)) == i && BitOf(p.size, Chosen(p, i)) == Ctz(p.words[i]);
  }

  /** Clearing the lowest bit of word i makes exactly the chosen block unavailable. */
  lemma TakenBlock(p: Page, i: nat, p': Page, b: nat)
    requires WellFormed(p) && WellFormed(p') && p'.size == p.size
    requires LowBitsClear(p)
    requires i < |p.words| && p.words[i] > 0 && b < Blocks(p.size)
    requires p'.words == p.words[i := ClearLowest(p.words[i])]
    ensures IsFree(p', b) <==> IsFree(p, b) && b != Chosen(p, i)
  {
    LocInRange(p, i);
    ClearedBits(p.words[i], BitOf(p.size, b));
    assert b == Chosen(p, i) <==> WordOf(p.size, b) == i && BitOf(p.size, b) == Ctz(p.words[i]);
  }

  lemma NothingFree(p: Page, b: nat)
    requires WellFormed(p) && b < Blocks(p.size) && FirstWord(p.words, 0) == |p.words|
    ensures !IsFree(p, b)
  {
    ZeroBit(BitOf(p.size, b));
  }

  /** Taking a block hands out one that was free, at the offset of its index, and changes nothing else; a page
      answers no exactly when it has none.  The invariant of the full flag survives, whatever ctz(0) gives. */
  lemma TakeCorrect(p: Page, emptyTest: bool)
    requires Valid(p) && !p.full
    ensures var (p', got) := Take(p, emptyTest);
            && Valid(p') && p'.size == p.size
            && (got.None? ==> p' == p && forall b :: 0 <= b < Blocks(p.size) ==> !IsFree(p, b))
            && (got.Some? ==> HandsOut(p, p', got.value, 64 * got.value.0 + got.value.1))
  {
    var i := FirstWord(p.words, 0);
    var (p', got) := Take(p, emptyTest);
    if i == |p.words| {
      forall b | 0 <= b < Blocks(p.size) ensures !IsFree(p, b) { NothingFree(p, b); }
    } else {
      TakeHandsOut(p, emptyTest, i);
      TakeValid(p, emptyTest, i);
    }
  }

  ghost predicate HandsOut(p: Page, p': Page, at: (nat, int), b: int)
    requires WellFormed(p) && WellFormed(p') && p'.size == p.size
  {
    && 0 <= b < Blocks(p.size) && b == 64 * at.0 + at.1 && IsFree(p, b)
    && forall o :: 0 <= o < Blocks(p.size) ==> (IsFree(p', o) <==> IsFree(p, o) && o != b)
  }

  lemma TakeFromShape(p: Page, i: nat, emptyTest: bool)
    requires WellFormed(p) && i < |p.words| && p.words[i] > 0
    ensures var p' := TakeFrom(p, i, emptyTest);
            WellFormed(p') && p'.size == p.size && p'.words == p.words[i := ClearLowest(p.words[i])]
  {
    ClearedBits(p.words[i], 0);
  }

  lemma TakeShape(p: Page, emptyTest: bool, i: nat)
    requires WellFormed(p) && LowBitsClear(p) && i == FirstWord(p.words, 0) < |p.words|
    ensures Take(p, emptyTest) == (TakeFrom(p, i, emptyTest), Some((i, Chosen(p, i) - 64 * i)))
  {
  }

  lemma TakeHandsOut(p: Page, emptyTest: bool, i: nat)
    requires Valid(p) && !p.full && i == FirstWord(p.words, 0) < |p.words|
    ensures var (p', got) := Take(p, emptyTest);
            WellFormed(p') && p'.size == p.size && got.Some? && HandsOut(p, p', got.value, Chosen(p, i))
  {
    TakeShape(p, emptyTest, i);
    TakeFromShape(p, i, emptyTest);
    ChosenIsFree(p, i);
    var p' := Take(p, emptyTest).0;
    forall o | 0 <= o < Blocks(p.size) ensures IsFree(p', o) <==> IsFree(p, o) && o != Chosen(p, i) {
      TakenBlock(p, i, p', o);
    }
  }

  /** The block handed out is the lowest free one. */
  lemma TakeLowest(p: Page, emptyTest: bool, b: nat)
    requires Valid(p) && !p.full && b < Blocks(p.size) && IsFree(p, b) && forall o :: 0 <= o < b ==> !IsFree(p, o)
    ensures var got := Take(p, emptyTest).1; got.Some? && 64 * got.value.0 + got.value.1 == b
  {
    var i, w, k := FirstWord(p.words, 0), WordOf(p.size, b), BitOf(p.size, b);
    ScanReaches(p, b);
    TakeShape(p, emptyTest, i);
    ChosenIsFree(p, i);
    LocInRange(p, i);
    if w == i { LowestBit(p.words[i], k); }
    assert Chosen(p, i) <= b;
  }

  lemma LowestBit(w: nat, k: nat)
    requires w > 0 && Bit(w, k)
    ensures Ctz(w) <= k
  {
  }

  // A free block is in a word that is not zero, so the scan stops there or before
  lemma ScanReaches(p: Page, b: nat)
    requires WellFormed(p) && b < Blocks(p.size) && IsFree(p, b)
    ensures FirstWord(p.words, 0) <= WordOf(p.size, b)
  {
    ZeroBit(BitOf(p.size, b));
  }

  lemma TakeKeepsLow(p: Page, emptyTest: bool, i: nat)
    requires WellFormed(p) && LowBitsClear(p) && i == FirstWord(p.words, 0) < |p.words|
    requires WellFormed(Take(p, emptyTest).0)
    ensures LowBitsClear(Take(p, emptyTest).0)
  {
    forall k | 0 <= k < Shift(p.size) ensures !Bit(Take(p, emptyTest).0.words[0], k) {
      if i == 0 { ClearedBits(p.words[0], k); }
    }
  }

  lemma TakeValid(p: Page, emptyTest: bool, i: nat)
    requires Valid(p) && !p.full && i == FirstWord(p.words, 0) < |p.words|
    requires WellFormed(Take(p, emptyTest).0) && Take(p, emptyTest).0.size == p.size
    ensures Valid(Take(p, emptyTest).0)
  {
    var p' := Take(p, emptyTest).0;
    TakeKeepsLow(p, emptyTest, i);
    if p'.full {
      forall b | 0 <= b < Blocks(p.size) && IsFree(p', b) ensures b == Blocks(p.size) - 1 {
        FullLeavesTop(p, emptyTest, i, b);
      }
    }
  }

  // When the flag is set the words before the last are zero and the last has at most its top bit
  lemma FullLeavesTop(p: Page, emptyTest: bool, i: nat, b: nat)
    requires Valid(p) && !p.full && i == FirstWord(p.words, 0) < |p.words|
    requires WellFormed(Take(p, emptyTest).0) && Take(p, emptyTest).0.full
    requires b < Blocks(p.size) && IsFree(Take(p, emptyTest).0, b)
    ensures b == Blocks(p.size) - 1
  {
    var rest := ClearLowest(p.words[i]);
    var w, k := WordOf(p.size, b), BitOf(p.size, b);
    if w < i || rest == 0 { ZeroBit(k); }
    assert w == i && Bit(rest, k);
  }

  // ---- when the flag hides a block

  function Top(size: nat): (b: nat)
    requires IsClass(size)
    ensures b < Blocks(size) && WordOf(size, b) == NumBitmap(size) - 1 && BitOf(size, b) == 63
  {
    Blocks(size) - 1
  }

  /** The page is marked full and its last block is free. */
  predicate Hides(p: Page)
    requires WellFormed(p)
  {
    p.full && IsFree(p, Top(p.size))
  }

  /** The free blocks of the page are its last one and b, which has its bit in the same word. */
  ghost predicate LeavesTop(p: Page, b: nat)
    requires WellFormed(p)
  {
    && b < Top(p.size) && WordOf(p.size, b) == NumBitmap(p.size) - 1
    && forall o :: 0 <= o < Blocks(p.size) ==> (IsFree(p, o) <==> o == b || o == Top(p.size))
  }

  // The word that is left when only two of its bits were set
  lemma TopWordLeft(w: nat, k: nat)
    requires 0 < w < Pow2(BITS) && k < 63 && Ctz(w) == k && Bit(w, 63)
    requires forall j :: 0 <= j < 64 ==> (Bit(w, j) ==> j == k || j == 63)
    ensures ClearLowest(w) > 0 && Ctz(ClearLowest(w)) == 63
  {
    var rest := ClearLowest(w);
    ClearedBits(w, 63);
    if rest == 0 { ZeroBit(63); }
    CtzBelow(BITS, rest);
    ClearedBits(w, Ctz(rest));
  }

  // The bits of the last word are those of its blocks
  lemma LastWordBits(p: Page, b: nat, j: nat)
    requires WellFormed(p) && LowBitsClear(p) && LeavesTop(p, b) && j < 64 && Bit(p.words[NumBitmap(p.size) - 1], j)
    ensures j == BitOf(p.size, b) || j == 63
  {
    var i := NumBitmap(p.size) - 1;
    if i > 0 || j >= Shift(p.size) {
      var o := 64 * i + j - Shift(p.size);
      assert WordOf(p.size, o) == i && BitOf(p.size, o) == j;
      assert IsFree(p, o);
    }
  }

  lemma TakeHidesOnly(p: Page, emptyTest: bool)
    requires Valid(p) && !p.full && WellFormed(Take(p, emptyTest).0) && Hides(Take(p, emptyTest).0)
    ensures FirstWord(p.words, 0) < |p.words| && LeavesTop(p, Chosen(p, FirstWord(p.words, 0)))
  {
    var i := FirstWord(p.words, 0);
    TakeHandsOut(p, emptyTest, i);
    ChosenIsFree(p, i);
    LocInRange(p, i);
    forall o | 0 <= o < Blocks(p.size) && IsFree(p, o) ensures o == Chosen(p, i) || o == Top(p.size) {
      if o != Chosen(p, i) { FullLeavesTop(p, emptyTest, i, o); }
    }
  }

  // The scan stops at the last word, and finds b
  lemma StopsAtLast(p: Page, b: nat)
    requires Valid(p) && !p.full && LeavesTop(p, b)
    ensures var i := FirstWord(p.words, 0);
            i == NumBitmap(p.size) - 1 && p.words[i] > 0 && Chosen(p, i) == b && Ctz(p.words[i]) == BitOf(p.size, b)
  {
    var i := FirstWord(p.words, 0);
    TakeLowest(p, false, b);
    ScanReaches(p, b);
    TakeShape(p, false, i);
    ChosenIsFree(p, i);
    LocInRange(p, i);
  }

  lemma LastTakeFills(p: Page, emptyTest: bool, b: nat)
    requires Valid(p) && LeavesTop(p, b)
    requires var i := NumBitmap(p.size) - 1; p.words[i] > 0 && Ctz(p.words[i]) == BitOf(p.size, b)
    ensures TakeFrom(p, NumBitmap(p.size) - 1, emptyTest).full
  {
    var w := p.words[NumBitmap(p.size) - 1];
    forall j | 0 <= j < 64 && Bit(w, j) ensures j == BitOf(p.size, b) || j == 63 { LastWordBits(p, b, j); }
    assert IsFree(p, Top(p.size));
    TopWordLeft(w, BitOf(p.size, b));
  }

  lemma TakeHidesThen(p: Page, emptyTest: bool, b: nat)
    requires Valid(p) && !p.full && LeavesTop(p, b)
    ensures WellFormed(Take(p, emptyTest).0) && Hides(Take(p, emptyTest).0)
  {
    var i := FirstWord(p.words, 0);
    StopsAtLast(p, b);
    LastTakeFills(p, emptyTest, b);
    TakeShape(p, emptyTest, i);
    TakeHandsOut(p, emptyTest, i);
  }

  /** Taking a block hides the last one exactly when these two were the only free ones, in one word. */
  lemma TakeHidesIff(p: Page, emptyTest: bool)
    requires Valid(p) && !p.full
    ensures WellFormed(Take(p, emptyTest).0)
    ensures Hides(Take(p, emptyTest).0) <==> exists b :: LeavesTop(p, b)
  {
    TakeCorrect(p, emptyTest);
    if Hides(Take(p, emptyTest).0) { TakeHidesOnly(p, emptyTest); }
    if b :| LeavesTop(p, b) { TakeHidesThen(p, emptyTest, b); }
  }

  // ---- returning a block

  /** kfree_unsafe under the page lock, for the num_bits of line 153: where the bit goes depends on the class. */
  function Give(p: Page, bits: nat): Page
    requires WellFormed(p) && bits < Blocks(p.size)
  {
    var np, nb := bits / 64, bits % 64;
    var word := if p.size == 4096 || p.size == 2048 || p.size == 1024 then 0 else np;
    var shift := if p.size == 4096 then 48 else if p.size == 2048 then 32 else 0;
    p.(full := false, words := p.words[word := Or(p.words[word], Pow2(nb + shift))])
  }

  lemma GiveIndex(size: nat, b: nat)
    requires IsClass(size) && b < Blocks(size)
    ensures (if size == 4096 || size == 2048 || size == 1024 then 0 else b / 64) == WordOf(size, b)
    ensures b % 64 + Shift(size) == BitOf(size, b)
  {
  }

  // Bit k of word i set
  function WithBit(p: Page, i: nat, k: nat): Page
    requires i < |p.words|
  {
    p.(words := p.words[i := Or(p.words[i], Pow2(k))])
  }

  lemma WithBitFits(p: Page, i: nat, k: nat)
    requires WellFormed(p) && i < |p.words| && k < BITS
    ensures Or(p.words[i], Pow2(k)) < Pow2(BITS) && WellFormed(WithBit(p, i, k))
  {
    Pow2Below(k);
    OrBelow(BITS, p.words[i], Pow2(k));
  }

  lemma GiveSets(p: Page, b: nat)
    requires WellFormed(p) && b < Blocks(p.size)
    ensures Give(p, b) == WithBit(p, WordOf(p.size, b), BitOf(p.size, b)).(full := false)
    ensures WellFormed(Give(p, b))
  {
    GiveIndex(p.size, b);
    WithBitFits(p, WordOf(p.size, b), BitOf(p.size, b));
  }

  /** Returning block b sets the bit that taking it cleared, through the same encoding, and clears the full flag. */
  lemma GiveCorrect(p: Page, b: nat)
    requires Valid(p) && b < Blocks(p.size)
    ensures var p' := Give(p, b);
            && Valid(p') && p'.size == p.size && !p'.full
            && forall o :: 0 <= o < Blocks(p.size) ==> (IsFree(p', o) <==> IsFree(p, o) || o == b)
  {
    GiveSets(p, b);
    var i, k, p' := WordOf(p.size, b), BitOf(p.size, b), Give(p, b);
    forall o | 0 <= o < Blocks(p.size) ensures IsFree(p', o) <==> IsFree(p, o) || o == b {
      OrBit(p.words[i], Pow2(k), BitOf(p.size, o));
      Pow2Bit(k, BitOf(p.size, o));
    }
    forall l | 0 <= l < Shift(p.size) ensures !Bit(p'.words[0], l) {
      OrBit(p.words[i], Pow2(k), l);
      Pow2Bit(k, l);
    }
  }

  lemma RestoredWord(w: nat)
    requires 0 < w < Pow2(BITS)
    ensures Ctz(w) < 64 && ClearLowest(w) < Pow2(BITS) && Or(ClearLowest(w), Pow2(Ctz(w))) == w
  {
    CtzBelow(BITS, w);
    ClearedBits(w, 0);
    var back := Or(ClearLowest(w), Pow2(Ctz(w)));
    forall k | 0 <= k < 64 ensures Bit(back, k) <==> Bit(w, k) {
      ClearedBits(w, k);
      OrBit(ClearLowest(w), Pow2(Ctz(w)), k);
      Pow2Bit(Ctz(w), k);
    }
    Pow2Below(Ctz(w));
    OrBelow(BITS, ClearLowest(w), Pow2(Ctz(w)));
    SameBits(BITS, back, w);
  }

  /** Taking a block and returning it leaves every word of the page as it was. */
  lemma GiveUndoesTake(p: Page, emptyTest: bool, p': Page, at: (nat, int))
    requires Valid(p) && !p.full && Take(p, emptyTest) == (p', Some(at))
    ensures WellFormed(p') && p'.size == p.size && 0 <= 64 * at.0 + at.1 < Blocks(p.size)
    ensures Give(p', 64 * at.0 + at.1) == p
  {
    var i := FirstWord(p.words, 0);
    TakeShape(p, emptyTest, i);
    GiveUndoesTakeFrom(p, i, emptyTest, p', Chosen(p, i));
  }

  lemma GiveUndoesTakeFrom(p: Page, i: nat, emptyTest: bool, p': Page, b: nat)
    requires WellFormed(p) && LowBitsClear(p) && !p.full && i < |p.words| && p.words[i] > 0
    requires p' == TakeFrom(p, i, emptyTest) && b == Chosen(p, i)
    ensures WellFormed(p') && p'.size == p.size && b < Blocks(p.size) && Give(p', b) == p
  {
    TakeFromShape(p, i, emptyTest);
    ChosenIsFree(p, i);
    GiveBack(p, p', i);
  }

  lemma GiveBack(p: Page, p': Page, i: nat)
    requires WellFormed(p) && WellFormed(p') && !p.full && p'.size == p.size
    requires LowBitsClear(p)
    requires i < |p.words| && p.words[i] > 0 && Chosen(p, i) < Blocks(p.size)
    requires p'.words == p.words[i := ClearLowest(p.words[i])]
    ensures Give(p', Chosen(p, i)) == p
  {
    LocInRange(p, i);
    assert WordOf(p.size, Chosen(p, i)) == i && BitOf(p.size, Chosen(p, i)) == Ctz(p.words[i]);
    RestoredWord(p.words[i]);
    GiveSets(p', Chosen(p, i));
    assert p'.words[i := p.words[i]] == p.words;
  }

  lemma Pow2Below(k: nat)
    requires k < 64
    ensures Pow2(k) < Pow2(BITS)
  {
    Pow2Monotone(k, 63);
  }

  // ---- a fresh page

  lemma {:induction false} ScaledBit(x: nat, s: nat, k: nat)
    ensures Bit(x * Pow2(s), k) <==> k >= s && Bit(x, k - s)
  {
    if s > 0 {
      assert x * Pow2(s) == 2 * (x * Pow2(s - 1));
      if k > 0 { ScaledBit(x, s - 1, k - 1); }
    }
  }

  lemma PowersOfTwo()
    ensures Pow2(16) == 0x1_0000 && Pow2(32) == 0x1_0000_0000 && Pow2(48) == 0x1_0000_0000_0000
    ensures Pow2(BITS) == ALL_ONES + 1
  {
    assert Pow2(4) == 16;
    Pow2Adds(4, 4);
    Pow2Adds(8, 8);
    Pow2Adds(16, 16);
    Pow2Adds(16, 32);
    Pow2Adds(32, 32);
  }

  lemma InitialIsScaled(size: nat, s: nat)
    requires IsClass(size) && s == Shift(size)
    ensures InitialWord(size) == (Pow2(BITS - s) - 1) * Pow2(s) && InitialWord(size) < Pow2(BITS)
  {
    PowersOfTwo();
  }

  lemma OnesBits(n: nat, k: nat)
    requires k < n
    ensures Bit(Pow2(n) - 1, k)
  {
    NotBit(n, 0, k);
    ZeroBit(k);
  }

  lemma ScaledOnes(s: nat, k: nat, x: nat)
    requires s < BITS && k < BITS && x == Pow2(BITS - s) - 1
    ensures Bit(x * Pow2(s), k) <==> k >= s
  {
    ScaledBit(x, s, k);
    if k >= s { OnesBits(BITS - s, k - s); }
  }

  lemma InitialBits(size: nat, k: nat)
    requires IsClass(size) && k < BITS
    ensures InitialWord(size) < Pow2(BITS)
    ensures Bit(InitialWord(size), k) <==> k >= Shift(size)
  {
    InitialIsScaled(size, Shift(size));
    ScaledOnes(Shift(size), k, Pow2(BITS - Shift(size)) - 1);
  }

  lemma InitPageFits(size: nat)
    requires IsClass(size)
    ensures WellFormed(InitPage(size)) && LowBitsClear(InitPage(size))
  {
    InitialBits(size, 0);
    forall k | 0 <= k < Shift(size) ensures !Bit(InitPage(size).words[0], k) { InitialBits(size, k); }
  }

  lemma InitPageFree(size: nat, b: nat)
    requires IsClass(size) && b < Blocks(size) && WellFormed(InitPage(size))
    ensures IsFree(InitPage(size), b)
  {
    InitialBits(size, BitOf(size, b));
  }

  /** init_page makes a valid page with every block free. */
  lemma InitPageAllFree(size: nat)
    requires IsClass(size)
    ensures Valid(InitPage(size)) && InitPage(size).size == size
    ensures forall b :: 0 <= b < Blocks(size) ==> IsFree(InitPage(size), b)
  {
    InitPageFits(size);
    forall b | 0 <= b < Blocks(size) ensures IsFree(InitPage(size), b) { InitPageFree(size, b); }
  }

  // One look of the scan
  lemma ScanStep(p: Page, i: nat, w: nat)
    requires WellFormed(p) && i < |p.words| && w == p.words[i]
    ensures w < Pow2(BITS) && (Mask(BITS, w) == 0 <==> w == 0)
    ensures FirstWord(p.words, i) == if w == 0 then FirstWord(p.words, i + 1) else i
  {
    MaskIsLowest(BITS, w);
  }

  // ---- the page in memory

  class SlabPage {
    const size: nat
    var full: bool
    const bitmap: array<nat>

    ghost predicate InUse()
      reads this, bitmap
    {
      bitmap.Length == 128 && IsClass(size) && WellFormed(State())
    }

    ghost function State(): Page
      requires bitmap.Length == 128 && IsClass(size)
      reads this, bitmap
    {
      Page(size, full, bitmap[..NumBitmap(size)])
    }

    /** init_page */
    constructor (size: nat)
      requires IsClass(size)
      ensures InUse() && State() == InitPage(size) && fresh(bitmap)
    {
      this.size := size;
      full := false;
      bitmap := new nat[128];
      new;
      InitPageAllFree(size);
      ghost var w := InitialWord(size);
      var i := 0;
      while i < NumBitmap(size)
        invariant 0 <= i <= NumBitmap(size)
        invariant !full && forall j :: 0 <= j < i ==> bitmap[j] == w
      {
        bitmap[i] := InitialWord(size);
        i := i + 1;
      }
      assert bitmap[..NumBitmap(size)] == InitPage(size).words;
    }

    // An assignment to one word of the bitmap, seen in the state
    method SetWord(i: nat, w: nat)
      requires InUse() && i < NumBitmap(size) && w < Pow2(BITS)
      modifies bitmap
      ensures InUse() && State() == old(State()).(words := old(State()).words[i := w])
    {
      ghost var was := State().words;
      bitmap[i] := w;
      assert bitmap[..NumBitmap(size)] == was[i := w];
    }

    // Lines 70-125: the scan stopped at word i
    method ClearBit(i: nat, emptyTest: bool)
      requires InUse() && i < NumBitmap(size) && bitmap[i] != 0
      modifies this`full, bitmap
      ensures InUse() && State() == TakeFrom(old(State()), i, emptyTest)
    {
      assert bitmap[i] == State().words[i];
      ClearedBits(bitmap[i], 0);
      SetWord(i, ClearLowest(bitmap[i]));
      assert bitmap[i] == State().words[i];
      if i == NumBitmap(size) - 1 {
        var last := if bitmap[i] == 0 then emptyTest else Loc(bitmap[i], size) == 63 - Shift(size);
        if last { full := true; }
      }
    }

    /** Lines 64-125, under the page lock. */
    method TakeBlock(emptyTest: bool) returns (got: Option<(nat, int)>)
      requires InUse() && Valid(State())
      modifies this`full, bitmap
      ensures InUse() && (State(), got) == Take(old(State()), emptyTest)
    {
      ghost var was := State();
      var i := 0;
      while i < NumBitmap(size)
        invariant 0 <= i <= NumBitmap(size) && State() == was && full == was.full
        invariant FirstWord(was.words, 0) == FirstWord(was.words, i)
      {
        ScanStep(was, i, bitmap[i]);
        if Mask(BITS, bitmap[i]) != 0 {
          got := Some((i, Loc(bitmap[i], size)));
          ClearBit(i, emptyTest);
          return;
        }
        i := i + 1;
      }
      got := None;
    }

    /** Lines 156-216, under the page lock. */
    method GiveBlock(bits: nat)
      requires InUse() && bits < Blocks(size)
      modifies this`full, bitmap
      ensures InUse() && State() == Give(old(State()), bits)
    {
      GiveSets(State(), bits);
      full := false;
      SetBlock(bits);
    }

    // The switch of lines 156-216, behind is_full=0
    method SetBlock(bits: nat)
      requires InUse() && bits < Blocks(size)
      modifies bitmap
      ensures InUse() && State() == WithBit(old(State()), WordOf(size, bits), BitOf(size, bits))
    {
      var np, nb := bits / 64, bits % 64;
      GiveIndex(size, bits);
      ghost var after := WithBit(State(), WordOf(size, bits), BitOf(size, bits));
      if size == 4096 { SetBit(0, nb + 48, after); }
      else if size == 2048 { SetBit(0, nb + 32, after); }
      else if size == 1024 { SetBit(0, nb, after); }
      else { SetBit(np, nb, after); }
    }

    // bitmap[i] |= 1UL << k
    method SetBit(i: nat, k: nat, ghost after: Page)
      requires InUse() && i < NumBitmap(size) && k < BITS && after == WithBit(State(), i, k)
      modifies bitmap
      ensures InUse() && State() == after
    {
      WithBitFits(State(), i, k);
      assert State().words[i] == bitmap[i];
      SetWord(i, Or(bitmap[i], Pow2(k)));
    }
  }
}
