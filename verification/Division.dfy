/** 64-bit division from 32-bit halves: int64.c. */
module Division {
  import opened Arithmetic
  import opened Words

  const W: nat := 0x1_0000_0000
  const WW: nat := 0x1_0000_0000_0000_0000
  const HALF: nat := 0x8000_0000_0000_0000

  /** udwords: a 64-bit word and its halves. */
  datatype Halves = Halves(high: nat, low: nat)

  predicate Ok(h: Halves) {
    h.high < W && h.low < W
  }

  function All(h: Halves): nat {
    h.high * W + h.low
  }

  function Split(x: nat): (h: Halves)
    requires x < WW
    ensures Ok(h) && All(h) == x
  {
    Halves(x / W, x % W)
  }

  lemma PowersOfWords()
    ensures Pow2(31) == 0x8000_0000 && Pow2(32) == W && Pow2(63) == HALF && Pow2(64) == WW
  {
    assert Pow2(8) == 256;
    Pow2Adds(8, 8);
    Pow2Adds(16, 16);
    Pow2Adds(32, 32);
    assert Pow2(32) == 2 * Pow2(31) && Pow2(64) == 2 * Pow2(63);
  }

  // su_int shifts; the count is below the width
  function Left(x: nat, k: nat): nat {
    Shl(x, k) % W
  }

  function Right(x: nat, k: nat): nat {
    Shr(x, k)
  }

  // ---- the loop of lines 251-268

  // Lines 254-257 for one pair of halves
  function ShiftIn(h: Halves, b: nat): Halves {
    Halves(Or(h.high * 2 % W, h.low / 0x8000_0000), Or(h.low * 2 % W, b))
  }

  lemma OrBitZero(x: nat, b: nat)
    requires x % 2 == 0 && b < 2
    ensures Or(x, b) == x + b
  {
  }

  lemma Doubled(x: nat)
    requires x < W
    ensures x * 2 % W == x * 2 - x / 0x8000_0000 * W && x * 2 % W % 2 == 0 && x / 0x8000_0000 < 2
  {
    DivModUnique(x * 2, W, x / 0x8000_0000, x * 2 - x / 0x8000_0000 * W);
  }

  lemma ShiftInDoubles(h: Halves, b: nat)
    requires Ok(h) && b < 2
    ensures Ok(ShiftIn(h, b)) && All(ShiftIn(h, b)) == (2 * All(h) + b) % WW
  {
    Doubled(h.low);
    Doubled(h.high);
    OrBitZero(h.low * 2 % W, b);
    OrBitZero(h.high * 2 % W, h.low / 0x8000_0000);
    DivModUnique(2 * All(h) + b, WW, h.high / 0x8000_0000, All(ShiftIn(h, b)));
  }

  // n is m digits above b above e
  lemma DigitSplit(n: nat, p: nat, m: nat, b: nat, e: nat)
    requires p > 0 && n == (2 * m + b) * p + e && b < 2 && e < p
    ensures n / (2 * p) == m && n % (2 * p) == b * p + e
  {
    assert (2 * m + b) * p == m * (2 * p) + b * p;
    Product(b, 1, p);
    DivModUnique(n, 2 * p, m, b * p + e);
  }

  lemma DigitWord(p: nat, t: nat, b: nat, e: nat, l: nat, q: nat)
    requires p > 0 && t > 0 && p * t == HALF && l < t && b < 2 && e < p && q == (b * p + e) * t + l
    ensures q < WW && q / HALF == b && 2 * q % WW == e * (2 * t) + 2 * l
  {
    assert (b * p + e) * t == b * (p * t) + e * t;
    Product(e, p - 1, t);
    assert (p - 1) * t == HALF - t;
    assert 2 * (e * t) == e * (2 * t);
    WordDigits(b, e * t + l, q);
  }

  lemma WordDigits(b: nat, rest: nat, q: nat)
    requires b < 2 && rest < HALF && q == b * HALF + rest
    ensures q < WW && q / HALF == b && 2 * q % WW == 2 * rest
  {
    DivModUnique(q, HALF, b, rest);
    DivModUnique(2 * q, WW, b, 2 * rest);
  }

  /** What the next digit of n does to quotient and remainder words with k + 1 digits to go; p is 2^k. */
  lemma NextDigit(n: nat, p: nat, t: nat, l: nat, q: nat) returns (b: nat)
    requires p > 0 && t > 0 && p * t == HALF && l < t && q == n % (2 * p) * t + l
    ensures b < 2 && q < WW && q / HALF == b && 2 * q % WW == n % p * (2 * t) + 2 * l
    ensures n / p == 2 * (n / (2 * p)) + b
  {
    var m, e := n / p, n % p;
    b := m % 2;
    DigitSplit(n, p, m / 2, b, e);
    DigitWord(p, t, b, e, l, q);
  }

  // The quotient word with k digits of n to go: they are on top, the quotient l so far is at the bottom
  predicate QuotientWord(n: nat, k: nat, l: nat, q: Halves) {
    k <= 64 && Ok(q) && All(q) == n % Pow2(k) * Pow2(64 - k) + l
  }

  // The digits of n used so far, with k to go
  function Used(n: nat, k: nat): int {
    n / Pow2(k)
  }

  // The digits m of n used so far are x * d and the remainder
  predicate RemainderWord(m: int, d: nat, x: nat, r: Halves) {
    Ok(r) && m == x * d + All(r) && All(r) < d
  }

  // The divisor leaves room for the doubled remainder, or this is the last digit
  predicate Room(n: nat, d: nat, k: nat, x: nat) {
    d <= HALF || k == 0 || (k == 1 && n >= HALF && x == 0)
  }

  /** The loop with k digits to go; the last quotient digit is still in carry. */
  predicate Midway(n: nat, d: nat, k: nat, l: nat, q: Halves, r: Halves, carry: nat) {
    && carry < 2 && QuotientWord(n, k, l, q)
    && RemainderWord(Used(n, k), d, 2 * l + carry, r) && Room(n, d, k, 2 * l + carry)
  }

  // The quotient digits so far fit their places
  lemma QuotientFits(n: nat, d: nat, p: nat, t: nat, x: nat, r: nat)
    requires n < WW && d > 0 && p > 0 && p * t == WW && n / p == x * d + r
    ensures x < t
  {
    var m := n / p;
    assert n == m * p + n % p;
    if x >= t {
      Product(t, x, d);
      Product(1, d, t);
      Product(t, m, p);
    }
  }

  lemma PlacesFit(n: nat, d: nat, k: nat, l: nat, q: Halves, r: Halves, carry: nat)
    requires Midway(n, d, k, l, q, r, carry) && n < WW && d > 0
    ensures 2 * l + carry < Pow2(64 - k) && Pow2(k) * Pow2(64 - k) == WW
  {
    PowersOfWords();
    Pow2Adds(k, 64 - k);
    QuotientFits(n, d, Pow2(k), Pow2(64 - k), 2 * l + carry, All(r));
  }

  // Lines 265-267: subtract d from r if it fits, without a branch
  function Borrow(d: nat, r: nat): nat {
    (d - r - 1) % WW
  }

  // The arithmetic shift of a di_int by 63
  function SignMask(x: nat): nat {
    if x >= HALF then WW - 1 else 0
  }

  /** d - r - 1 fits a signed word, so its sign says whether d fits into r. */
  lemma MaskDecides(d: nat, r: nat)
    requires d < WW && r < WW && -(HALF as int) <= d - r - 1 < HALF
    ensures var s := SignMask(Borrow(d, r)); s % 2 == (if r >= d then 1 else 0) && And(d, s) == if r >= d then d else 0
  {
    var x: int := d - r - 1;
    if r >= d { DivModUnique(x, WW, -1, WW + x); } else { DivModUnique(x, WW, 0, x); }
    MaskKeepsAll(d);
  }

  lemma MaskKeepsAll(d: nat)
    requires d < WW
    ensures And(d, WW - 1) == d && And(d, 0) == 0
  {
    PowersOfWords();
    AllOnes(64, d);
    LowOfSmall(64, d);
  }

  // y is d times the quotient so far, m the digits of n used so far, m1 those with the next digit b
  lemma SubtractIfFits(n: nat, d: nat, y: nat, m: int, m1: int, b: nat, r: nat, r1: nat, s: nat)
    requires 0 < d < WW && n < WW && b < 2 && m == y + r && m1 == 2 * m + b && r < d && r1 == (2 * r + b) % WW
    requires d <= HALF || (n >= HALF && y == 0 && n == m1)
    requires s == SignMask(Borrow(d, r1))
    ensures r1 < WW && r1 == 2 * r + b && s % 2 == if r1 >= d then 1 else 0
    ensures (r1 - And(d, s)) % WW == if r1 >= d then r1 - d else r1
  {
    assert 2 * r + b < WW;
    DivModUnique(2 * r + b, WW, 0, 2 * r + b);
    MaskDecides(d, r1);
    DivModUnique(r1 - And(d, s), WW, 0, r1 - And(d, s));
  }

  lemma OneMore(x: nat, c: nat, d: nat)
    requires c < 2
    ensures (2 * x + c) * d == 2 * (x * d) + if c == 1 then d else 0
  {
    Regroup(x, 2, d, c);
  }

  lemma TurnRemainder(n: nat, d: nat, k: nat, m: int, m1: int, x: nat, b: nat, r: Halves, r1: nat, r': Halves, s: nat)
    requires 0 < d < WW && n < WW && k > 0 && b < 2 && RemainderWord(m, d, x, r) && Room(n, d, k, x)
    requires m1 == 2 * m + b && (k == 1 ==> n == m1) && r1 == (2 * All(r) + b) % WW
    requires s == SignMask(Borrow(d, r1)) && Ok(r') && All(r') == (r1 - And(d, s)) % WW
    ensures s % 2 < 2 && RemainderWord(m1, d, 2 * x + s % 2, r')
  {
    if x == 0 { assert x * d == 0; }
    SubtractIfFits(n, d, x * d, m, m1, b, All(r), r1, s);
    OneMore(x, s % 2, d);
  }

  lemma TurnQuotient(n: nat, k: nat, l: nat, q: Halves, carry: nat) returns (b: nat)
    requires k > 0 && QuotientWord(n, k, l, q) && carry < 2
    requires 2 * l + carry < Pow2(64 - k) && Pow2(k) * Pow2(64 - k) == WW
    ensures QuotientWord(n, k - 1, 2 * l + carry, ShiftIn(q, carry))
    ensures b < 2 && b == q.high / 0x8000_0000 && Used(n, k - 1) == 2 * Used(n, k) + b
  {
    HalvesOfPowers(k);
    b := DigitMoves(n, Pow2(k), Pow2(k - 1), Pow2(64 - k), Pow2(64 - (k - 1)), l, All(q), carry);
    TopDigit(q);
    ShiftInDoubles(q, carry);
  }

  // pp is 2p and tt is 2t
  lemma DigitMoves(n: nat, pp: nat, p: nat, t: nat, tt: nat, l: nat, q: nat, carry: nat) returns (b: nat)
    requires p > 0 && t > 0 && pp == 2 * p && tt == 2 * t && p * t == HALF && l < t && q == n % pp * t + l && carry < 2
    ensures b < 2 && q < WW && q / HALF == b && (2 * q + carry) % WW == n % p * tt + (2 * l + carry)
    ensures n / p == 2 * (n / pp) + b
  {
    b := NextDigit(n, p, t, l, q);
    AppendDigit(q, n % p * tt, l, carry);
  }

  lemma TopDigit(q: Halves)
    requires Ok(q)
    ensures All(q) / HALF == q.high / 0x8000_0000
  {
    DivModUnique(All(q), HALF, q.high / 0x8000_0000, q.high % 0x8000_0000 * W + q.low);
  }

  lemma AppendDigit(q: nat, hi: nat, l: nat, c: nat)
    requires 2 * q % WW == hi + 2 * l && c < 2
    ensures (2 * q + c) % WW == hi + (2 * l + c)
  {
    var k, e := q / HALF, q % HALF;
    DivModUnique(2 * q, WW, k, 2 * e);
    DivModUnique(2 * q + c, WW, k, 2 * e + c);
  }

  lemma HalvesOfPowers(k: nat)
    requires 0 < k <= 64 && Pow2(k) * Pow2(64 - k) == WW
    ensures Pow2(k) == 2 * Pow2(k - 1) && Pow2(64 - (k - 1)) == 2 * Pow2(64 - k) && Pow2(k - 1) * Pow2(64 - k) == HALF
  {
    HalfProduct(Pow2(k), Pow2(k - 1), Pow2(64 - k));
  }

  lemma HalfProduct(pp: nat, p: nat, t: nat)
    requires pp == 2 * p && pp * t == WW
    ensures p * t == HALF
  {
    assert pp * t == 2 * (p * t);
  }

  lemma AllDigits(n: nat, k: nat)
    requires k == 0
    ensures Used(n, k) == n
  {
  }

  // m are the digits of n used so far, and m1 those with b
  lemma TurnRest(n: nat, d: nat, k: nat, m: int, m1: int, x: nat, b: nat, r: Halves, r': Halves, s: nat)
    requires 0 < d < WW && n < WW && k > 0 && b < 2 && RemainderWord(m, d, x, r) && Room(n, d, k, x)
    requires m1 == 2 * m + b && (k == 1 ==> n == m1)
    requires s == SignMask(Borrow(d, All(ShiftIn(r, b)))) && Ok(r') && All(r') == (All(ShiftIn(r, b)) - And(d, s)) % WW
    ensures s % 2 < 2 && RemainderWord(m1, d, 2 * x + s % 2, r') && Room(n, d, k - 1, 2 * x + s % 2)
  {
    ShiftInDoubles(r, b);
    TurnRemainder(n, d, k, m, m1, x, b, r, All(ShiftIn(r, b)), r', s);
  }

  lemma TurnDigit(n: nat, d: nat, k: nat, l: nat, q: Halves, r: Halves, carry: nat) returns (b: nat)
    requires 0 < d < WW && n < WW && k > 0 && Midway(n, d, k, l, q, r, carry)
    ensures QuotientWord(n, k - 1, 2 * l + carry, ShiftIn(q, carry))
    ensures b < 2 && b == q.high / 0x8000_0000 && Used(n, k - 1) == 2 * Used(n, k) + b
  {
    PlacesFit(n, d, k, l, q, r, carry);
    b := TurnQuotient(n, k, l, q, carry);
  }

  /** One turn of the loop. */
  lemma Turn(n: nat, d: nat, k: nat, l: nat, q: Halves, r: Halves, carry: nat, r': Halves, s: nat)
    requires 0 < d < WW && n < WW && k > 0 && Midway(n, d, k, l, q, r, carry)
    requires s == SignMask(Borrow(d, All(ShiftIn(r, q.high / 0x8000_0000))))
    requires Ok(r') && All(r') == (All(ShiftIn(r, q.high / 0x8000_0000)) - And(d, s)) % WW
    ensures Midway(n, d, k - 1, 2 * l + carry, ShiftIn(q, carry), r', s % 2)
  {
    var b := TurnDigit(n, d, k, l, q, r, carry);
    if k == 1 { AllDigits(n, k - 1); }
    TurnRest(n, d, k, Used(n, k), Used(n, k - 1), 2 * l + carry, b, r, r', s);
  }

  /** What every branch has to find. */
  predicate Divided(n: nat, d: nat, quotient: nat, rem: nat) {
    quotient < WW && quotient * d + rem == n && rem < d
  }

  lemma NothingDivided(n: nat, d: nat)
    requires n < d
    ensures Divided(n, d, 0, n)
  {
  }

  lemma Finish(n: nat, d: nat, l: nat, q: Halves, r: Halves, carry: nat)
    requires 0 < d && n < WW && Midway(n, d, 0, l, q, r, carry)
    ensures Divided(n, d, (All(q) * 2 + carry) % WW, All(r))
  {
    PowersOfWords();
    PlacesFit(n, d, 0, l, q, r, carry);
    AllDigits(n, 0);
    assert All(q) == l;
    DivModUnique(All(q) * 2 + carry, WW, 0, 2 * l + carry);
  }

  // Lines 254-267
  method OneTurn(n: nat, d: nat, ghost k: nat, ghost l: nat, q: Halves, r: Halves, carry: nat)
    returns (q': Halves, r': Halves, carry': nat)
    requires 0 < d < WW && n < WW && k > 0 && Midway(n, d, k, l, q, r, carry)
    ensures Midway(n, d, k - 1, 2 * l + carry, q', r', carry')
  {
    var r1 := ShiftIn(r, q.high / 0x8000_0000);
    ShiftInDoubles(r, q.high / 0x8000_0000);
    var s := SignMask(Borrow(d, All(r1)));
    q', r', carry' := ShiftIn(q, carry), Split((All(r1) - And(d, s)) % WW), s % 2;
    Turn(n, d, k, l, q, r, carry, r', s);
  }

  /** Lines 250-272: from the first remainder word, n shifted right by sr, to quotient and remainder. */
  method ShiftSubtract(n: nat, d: nat, sr0: nat, q0: Halves, r0: Halves) returns (quotient: nat, rem: nat)
    requires 0 < d < WW && n < WW && 1 <= sr0 <= 63 && QuotientWord(n, sr0, 0, q0)
    requires RemainderWord(Used(n, sr0), d, 0, r0) && Room(n, d, sr0, 0)
    ensures Divided(n, d, quotient, rem)
  {
    var q, r, carry, sr := q0, r0, 0, sr0;
    ghost var l := 0;
    while sr > 0
      invariant Midway(n, d, sr, l, q, r, carry)
    {
      ghost var l' := 2 * l + carry;
      q, r, carry := OneTurn(n, d, sr, l, q, r, carry);
      l, sr := l', sr - 1;
    }
    Finish(n, d, l, q, r, carry);
    quotient := (All(q) * 2 + carry) % WW;
    rem := All(r);
  }

  // ---- the first remainder and quotient words of lines 153-242

  // The digits that a left shift by 32 - j keeps; p is 2^j and t is 2^(32 - j)
  lemma KeptDigits(x: nat, p: nat, t: nat)
    requires p > 0 && t > 0 && p * t == W
    ensures x * t % W == x % p * t && x % p * t <= W - t
  {
    assert x == x / p * p + x % p;
    assert x * t == x / p * (p * t) + x % p * t;
    Product(x % p, p - 1, t);
    assert (p - 1) * t == W - t;
    DivModUnique(x * t, W, x / p, x % p * t);
  }

  lemma ShiftedHalves(h: nat, l: nat, j: nat)
    requires 1 <= j <= 31 && h < W && l < W
    ensures Pow2(j) * Pow2(32 - j) == W
    ensures Left(l, 32 - j) == l % Pow2(j) * Pow2(32 - j) < W && Right(h, j) == h / Pow2(j) < W
    ensures Or(Left(h, 32 - j), Right(l, j)) == h % Pow2(j) * Pow2(32 - j) + l / Pow2(j) < W
  {
    var p, t := Pow2(j), Pow2(32 - j);
    PowersOfWords();
    Pow2Adds(j, 32 - j);
    ShlIsTimes(l, 32 - j);
    ShlIsTimes(h, 32 - j);
    ShrIsDiv(h, j);
    ShrIsDiv(l, j);
    KeptDigits(l, p, t);
    KeptDigits(h, p, t);
    Quotient(l, p, t);
    Quotient(h, p, t);
    LowIsMod(32 - j, h % p * t);
    MultipleMod(t, h % p);
    OrDisjoint(32 - j, h % p * t, l / p);
  }

  lemma Quotient(x: nat, p: nat, t: nat)
    requires p > 0 && t > 0 && x < p * t
    ensures 0 <= x / p < t && x / p <= x
  {
    var m := x / p;
    assert x == m * p + x % p;
    if m >= t { Product(t, m, p); }
    Product(1, p, m);
  }

  // n shifted right by j < 32, p is 2^j and t is 2^(32 - j)
  lemma ShiftedRight(h: nat, l: nat, p: nat, t: nat)
    requires p > 0 && p * t == W
    ensures (h * W + l) / p == h / p * W + (h % p * t + l / p)
    ensures (h * W + l) % p == l % p
  {
    assert h == h / p * p + h % p;
    assert h * W == h / p * W * p + h % p * t * p;
    assert l == l / p * p + l % p;
    assert (h / p * W + (h % p * t + l / p)) * p == h / p * W * p + h % p * t * p + l / p * p;
    DivModUnique(h * W + l, p, h / p * W + (h % p * t + l / p), l % p);
  }

  // n shifted right by sr and left by 64 - sr, the words the loop starts from
  predicate Start(n: Halves, sr: nat, q: Halves, r: Halves) {
    QuotientWord(All(n), sr, 0, q) && Ok(r) && All(r) == All(n) / Pow2(sr)
  }

  // Lines 155-159, 198-201 and 238-240
  lemma NarrowStart(n: Halves, sr: nat)
    requires Ok(n) && 1 <= sr <= 31
    ensures Start(n, sr, Halves(Left(n.low, 32 - sr), 0),
                  Halves(Right(n.high, sr), Or(Left(n.high, 32 - sr), Right(n.low, sr))))
    ensures All(n) % Pow2(sr) == n.low % Pow2(sr)
  {
    ShiftedHalves(n.high, n.low, sr);
    PowersOfWords();
    Pow2Adds(32 - sr, 32);
    NarrowDigits(n.high, n.low, Pow2(sr), Pow2(32 - sr), Pow2(64 - sr));
  }

  lemma NarrowDigits(h: nat, l: nat, p: nat, t: nat, u: nat)
    requires p > 0 && p * t == W && u == t * W
    ensures l % p * t * W == (h * W + l) % p * u && (h * W + l) % p == l % p
    ensures (h * W + l) / p == h / p * W + (h % p * t + l / p)
  {
    ShiftedRight(h, l, p, t);
    assert l % p * t * W == l % p * (t * W);
  }

  // Lines 191-194 and 232-234
  lemma EvenStart(n: Halves)
    requires Ok(n)
    ensures Start(n, 32, Halves(n.low, 0), Halves(0, n.high))
  {
    PowersOfWords();
    DivModUnique(All(n), W, n.high, n.low);
  }

  // Lines 205-209
  lemma WideStart(n: Halves, sr: nat)
    requires Ok(n) && 33 <= sr <= 63
    ensures Start(n, sr, Halves(Or(Left(n.high, 64 - sr), Right(n.low, sr - 32)), Left(n.low, 64 - sr)),
                  Halves(0, Right(n.high, sr - 32)))
  {
    var j := sr - 32;
    var p, t := Pow2(j), Pow2(32 - j);
    ShiftedHalves(n.high, n.low, j);
    PowersOfWords();
    Pow2Adds(32, j);
    WideDigits(n.high, n.low, p, t);
  }

  lemma WideDigits(h: nat, l: nat, p: nat, t: nat)
    requires p > 0 && p * t == W && l < W
    ensures W * p > 0 && (h * W + l) / (W * p) == h / p
    ensures (h * W + l) % (W * p) * t == (h % p * t + l / p) * W + l % p * t
  {
    var a, b := h / p, h % p;
    assert h == a * p + b;
    assert h * W == a * (W * p) + b * W;
    Product(b, p - 1, W);
    assert (p - 1) * W == W * p - W;
    DivModUnique(h * W + l, W * p, a, b * W + l);
    assert l == l / p * p + l % p;
    assert l / p * p * t == l / p * (p * t);
    assert (b * W + l) * t == b * t * W + (l / p * p * t + l % p * t);
  }

  // ---- the shift counts of lines 144, 184 and 218

  /** n below 2^a, shifted right far enough to have fewer digits than d, is below d. */
  lemma ShiftedBelow(n: nat, a: nat, k: nat, d: nat)
    requires n < Pow2(a) && k <= a && Pow2(a - k) <= d
    ensures n / Pow2(k) < d
  {
    Pow2Adds(k, a - k);
    Quotient(n, Pow2(k), Pow2(a - k));
  }

  lemma TimesWord(l: nat)
    ensures Pow2(l + 32) == Pow2(l) * W
  {
    PowersOfWords();
    Pow2Adds(l, 32);
  }

  lemma HalfLength(w: nat)
    requires w < W
    ensures BitLen(w) <= 32
  {
    PowersOfWords();
    BitLenBelow(32, w);
  }

  // The bounds that the length of the high half gives
  lemma HighBits(h: Halves, l: nat)
    requires Ok(h) && h.high > 0 && l == BitLen(h.high)
    ensures 1 <= l <= 32 && Pow2(l + 31) <= All(h) < Pow2(l + 32)
  {
    HalfLength(h.high);
    TimesWord(l);
    TimesWord(l - 1);
    ScaleBounds(h.high, h.low, Pow2(l - 1), Pow2(l));
  }

  lemma ScaleBounds(high: nat, low: nat, p: nat, q: nat)
    requires p <= high < q && low < W
    ensures p * W <= high * W + low < q * W
  {
    Product(p, high, W);
    Product(high + 1, q, W);
  }

  /** When the count is one more than the difference of the lengths, the loop starts with a remainder below d and with
      room. */
  lemma HighStart(n: Halves, d: Halves, a: nat, b: nat, sr: nat)
    requires Ok(n) && Ok(d) && n.high > 0 && d.high > 0 && a == BitLen(n.high) && b == BitLen(d.high)
    requires sr == a - b + 1 && sr >= 1
    ensures All(n) / Pow2(sr) < All(d) && Room(All(n), All(d), sr, 0)
  {
    HighBits(n, a);
    HighBits(d, b);
    ShiftedBelow(All(n), a + 32, sr, All(d));
    if All(d) > HALF { LongDivisor(All(n), All(d), a, b); }
  }

  // A divisor with more than 63 digits needs at most one turn
  lemma LongDivisor(n: nat, d: nat, a: nat, b: nat)
    requires HALF < d < Pow2(b + 32) && b <= a <= 32 && Pow2(a + 31) <= n
    ensures a == b == 32 && n >= HALF
  {
    PowersOfWords();
    if b < 32 { Pow2Monotone(b + 32, 63); }
  }

  /** If n has the shorter high half it is below d. */
  lemma Smaller(n: Halves, d: Halves, a: nat, b: nat)
    requires Ok(n) && Ok(d) && n.high > 0 && d.high > 0 && a == BitLen(n.high) && b == BitLen(d.high) && a < b
    ensures All(n) < All(d)
  {
    HighBits(n, a);
    HighBits(d, b);
    Pow2Monotone(a + 32, b + 31);
  }

  // The loop may start with the remainder that a right shift by sr leaves
  ghost predicate Fits(n: Halves, d: Halves, sr: nat) {
    All(n) / Pow2(sr) < All(d) && Room(All(n), All(d), sr, 0)
  }

  // The words of lines 155-159, 198-201 and 238-240, and the loop
  method DivideNarrow(n: Halves, d: Halves, sr: nat) returns (quotient: nat, rem: nat)
    requires Ok(n) && Ok(d) && 1 <= sr <= 31 && Fits(n, d, sr)
    ensures Divided(All(n), All(d), quotient, rem)
  {
    NarrowStart(n, sr);
    var q := Halves(Left(n.low, 32 - sr), 0);
    var r := Halves(Right(n.high, sr), Or(Left(n.high, 32 - sr), Right(n.low, sr)));
    quotient, rem := ShiftSubtract(All(n), All(d), sr, q, r);
  }

  // unsigned subtraction
  function USub(x: int, y: int): nat {
    (x - y) % W
  }

  // Lines 144 and 218
  method LeadingDifference(d: Halves, n: Halves) returns (sr: nat)
    requires Ok(n) && Ok(d) && n.high > 0 && d.high > 0 && n.high < Pow2(32) && d.high < Pow2(32)
    ensures sr > 31 ==> All(n) < All(d)
    ensures sr <= 31 ==> sr <= Clz(32, d.high) && Fits(n, d, sr + 1)
  {
    var x: int, y: int := Clz(32, d.high), Clz(32, n.high);
    sr := USub(x, y);
    USubIs(x, y);
    if x < y {
      Smaller(n, d, BitLen(n.high), BitLen(d.high));
    } else {
      HighStart(n, d, BitLen(n.high), BitLen(d.high), sr + 1);
    }
  }

  lemma USubIs(x: int, y: int)
    requires 0 <= x < 32 && 0 <= y < 32
    ensures USub(x, y) == if x < y then W + x - y else x - y
  {
    if x < y { DivModUnique(x - y, W, -1, W + x - y); } else { DivModUnique(x - y, W, 0, x - y); }
  }

  // Lines 214-242 and the loop: both words have high halves
  method DivideHigh(n: Halves, d: Halves) returns (quotient: nat, rem: nat)
    requires Ok(n) && Ok(d) && n.high > 0 && d.high > 0 && n.high < Pow2(32) && d.high < Pow2(32)
    ensures Divided(All(n), All(d), quotient, rem)
  {
    var sr := LeadingDifference(d, n);
    if sr > 31 {
      NothingDivided(All(n), All(d));
      return 0, All(n);
    }
    sr := sr + 1;
    if sr == 32 {
      EvenStart(n);
      quotient, rem := ShiftSubtract(All(n), All(d), sr, Halves(n.low, 0), Halves(0, n.high));
    } else {
      quotient, rem := DivideNarrow(n, d, sr);
    }
  }

  // x & (p - 1) and x >> ctz(p) for a power of two
  lemma PowerParts(x: nat, p: nat)
    requires 0 < p < W && x < W && And(p, p - 1) == 0
    ensures p == Pow2(Ctz(p)) && And(x, p - 1) == x % p && Right(x, Ctz(p)) == x / p
  {
    PowerTest(p);
    AllOnes(Ctz(p), x);
    LowIsMod(Ctz(p), x);
    ShrIsDiv(x, Ctz(p));
  }

  lemma HighQuotient(h: nat, l: nat, d: nat)
    requires d > 0 && l < W
    ensures h / d * (d * W) + (h % d * W + l) == h * W + l && h % d * W + l < d * W
  {
    assert h == h / d * d + h % d;
    assert h / d * (d * W) == h / d * d * W;
    Product(h % d + 1, d, W);
  }

  // Lines 99-160 and the loop: the divisor's low half is zero
  method DivideByHigh(n: Halves, d: Halves) returns (quotient: nat, rem: nat)
    requires Ok(n) && Ok(d) && n.high > 0 && d.high > 0 && d.low == 0 && n.high < Pow2(32) && d.high < Pow2(32)
    ensures Divided(All(n), All(d), quotient, rem)
  {
    if n.low == 0 || And(d.high, d.high - 1) == 0 {
      quotient, rem := DivideHalves(n, d);
    } else {
      AtMostThirty(d.high);
      quotient, rem := DivideByHighLoop(n, d);
    }
  }

  // Lines 112-139
  method DivideHalves(n: Halves, d: Halves) returns (quotient: nat, rem: nat)
    requires Ok(n) && Ok(d) && n.high > 0 && d.high > 0 && d.low == 0
    requires n.low == 0 || And(d.high, d.high - 1) == 0
    ensures Divided(All(n), All(d), quotient, rem)
  {
    HighQuotient(n.high, n.low, d.high);
    Quotient(n.high, d.high, W);
    if n.low == 0 {
      return n.high / d.high, All(Halves(n.high % d.high, 0));
    }
    PowerParts(n.high, d.high);
    return Right(n.high, Ctz(d.high)), All(Halves(And(n.high, d.high - 1), n.low));
  }

  // Line 144 for a divisor with at most 30 leading zeros: line 146 compares with 30
  method ShortDifference(d: Halves, n: Halves) returns (sr: nat)
    requires Ok(n) && Ok(d) && n.high > 0 && d.high > 0 && n.high < Pow2(32)
    requires d.high < Pow2(32) && Clz(32, d.high) <= 30
    ensures if sr > 30 then All(n) < All(d) else Fits(n, d, sr + 1)
  {
    sr := LeadingDifference(d, n);
  }

  // Lines 144-159
  method DivideByHighLoop(n: Halves, d: Halves) returns (quotient: nat, rem: nat)
    requires Ok(n) && Ok(d) && n.high > 0 && d.high > 0 && n.high < Pow2(32) && d.high < Pow2(32)
    requires Clz(32, d.high) <= 30
    ensures Divided(All(n), All(d), quotient, rem)
  {
    var sr := ShortDifference(d, n);
    if sr > 30 {
      NothingDivided(All(n), All(d));
      return 0, All(n);
    }
    quotient, rem := DivideNarrow(n, d, sr + 1);
  }

  // A word that is not a power of two has at most 30 leading zeros
  lemma AtMostThirty(x: nat)
    requires 0 < x < Pow2(32) && And(x, x - 1) != 0
    ensures Clz(32, x) <= 30
  {
    assert x > 1;
  }

  lemma LowStart(n: Halves, d: Halves, a: nat, b: nat, sr: int)
    requires Ok(n) && Ok(d) && n.high > 0 && d.high == 0 && d.low > 0 && a == BitLen(n.high) && b == BitLen(d.low)
    requires b >= 2 && sr == 33 + a - b
    ensures 2 <= sr <= 63 && All(n) / Pow2(sr) < All(d) && Room(All(n), All(d), sr, 0)
  {
    HighBits(n, a);
    HalfLength(d.low);
    ShiftedBelow(All(n), a + 32, sr, All(d));
  }

  // Line 184
  method LowCount(n: Halves, d: Halves) returns (sr: nat)
    requires Ok(n) && Ok(d) && n.high > 0 && d.high == 0 && d.low > 0 && n.high < Pow2(32) && d.low < Pow2(32)
    requires And(d.low, d.low - 1) != 0
    ensures 2 <= sr <= 63 && Fits(n, d, sr)
  {
    AtMostThirty(d.low);
    sr := 33 + Clz(32, d.low) - Clz(32, n.high);
    LowStart(n, d, BitLen(n.high), BitLen(d.low), sr);
  }

  // Lines 163-211 and the loop: the divisor fits the low half
  method DivideByLow(n: Halves, d: Halves) returns (quotient: nat, rem: nat)
    requires Ok(n) && Ok(d) && n.high > 0 && d.high == 0 && d.low > 0 && n.high < Pow2(32) && d.low < Pow2(32)
    ensures Divided(All(n), All(d), quotient, rem)
  {
    if And(d.low, d.low - 1) == 0 {
      quotient, rem := DivideByPower(n, d);
      return;
    }
    var sr := LowCount(n, d);
    if sr == 32 {
      EvenStart(n);
      quotient, rem := ShiftSubtract(All(n), All(d), sr, Halves(n.low, 0), Halves(0, n.high));
    } else if sr < 32 {
      quotient, rem := DivideNarrow(n, d, sr);
    } else {
      WideStart(n, sr);
      quotient, rem := ShiftSubtract(All(n), All(d), sr,
                                     Halves(Or(Left(n.high, 64 - sr), Right(n.low, sr - 32)), Left(n.low, 64 - sr)),
                                     Halves(0, Right(n.high, sr - 32)));
    }
  }

  // Lines 169-179
  method DivideByPower(n: Halves, d: Halves) returns (quotient: nat, rem: nat)
    requires Ok(n) && Ok(d) && d.high == 0 && d.low > 0 && And(d.low, d.low - 1) == 0
    ensures Divided(All(n), All(d), quotient, rem)
  {
    PowerParts(n.low, d.low);
    rem := And(n.low, d.low - 1);
    if d.low == 1 { return All(n), rem; }
    var sr := Ctz(d.low);
    PowersOfWords();
    CtzBelow(32, d.low);
    NarrowStart(n, sr);
    quotient := All(Halves(Right(n.high, sr), Or(Left(n.high, 32 - sr), Right(n.low, sr))));
    DivIdentity(All(n), d.low);
  }

  lemma DivIdentity(x: nat, p: nat)
    requires p > 0
    ensures x / p * p + x % p == x && x % p < p
  {
  }

  // Lines 79-90: both words fit their low halves
  method DivideSmall(n: nat, d: nat) returns (quotient: nat, rem: nat)
    requires n < W && 0 < d < W
    ensures Divided(n, d, quotient, rem)
  {
    DivIdentity(n, d);
    Product(1, d, W);
    Quotient(n, d, W);
    return n / d, n % d;
  }

  /** __udivmoddi4 with a rem pointer: quotient and remainder on every branch, for every divisor but zero. */
  method UDivModDi4(a: nat, b: nat) returns (quotient: nat, rem: nat)
    requires a < WW && 0 < b < WW
    ensures quotient < WW && quotient * b + rem == a && rem < b
  {
    PowersOfWords();
    var n, d := Split(a), Split(b);
    if n.high == 0 {
      if d.high == 0 {
        quotient, rem := DivideSmall(n.low, d.low);
        return;
      }
      NothingDivided(a, b);
      return 0, n.low;
    }
    if d.low == 0 {
      quotient, rem := DivideByHigh(n, d);
    } else if d.high == 0 {
      quotient, rem := DivideByLow(n, d);
    } else {
      quotient, rem := DivideHigh(n, d);
    }
  }

  // ---- the signed entry points, on di_int words

  /** The value of a two's complement word. */
  function Signed(w: nat): int {
    if w >= HALF then w - WW else w
  }

  // The remainder that C defines
  function TruncRem(x: int, y: int): int
    requires y != 0
  {
    if x < 0 then -(Abs(x) % Abs(y)) else Abs(x) % Abs(y)
  }

  // (x ^ s) - s in 64 bits: negation when s is all ones
  function NegateIf(x: nat, s: nat): nat {
    (Xor(x, s) - s) % WW
  }

  lemma NegateIfIs(x: nat, s: nat)
    requires x < WW && (s == 0 || s == WW - 1)
    ensures NegateIf(x, s) == if s == 0 then x else (0 - x) % WW
  {
    PowersOfWords();
    if s == 0 {
      DivModUnique(x, WW, 0, x);
    } else {
      XorOnes(64, x);
      assert Xor(x, s) - s == 0 - x;
    }
  }

  lemma NegativeWord(x: nat)
    requires x < WW
    ensures (0 - x) % WW == if x == 0 then 0 else WW - x
  {
    if x > 0 { DivModUnique(0 - x, WW, -1, WW - x); }
  }

  /** Taking the sign mask out of a word leaves its absolute value, for the least value too. */
  lemma NegatedIfNegative(x: nat)
    requires x < WW
    ensures NegateIf(x, SignMask(x)) == Abs(Signed(x)) <= HALF
  {
    NegateIfIs(x, SignMask(x));
    NegativeWord(x);
  }

  /** __divdi3: the quotient truncated toward zero; the one quotient that does not fit wraps to the least value. */
  method DivDi3(a: nat, b: nat) returns (c: nat)
    requires a < WW && 0 < b < WW
    ensures c < WW
    ensures Signed(c) == Trunc(Signed(a), Signed(b)) <==> !(a == HALF && b == WW - 1)
    ensures a == HALF && b == WW - 1 ==> c == HALF
  {
    var sa, sb := SignMask(a), SignMask(b);
    NegatedIfNegative(a);
    NegatedIfNegative(b);
    var q, r := UDivModDi4(NegateIf(a, sa), NegateIf(b, sb));
    var s := Xor(sa, sb);
    SameSign(a, b);
    c := NegateIf(q, s);
    QuotientSign(Signed(a), Signed(b), q, r);
    NegateIfIs(q, s);
    NegativeWord(q);
  }

  lemma SameSign(a: nat, b: nat)
    ensures Xor(SignMask(a), SignMask(b)) == if a >= HALF <==> b >= HALF then 0 else WW - 1
  {
    PowersOfWords();
    XorOnes(64, WW - 1);
  }

  lemma QuotientSign(x: int, y: int, q: nat, r: nat)
    requires y != 0 && q * Abs(y) + r == Abs(x) && r < Abs(y) && Abs(x) <= HALF
    ensures q == Abs(x) / Abs(y) && r == Abs(x) % Abs(y) && q <= HALF
    ensures q == HALF ==> Abs(x) == HALF && Abs(y) == 1
  {
    DivModUnique(Abs(x), Abs(y), q, r);
    Product(1, Abs(y), q);
    if q == HALF && Abs(y) > 1 { Product(2, Abs(y), q); }
  }

  /** __moddi3: the remainder with the sign of the dividend, for every divisor but zero. */
  method ModDi3(a: nat, b: nat) returns (c: nat)
    requires a < WW && 0 < b < WW
    ensures c < WW && Signed(c) == TruncRem(Signed(a), Signed(b))
  {
    NegatedIfNegative(b);
    NegatedIfNegative(a);
    var q, r := UDivModDi4(NegateIf(a, SignMask(a)), NegateIf(b, SignMask(b)));
    QuotientSign(Signed(a), Signed(b), q, r);
    NegateIfIs(r, SignMask(a));
    NegativeWord(r);
    c := NegateIf(r, SignMask(a));
  }

  /** Quotient and remainder of C fit together, and the remainder has the sign of the dividend. */
  lemma TruncRemainder(x: int, y: int)
    requires y != 0
    ensures Trunc(x, y) * y + TruncRem(x, y) == x && Abs(TruncRem(x, y)) < Abs(y)
    ensures TruncRem(x, y) == 0 || (TruncRem(x, y) < 0 <==> x < 0)
  {
    TruncDivides(x, y);
  }

  // Word arithmetic agrees with the signed values up to a multiple of 2^64
  lemma Wrapped(a: nat, d: nat, b: nat, r: int)
    requires a < WW && d < WW && b < WW && -(HALF as int) <= r < HALF
    requires Signed(a) - Signed(d) * Signed(b) == r
    ensures (a - d * b) % WW < WW && Signed((a - d * b) % WW) == r
  {
    var i, j, k := if a >= HALF then 1 else 0, if d >= HALF then 1 else 0, if b >= HALF then 1 else 0;
    Expand(Signed(d), Signed(b), j, k);
    var m := i - j * Signed(b) - k * Signed(d) - j * k * WW;
    assert a - d * b == r + m * WW;
    if r >= 0 { DivModUnique(a - d * b, WW, m, r); } else { DivModUnique(a - d * b, WW, m - 1, r + WW); }
  }

  lemma Expand(x: int, y: int, j: int, k: int)
    ensures (x + j * WW) * (y + k * WW) == x * y + (j * y + k * x + j * k * WW) * WW
  {
  }

  /** __divmoddi4: __divdi3's quotient and, always, the remainder of the dividend's sign. */
  method DivModDi4(a: nat, b: nat) returns (d: nat, rem: nat)
    requires a < WW && 0 < b < WW
    ensures d < WW && rem < WW
    ensures Signed(d) == Trunc(Signed(a), Signed(b)) <==> !(a == HALF && b == WW - 1)
    ensures Signed(rem) == TruncRem(Signed(a), Signed(b))
  {
    d := DivDi3(a, b);
    rem := (a - d * b) % WW;
    if a == HALF && b == WW - 1 {
      DivModUnique(a - d * b, WW, 1 - HALF, 0);
    } else {
      TruncRemainder(Signed(a), Signed(b));
      Wrapped(a, d, b, TruncRem(Signed(a), Signed(b)));
    }
  }

  /** __udivdi3 */
  method UDivDi3(a: nat, b: nat) returns (q: nat)
    requires a < WW && 0 < b < WW
    ensures q == a / b
  {
    var rem;
    q, rem := UDivModDi4(a, b);
    DivModUnique(a, b, q, rem);
  }

  /** __umoddi3 */
  method UModDi3(a: nat, b: nat) returns (r: nat)
    requires a < WW && 0 < b < WW
    ensures r == a % b
  {
    var q;
    q, r := UDivModDi4(a, b);
    DivModUnique(a, b, q, r);
  }
}
