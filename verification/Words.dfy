/** Unsigned machine words as numbers, with the bitwise operators of C defined on binary digits. */
module Words {
  import opened Arithmetic

  function Pow2(n: nat): (p: nat)
    ensures p > 0
  {
    if n == 0 then 1 else 2 * Pow2(n - 1)
  }

  // The number of binary digits of w
  function BitLen(w: nat): (n: nat)
    ensures w < Pow2(n) && (w > 0 ==> n > 0 && Pow2(n - 1) <= w)
  {
    if w == 0 then 0 else 1 + BitLen(w / 2)
  }

  lemma {:induction false} BitLenBelow(n: nat, w: nat)
    requires w < Pow2(n)
    ensures BitLen(w) <= n
  {
    if w > 0 { BitLenBelow(n - 1, w / 2); }
  }

  /** __builtin_clzl in a word of n bits: the number of zero digits above the highest one. */
  function Clz(n: nat, w: nat): (k: nat)
    requires 0 < w < Pow2(n)
    ensures k < n && k == n - BitLen(w)
  {
    BitLenBelow(n, w);
    n - BitLen(w)
  }

  predicate Bit(w: nat, k: nat) {
    if k == 0 then w % 2 == 1 else Bit(w / 2, k - 1)
  }

  function And(x: nat, y: nat): nat {
    if x == 0 || y == 0 then 0 else (if x % 2 == 1 && y % 2 == 1 then 1 else 0) + 2 * And(x / 2, y / 2)
  }

  function Or(x: nat, y: nat): nat {
    if x == 0 then y else if y == 0 then x else (if x % 2 == 1 || y % 2 == 1 then 1 else 0) + 2 * Or(x / 2, y / 2)
  }

  /** ~w in a word of n bits. */
  function Not(n: nat, w: nat): nat
    requires w < Pow2(n)
  {
    Pow2(n) - 1 - w
  }

  lemma {:induction false} Pow2Monotone(a: nat, b: nat)
    requires a <= b
    ensures Pow2(a) <= Pow2(b)
    decreases b
  {
    if a < b { Pow2Monotone(a, b - 1); }
  }

  lemma {:induction false} Pow2Adds(a: nat, b: nat)
    ensures Pow2(a + b) == Pow2(a) * Pow2(b)
  {
    if a > 0 { Pow2Adds(a - 1, b); }
  }

  lemma {:induction false} ZeroBit(k: nat)
    ensures !Bit(0, k)
  {
    if k > 0 { ZeroBit(k - 1); }
  }

  lemma {:induction false} AndBit(x: nat, y: nat, k: nat)
    ensures Bit(And(x, y), k) <==> Bit(x, k) && Bit(y, k)
  {
    if x == 0 || y == 0 { ZeroBit(k); }
    else if k > 0 { AndBit(x / 2, y / 2, k - 1); }
  }

  lemma {:induction false} OrBit(x: nat, y: nat, k: nat)
    ensures Bit(Or(x, y), k) <==> Bit(x, k) || Bit(y, k)
  {
    if x == 0 || y == 0 { ZeroBit(k); }
    else if k > 0 { OrBit(x / 2, y / 2, k - 1); }
  }

  lemma {:induction false} NotBit(n: nat, w: nat, k: nat)
    requires w < Pow2(n) && k < n
    ensures Bit(Not(n, w), k) <==> !Bit(w, k)
  {
    if k > 0 {
      assert Not(n, w) / 2 == Not(n - 1, w / 2);
      NotBit(n - 1, w / 2, k - 1);
    }
  }

  lemma {:induction false} Pow2Bit(j: nat, k: nat)
    ensures Bit(Pow2(j), k) <==> j == k
  {
    if j == 0 { if k > 0 { ZeroBit(k - 1); } }
    else if k > 0 { Pow2Bit(j - 1, k - 1); }
  }

  lemma {:induction false} AndBelow(x: nat, y: nat)
    ensures And(x, y) <= x && And(x, y) <= y
  {
    if x != 0 && y != 0 { AndBelow(x / 2, y / 2); }
  }

  lemma {:induction false} OrBelow(n: nat, x: nat, y: nat)
    requires x < Pow2(n) && y < Pow2(n)
    ensures Or(x, y) < Pow2(n)
  {
    if x != 0 && y != 0 { OrBelow(n - 1, x / 2, y / 2); }
  }

  /** Two words of n bits with the same bits are equal. */
  lemma {:induction false} SameBits(n: nat, x: nat, y: nat)
    requires x < Pow2(n) && y < Pow2(n) && forall k :: 0 <= k < n ==> (Bit(x, k) <==> Bit(y, k))
    ensures x == y
  {
    if n > 0 {
      forall k | 0 <= k < n - 1 ensures Bit(x / 2, k) <==> Bit(y / 2, k) {
        assert Bit(x, k + 1) <==> Bit(y, k + 1);
      }
      SameBits(n - 1, x / 2, y / 2);
      assert Bit(x, 0) <==> Bit(y, 0);
    }
  }

  /** __builtin_ctzl: the position of the lowest set bit. */
  function Ctz(w: nat): (k: nat)
    requires w > 0
    ensures Bit(w, k) && forall j :: 0 <= j < k ==> !Bit(w, j)
  {
    if w % 2 == 1 then 0
    else
      assert forall j :: 1 <= j ==> Bit(w, j) == Bit(w / 2, j - 1);
      1 + Ctz(w / 2)
  }

  lemma {:induction false} CtzBelow(n: nat, w: nat)
    requires 0 < w < Pow2(n)
    ensures Ctz(w) < n
  {
    if w % 2 == 0 { CtzBelow(n - 1, w / 2); }
  }

  // ---- the lowest set bit

  /** ~w + 1 in a word of n bits, where the carry out of the top is lost. */
  function Negate(n: nat, w: nat): nat
    requires w < Pow2(n)
  {
    if Not(n, w) + 1 == Pow2(n) then 0 else Not(n, w) + 1
  }

  /** The macro MASK of pmm.h, x & (~x + 1), in a word of n bits. */
  function Mask(n: nat, w: nat): nat
    requires w < Pow2(n)
  {
    And(w, Negate(n, w))
  }

  lemma {:induction false} AndComplement(n: nat, w: nat)
    requires w < Pow2(n)
    ensures And(w, Not(n, w)) == 0
  {
    if w != 0 && Not(n, w) != 0 {
      assert Not(n, w) / 2 == Not(n - 1, w / 2);
      AndComplement(n - 1, w / 2);
    }
  }

  lemma AndEvens(x: nat, y: nat)
    ensures And(2 * x, 2 * y) == 2 * And(x, y)
  {
  }

  lemma AndOdds(x: nat, y: nat)
    ensures And(2 * x + 1, 2 * y + 1) == 2 * And(x, y) + 1
  {
  }

  lemma {:induction false} AndNegation(n: nat, w: nat)
    requires 0 < w < Pow2(n)
    ensures And(w, Pow2(n) - w) == Pow2(Ctz(w))
  {
    var v, h := w / 2, Pow2(n - 1);
    assert Pow2(n) == 2 * h;
    if w % 2 == 0 {
      AndEvens(v, h - v);
      AndNegation(n - 1, v);
    } else {
      AndOdds(v, h - v - 1);
      AndComplement(n - 1, v);
    }
  }

  /** MASK isolates the bit that ctz names, and is zero exactly for the zero word. */
  lemma MaskIsLowest(n: nat, w: nat)
    requires w < Pow2(n)
    ensures if w == 0 then Mask(n, w) == 0 else Mask(n, w) == Pow2(Ctz(w))
  {
    if w > 0 { AndNegation(n, w); }
  }

  // ---- the lowest digits

  // The lowest k binary digits of w
  function Low(k: nat, w: nat): nat {
    if k == 0 then 0 else w % 2 + 2 * Low(k - 1, w / 2)
  }

  lemma {:induction false} LowIsMod(k: nat, w: nat)
    ensures Low(k, w) == w % Pow2(k)
  {
    if k > 0 {
      LowIsMod(k - 1, w / 2);
      DoubleDivisor(w, Pow2(k - 1));
    }
  }

  lemma DoubleDivisor(x: nat, m: nat)
    requires m > 0
    ensures x / (2 * m) == x / 2 / m && x % (2 * m) == 2 * (x / 2 % m) + x % 2
  {
    var h := x / 2;
    assert x == 2 * (h / m * m + h % m) + x % 2;
    assert 2 * (h / m * m) == h / m * (2 * m);
    DivModUnique(x, 2 * m, h / m, 2 * (h % m) + x % 2);
  }

  lemma {:induction false} OrDisjoint(k: nat, x: nat, y: nat)
    requires Low(k, x) == 0 && y < Pow2(k)
    ensures Or(x, y) == x + y
  {
    if k > 0 && x > 0 && y > 0 { OrDisjoint(k - 1, x / 2, y / 2); }
  }

  lemma {:induction false} AllOnes(n: nat, w: nat)
    ensures And(w, Pow2(n) - 1) == Low(n, w)
  {
    if n > 0 && w > 0 {
      assert (Pow2(n) - 1) / 2 == Pow2(n - 1) - 1 && (Pow2(n) - 1) % 2 == 1;
      AllOnes(n - 1, w / 2);
    } else if n > 0 { LowOfZero(n); }
  }

  lemma {:induction false} LowOfZero(n: nat)
    ensures Low(n, 0) == 0
  {
    if n > 0 { LowOfZero(n - 1); }
  }

  lemma {:induction false} LowOfSmall(n: nat, w: nat)
    requires w < Pow2(n)
    ensures Low(n, w) == w
  {
    if n > 0 { LowOfSmall(n - 1, w / 2); }
  }

  lemma {:induction false} AndHigh(n: nat, k: nat, w: nat)
    requires w < Pow2(n) && k <= n
    ensures Pow2(k) <= Pow2(n) && And(w, Not(n, Pow2(k) - 1)) == w - Low(k, w)
  {
    Pow2Monotone(k, n);
    if k == 0 {
      AllOnes(n, w);
      LowOfSmall(n, w);
    } else {
      NotDoubles(n, k);
      AndHigh(n - 1, k - 1, w / 2);
      AndEven(w, Not(n - 1, Pow2(k - 1) - 1));
    }
  }

  lemma NotDoubles(n: nat, k: nat)
    requires 0 < k <= n
    ensures Pow2(k) <= Pow2(n) && Pow2(k - 1) <= Pow2(n - 1)
    ensures Not(n, Pow2(k) - 1) == 2 * Not(n - 1, Pow2(k - 1) - 1)
  {
    Pow2Monotone(k, n);
    Pow2Monotone(k - 1, n - 1);
  }

  lemma AndEven(w: nat, m: nat)
    ensures And(w, 2 * m) == 2 * And(w / 2, m)
  {
  }

  // ---- shifts

  function Shl(w: nat, s: nat): nat {
    if s == 0 then w else 2 * Shl(w, s - 1)
  }

  function Shr(w: nat, s: nat): nat {
    if s == 0 then w else Shr(w / 2, s - 1)
  }

  lemma {:induction false} ShlIsTimes(w: nat, s: nat)
    ensures Shl(w, s) == w * Pow2(s)
  {
    if s > 0 { ShlIsTimes(w, s - 1); }
  }

  lemma {:induction false} ShrIsDiv(w: nat, s: nat)
    ensures Shr(w, s) == w / Pow2(s)
  {
    if s > 0 {
      ShrIsDiv(w / 2, s - 1);
      DoubleDivisor(w, Pow2(s - 1));
    }
  }

  lemma {:induction false} AndShifted(s: nat, b: nat, x: nat)
    ensures Shr(And(x, Shl(Pow2(b) - 1, s)), s) == Low(b, Shr(x, s))
  {
    var m := Pow2(b) - 1;
    if s == 0 {
      AllOnes(b, x);
    } else {
      AndShifted(s - 1, b, x / 2);
      HalvedMask(s, x, m);
    }
  }

  lemma HalvedMask(s: nat, x: nat, m: nat)
    requires s > 0
    ensures Shr(And(x, Shl(m, s)), s) == Shr(And(x / 2, Shl(m, s - 1)), s - 1)
  {
    AndEven(x, Shl(m, s - 1));
  }

  // ---- exclusive or, and the test for powers of two

  function Xor(x: nat, y: nat): nat {
    if x == 0 then y else if y == 0 then x else (if x % 2 == y % 2 then 0 else 1) + 2 * Xor(x / 2, y / 2)
  }

  lemma {:induction false} XorOnes(n: nat, w: nat)
    requires w < Pow2(n)
    ensures Xor(w, Pow2(n) - 1) == Not(n, w)
  {
    if w > 0 {
      assert (Pow2(n) - 1) / 2 == Pow2(n - 1) - 1 && (Pow2(n) - 1) % 2 == 1;
      XorOnes(n - 1, w / 2);
    }
  }

  lemma {:induction false} AndSelf(w: nat)
    ensures And(w, w) == w
  {
    if w > 0 { AndSelf(w / 2); }
  }

  /** x & (x - 1) is zero for powers of two only. */
  lemma {:induction false} PowerTest(x: nat)
    requires x > 0 && And(x, x - 1) == 0
    ensures x == Pow2(Ctz(x))
  {
    if x % 2 == 1 {
      if x > 1 { AndSelf(x / 2); }
    } else {
      assert (x - 1) / 2 == x / 2 - 1;
      PowerTest(x / 2);
    }
  }
}
