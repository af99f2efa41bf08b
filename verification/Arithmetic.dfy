/** Arithmetic that several components share. */
module Arithmetic {
  function Min(x: nat, y: nat): nat {
    if x < y then x else y
  }

  function Abs(x: int): nat {
    if x < 0 then -x else x
  }

  /** C's division: truncated toward zero. */
  function Trunc(x: int, y: int): int
    requires y != 0
  {
    if (x < 0) == (y < 0) then Abs(x) / Abs(y) else -(Abs(x) / Abs(y))
  }

  // A C int in two's complement, wrapping
  function Int32(x: int): (r: int)
    ensures -0x8000_0000 <= r < 0x8000_0000
  {
    (x + 0x8000_0000) % 0x1_0000_0000 - 0x8000_0000
  }

  lemma AtLeast(a: int, m: int)
    requires a >= 1 && m > 0
    ensures a * m >= m
  {
  }

  lemma Minus(d: int, q: int, m: int)
    ensures (d - q) * m == d * m - q * m
  {
  }

  /** Quotient and remainder are unique. */
  lemma DivModUnique(x: int, m: int, q: int, r: int)
    requires m > 0 && x == q * m + r && 0 <= r < m
    ensures x / m == q && x % m == r
  {
    var d, e := x / m, x % m;
    assert x == d * m + e;
    Minus(d, q, m);
    if d > q { AtLeast(d - q, m); } else if d < q { AtLeast(q - d, m); Minus(q, d, m); }
  }

  lemma MultipleMod(m: nat, q: nat)
    requires m > 0
    ensures q * m % m == 0 && q * m / m == q
  {
    DivModUnique(q * m, m, q, 0);
  }

  /** Dividing twice is dividing by the product. */
  lemma DivDiv(x: nat, m: nat, n: nat)
    requires m > 0 && n > 0
    ensures m * n > 0 && x / (m * n) == x / m / n
  {
    var y := x / m;
    var q, r := y / n, y % n;
    Regroup(q, n, m, r);
    Regroup(n - 1 - r, 1, m, r);
    AtLeast(n, m);
    Product(r, n - 1, m);
    DivModUnique(x, m * n, q, r * m + x % m);
  }

  lemma Product(x: nat, y: nat, z: nat)
    requires x <= y
    ensures x * z <= y * z
  {
  }

  lemma Regroup(q: int, n: int, m: int, r: int)
    ensures (q * n + r) * m == q * (m * n) + r * m
  {
  }

  // ---- division with signs

  /** q and r are quotient and remainder of x by y as C defines them: the remainder has the sign of x. */
  predicate Divides(x: int, y: int, q: int, r: int) {
    x == q * y + r && Abs(r) < Abs(y) && (r == 0 || (r < 0 <==> x < 0))
  }

  lemma Signs(q: int, y: int)
    ensures (-q) * y == -(q * y) && q * (-y) == -(q * y)
  {
  }

  lemma Euclidean(a: nat, b: nat)
    requires b > 0
    ensures a / b >= 0 && a == a / b * b + a % b && a % b < b
  {
    var q: int := a / b;
    if q < 0 { AtLeast(-q, b); }
  }

  /** Trunc is the quotient that C defines. */
  lemma TruncDivides(x: int, y: int)
    requires y != 0
    ensures Divides(x, y, Trunc(x, y), if x < 0 then -(Abs(x) % Abs(y)) else Abs(x) % Abs(y))
  {
    Euclidean(Abs(x), Abs(y));
    SignedQuotient(x, y, Abs(x) / Abs(y), Abs(x) % Abs(y));
  }

  lemma SignedQuotient(x: int, y: int, q: int, m: nat)
    requires Abs(x) == q * Abs(y) + m && m < Abs(y)
    ensures Divides(x, y, if (x < 0) == (y < 0) then q else -q, if x < 0 then -(m as int) else m)
  {
    Signs(q, y);
  }

  /** And the only one. */
  lemma QuotientUnique(x: int, y: int, q: int, r: int, q': int, r': int)
    requires Divides(x, y, q, r) && Divides(x, y, q', r')
    ensures q == q' && r == r'
  {
    Minus(q, q', y);
    if q != q' { FarApart(q - q', y); }
  }

  lemma FarApart(d: int, y: int)
    requires d != 0
    ensures d * y >= Abs(y) || d * y <= -(Abs(y) as int)
  {
    Signs(d, y);
    if y != 0 { if d > 0 { AtLeast(d, Abs(y)); } else { AtLeast(-d, Abs(y)); Signs(d, Abs(y)); } }
  }
}
