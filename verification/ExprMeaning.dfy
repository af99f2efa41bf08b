/** What eval's values mean, told without its arithmetic: C's operators as relations between numbers. */
module ExprMeaning {
  import opened Arithmetic
  import opened Expr

  const WORD: int := 0x1_0000_0000

  predicate IsInt(x: int) {
    -0x8000_0000 <= x < 0x8000_0000
  }

  /** v is x reduced to an int. */
  predicate Wraps(x: int, v: int) {
    IsInt(v) && (v - x) % WORD == 0
  }

  /** v is what the operator makes of x and y. */
  ghost predicate Computes(op: Op, x: int, y: int, v: int) {
    match op
    case Add => Wraps(x + y, v)
    case Sub => Wraps(x - y, v)
    case Mul => Wraps(x * y, v)
    case Div => if y == 0 then v == 0 else IsInt(v) && exists r :: Divides(x, y, v, r)
  }

  /** v is a value of the tree. */
  ghost predicate Denotes(e: Ast, v: int) {
    match e
    case Num(n) => v == n
    case Paren(i) => Denotes(i, v)
    case Bin(op, l, r) => exists x, y :: Denotes(l, x) && Denotes(r, y) && Computes(op, x, y, v)
  }

  // ---- the operators

  lemma WrapIff(x: int, v: int)
    ensures Wraps(x, v) <==> v == Int32(x)
  {
    var k := (x + 0x8000_0000) / WORD;
    assert Int32(x) == x - k * WORD;
    DivModUnique(Int32(x) - x, WORD, -k, 0);
    if Wraps(x, v) {
      var m := (v - x) / WORD;
      assert v - x == m * WORD;
      DivModUnique(x + 0x8000_0000, WORD, -m, v + 0x8000_0000);
    }
  }

  /** INT_MIN / -1 is the one division by another number than 0 whose quotient is no int. */
  lemma QuotientIff(x: CInt, y: CInt, v: int)
    requires y != 0
    ensures (IsInt(v) && exists r :: Divides(x, y, v, r)) <==> v == Trunc(x, y) && !(x == INT_MIN && y == -1)
  {
    var t := Trunc(x, y);
    TruncDivides(x, y);
    if x == INT_MIN && y == -1 {
      assert t == 0x8000_0000;
    } else {
      QuotientFits(x, y);
    }
    var m := if x < 0 then -(Abs(x) % Abs(y)) else Abs(x) % Abs(y);
    if r :| Divides(x, y, v, r) { QuotientUnique(x, y, v, r, t, m); }
  }

  lemma ApplyIff(op: Op, x: CInt, y: CInt, v: int)
    ensures Computes(op, x, y, v) <==> IsInt(v) && Apply(op, x, y) == Val(v)
  {
    match op
    case Add => WrapIff(x + y, v);
    case Sub => WrapIff(x - y, v);
    case Mul => WrapIff(x * y, v);
    case Div => if y != 0 { QuotientIff(x, y, v); }
  }

  // ---- trees

  /** The value of a tree is the one number that C's operators give it, and it has none exactly when eval traps. */
  lemma {:induction false} ValueIff(e: Ast, v: int)
    ensures Denotes(e, v) <==> IsInt(v) && Value(e) == Val(v)
  {
    match e
    case Num(n) =>
    case Paren(i) => ValueIff(i, v);
    case Bin(op, l, r) =>
      if x, y :| Denotes(l, x) && Denotes(r, y) && Computes(op, x, y, v) {
        ValueIff(l, x);
        ValueIff(r, y);
        ApplyIff(op, x, y, v);
      }
      if IsInt(v) && Value(e) == Val(v) {
        ValueIff(l, Value(l).value);
        ValueIff(r, Value(r).value);
        ApplyIff(op, Value(l).value, Value(r).value, v);
      }
  }

  // ---- which tree a text is read as

  predicate IsReadAs(ts: seq<Token>, e: Ast) {
    WellFormed(e) && Print(e) == ts
  }

  predicate IsOneOf(op: Op, a: Op, b: Op) {
    op == a || op == b
  }

  /** Products bind tighter than sums on either side, and operators of one kind group to the left: the text of a, b and
      c with two operators between them is that of the tree that C gives it. */
  lemma Precedence(a: CInt, b: CInt, c: CInt, sum: Op, sum2: Op, product: Op, product2: Op)
    requires IsOneOf(sum, Add, Sub) && IsOneOf(sum2, Add, Sub)
    requires IsOneOf(product, Mul, Div) && IsOneOf(product2, Mul, Div)
    ensures IsReadAs([Number(a), Operator(sum), Number(b), Operator(product), Number(c)],
                     Bin(sum, Num(a), Bin(product, Num(b), Num(c))))
    ensures IsReadAs([Number(a), Operator(product), Number(b), Operator(sum), Number(c)],
                     Bin(sum, Bin(product, Num(a), Num(b)), Num(c)))
    ensures IsReadAs([Number(a), Operator(sum), Number(b), Operator(sum2), Number(c)],
                     Bin(sum2, Bin(sum, Num(a), Num(b)), Num(c)))
    ensures IsReadAs([Number(a), Operator(product), Number(b), Operator(product2), Number(c)],
                     Bin(product2, Bin(product, Num(a), Num(b)), Num(c)))
  {
    var ab, ab2, bc := Bin(product, Num(a), Num(b)), Bin(sum, Num(a), Num(b)), Bin(product, Num(b), Num(c));
    TwoNumbers(a, b, product, ab);
    TwoNumbers(a, b, sum, ab2);
    TwoNumbers(b, c, product, bc);
    OnTheRight(a, sum, bc);
    OnTheLeft(ab, sum, c);
    OnTheLeft(ab2, sum2, c);
    OnTheLeft(ab, product2, c);
  }

  /** And with parentheses the other way round: (a op b) op2 c and a op (b op2 c) are read as they stand. */
  lemma Parentheses(a: CInt, b: CInt, c: CInt, op: Op, op2: Op)
    ensures IsReadAs([Open, Number(a), Operator(op), Number(b), Close, Operator(op2), Number(c)],
                     Bin(op2, Paren(Bin(op, Num(a), Num(b))), Num(c)))
    ensures IsReadAs([Number(a), Operator(op), Open, Number(b), Operator(op2), Number(c), Close],
                     Bin(op, Num(a), Paren(Bin(op2, Num(b), Num(c)))))
  {
    var ab, bc := Bin(op, Num(a), Num(b)), Bin(op2, Num(b), Num(c));
    TwoNumbers(a, b, op, ab);
    TwoNumbers(b, c, op2, bc);
    InParentheses(ab);
    InParentheses(bc);
    OnTheLeft(Paren(ab), op2, c);
    OnTheRight(a, op, Paren(bc));
  }

  lemma {:induction false} TwoNumbers(a: CInt, b: CInt, op: Op, e: Ast)
    requires e == Bin(op, Num(a), Num(b))
    ensures IsReadAs([Number(a), Operator(op), Number(b)], e)
  {
    assert WellFormed(Num(a)) && WellFormed(Num(b)) && Level(Num(a)) == 2 && Level(Num(b)) == 2;
    assert Print(Num(a)) == [Number(a)] && Print(Num(b)) == [Number(b)];
  }

  lemma {:induction false} InParentheses(e: Ast)
    requires WellFormed(e)
    ensures IsReadAs([Open] + Print(e) + [Close], Paren(e)) && Level(Paren(e)) == 2
  {}

  lemma {:induction false} OnTheLeft(l: Ast, op: Op, c: CInt)
    requires WellFormed(l) && (IsSum(op) || Level(l) >= 1)
    ensures IsReadAs(Print(l) + [Operator(op), Number(c)], Bin(op, l, Num(c)))
  {
    assert WellFormed(Num(c)) && Level(Num(c)) == 2 && Print(Num(c)) == [Number(c)];
  }

  lemma {:induction false} OnTheRight(a: CInt, op: Op, r: Ast)
    requires WellFormed(r) && if IsSum(op) then Level(r) >= 1 else Level(r) == 2
    ensures IsReadAs([Number(a), Operator(op)] + Print(r), Bin(op, Num(a), r))
  {
    assert WellFormed(Num(a)) && Level(Num(a)) == 2 && Print(Num(a)) == [Number(a)];
  }

  // ---- trees without divisions, over unbounded integers

  predicate NoDivision(e: Ast) {
    match e
    case Num(_) => true
    case Paren(i) => NoDivision(i)
    case Bin(op, l, r) => op != Div && NoDivision(l) && NoDivision(r)
  }

  function ExactStep(op: Op, i: int, j: int): int
    requires op != Div
  {
    match op
    case Add => i + j
    case Sub => i - j
    case Mul => i * j
  }

  function Exact(e: Ast): int
    requires NoDivision(e)
  {
    match e
    case Num(n) => n
    case Paren(i) => Exact(i)
    case Bin(op, l, r) => ExactStep(op, Exact(l), Exact(r))
  }

  lemma CongruentProduct(x: int, y: int, i: int, j: int, m: int, n: int)
    requires x == i + m * WORD && y == j + n * WORD
    ensures x * y == i * j + (i * n + m * y) * WORD
  {
    assert i * y == i * j + i * n * WORD;
    assert x * y == i * y + m * y * WORD;
  }

  predicate Congruent(x: int, y: int) {
    (x - y) % WORD == 0
  }

  lemma CongruentStep(op: Op, x: CInt, y: CInt, i: int, j: int)
    requires op != Div && Congruent(x, i) && Congruent(y, j)
    ensures Apply(op, x, y).Val? && Congruent(Apply(op, x, y).value, ExactStep(op, i, j))
  {
    match op
    case Add => WrappedTotal(x, y, i, j);
    case Sub => WrappedDifference(x, y, i, j);
    case Mul => WrappedProduct(x, y, i, j);
  }

  lemma WrappedTotal(x: int, y: int, i: int, j: int)
    requires Congruent(x, i) && Congruent(y, j)
    ensures Congruent(Int32(x + y), i + j)
  {
    WrappedSum(x + y, i + j, (x - i) / WORD + (y - j) / WORD);
  }

  lemma WrappedDifference(x: int, y: int, i: int, j: int)
    requires Congruent(x, i) && Congruent(y, j)
    ensures Congruent(Int32(x - y), i - j)
  {
    WrappedSum(x - y, i - j, (x - i) / WORD - (y - j) / WORD);
  }

  lemma WrappedProduct(x: int, y: int, i: int, j: int)
    requires Congruent(x, i) && Congruent(y, j)
    ensures Congruent(Int32(x * y), i * j)
  {
    var xy, exact := x * y, i * j;
    var k := ProductDifference(x, y, i, j);
    WrappedSum(xy, exact, k);
  }

  lemma ProductDifference(x: int, y: int, i: int, j: int) returns (k: int)
    requires Congruent(x, i) && Congruent(y, j)
    ensures x * y == i * j + k * WORD
  {
    var m, n := (x - i) / WORD, (y - j) / WORD;
    CongruentProduct(x, y, i, j, m, n);
    k := i * n + m * y;
  }

  lemma WrappedSum(x: int, exact: int, k: int)
    requires x == exact + k * WORD
    ensures Congruent(Int32(x), exact)
  {
    WrapIff(x, Int32(x));
    var m := (Int32(x) - x) / WORD;
    DivModUnique(Int32(x) - exact, WORD, m + k, 0);
  }

  /** Without divisions eval comes to the value over unbounded integers modulo 2 to the 32. */
  lemma {:induction false} ValueIsExact(e: Ast)
    requires NoDivision(e)
    ensures Value(e).Val? && Congruent(Value(e).value, Exact(e))
  {
    match e
    case Num(_) =>
    case Paren(i) => ValueIsExact(i);
    case Bin(op, l, r) =>
      ValueIsExact(l);
      ValueIsExact(r);
      var x, y := Value(l).value, Value(r).value;
      CongruentStep(op, x, y, Exact(l), Exact(r));
  }

  /** And to that value itself whenever it is an int. */
  lemma SmallIsExact(e: Ast)
    requires NoDivision(e) && IsInt(Exact(e))
    ensures Value(e) == Val(Exact(e))
  {
    ValueIsExact(e);
    var k := (Value(e).value - Exact(e)) / WORD;
    assert Value(e).value == Exact(e) + k * WORD;
  }
}
