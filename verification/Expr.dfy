/** The expression evaluator of NEMU's debugger (expr.c), on the tokens + - * / ( ) and numbers. */
module Expr {
  import opened Arithmetic

  datatype Op = Add | Sub | Mul | Div

  // A C int
  type CInt = x: int | -0x8000_0000 <= x < 0x8000_0000
  const INT_MIN: CInt := -0x8000_0000

  datatype Token = Number(value: CInt) | Operator(op: Op) | Open | Close

  // ---- trees, and how they are written

  /** An expression as it is written: Paren is a pair of parentheses. */
  datatype Ast = Num(value: CInt) | Bin(op: Op, left: Ast, right: Ast) | Paren(inner: Ast)

  predicate IsSum(op: Op) {
    op == Add || op == Sub
  }

  function Print(e: Ast): (ts: seq<Token>)
    ensures |ts| >= 1 && (|ts| == 1 <==> e.Num?)
  {
    match e
    case Num(v) => [Number(v)]
    case Bin(op, l, r) => Print(l) + [Operator(op)] + Print(r)
    case Paren(i) => [Open] + Print(i) + [Close]
  }

  // 0 for sums, 1 for products, 2 for numbers and parentheses
  function Level(e: Ast): nat {
    match e
    case Num(_) => 2
    case Paren(_) => 2
    case Bin(op, _, _) => if IsSum(op) then 0 else 1
  }

  /** Operands have parentheses where precedence and grouping to the left need them. */
  predicate WellFormed(e: Ast) {
    match e
    case Num(_) => true
    case Paren(i) => WellFormed(i)
    case Bin(op, l, r) =>
      && WellFormed(l) && WellFormed(r)
      && if IsSum(op) then Level(r) >= 1 else Level(l) >= 1 && Level(r) == 2
  }

  // The operators outside parentheses
  function Ops(e: Ast): seq<Op> {
    match e
    case Num(_) => []
    case Paren(_) => []
    case Bin(op, l, r) => Ops(l) + [op] + Ops(r)
  }

  // The buffer of line 194, and the tokens of line 83
  const BUFFER: nat := 30
  const EXPR_LEN: nat := 64

  /** No level of parentheses has more operators than the buffer holds. */
  predicate Fits(e: Ast) {
    |Ops(e)| <= BUFFER && match e
                          case Num(_) => true
                          case Paren(i) => Fits(i)
                          case Bin(_, l, r) => Fits(l) && Fits(r)
  }

  lemma {:induction false} OpsAreSpread(e: Ast)
    ensures |Print(e)| >= 2 * |Ops(e)| + 1
  {
    match e
    case Num(_) =>
    case Paren(_) =>
    case Bin(_, l, r) => OpsAreSpread(l); OpsAreSpread(r);
  }

  lemma {:induction false} ShortFits(e: Ast)
    requires |Print(e)| < 2 * BUFFER + 3
    ensures Fits(e)
  {
    OpsAreSpread(e);
    match e
    case Num(_) =>
    case Paren(i) => ShortFits(i);
    case Bin(_, l, r) => ShortFits(l); ShortFits(r);
  }

  /** A text that fits the tokens overfills the buffer exactly when it has 31 operators outside parentheses. */
  lemma FitsIff(e: Ast)
    requires |Print(e)| <= EXPR_LEN
    ensures Fits(e) <==> |Ops(e)| <= BUFFER
    ensures |Ops(e)| <= BUFFER + 1
  {
    OpsAreSpread(e);
    match e
    case Num(_) =>
    case Paren(i) => ShortFits(i);
    case Bin(_, l, r) => ShortFits(l); ShortFits(r);
  }

  // 1 + 1 + ... with n operators
  function OnesSum(n: nat): Ast {
    if n == 0 then Num(1) else Bin(Add, OnesSum(n - 1), Num(1))
  }

  lemma {:induction false} OnesSumShape(n: nat)
    ensures WellFormed(OnesSum(n)) && |Print(OnesSum(n))| == 2 * n + 1 && |Ops(OnesSum(n))| == n
  {
    if n > 0 { OnesSumShape(n - 1); }
  }

  /** The sum of 32 numbers fits the tokens and not the buffer. */
  lemma LongSumOverfills()
    ensures var e := OnesSum(31); WellFormed(e) && |Print(e)| <= EXPR_LEN && !Fits(e)
  {
    OnesSumShape(31);
  }

  // ---- values

  lemma QuotientFits(x: CInt, y: CInt)
    requires y != 0 && !(x == INT_MIN && y == -1)
    ensures -0x8000_0000 <= Trunc(x, y) < 0x8000_0000
  {
    var a, b := Abs(x), Abs(y);
    if b == 1 { assert a / b == a; } else { assert 0 <= a / b <= a / 2 by { SmallerQuotient(a, b); } }
  }

  lemma SmallerQuotient(a: nat, b: nat)
    requires b >= 2
    ensures 0 <= a / b <= a / 2
  {
    var q := a / b;
    assert q * 2 <= q * b <= a;
  }

  /** What eval comes to: a value, a division that traps, or more operators than the buffer holds. */
  datatype Outcome = Val(value: CInt) | Trap | Overfull

  function Apply(op: Op, x: CInt, y: CInt): Outcome {
    match op
    case Add => Val(Int32(x + y))
    case Sub => Val(Int32(x - y))
    case Mul => Val(Int32(x * y))
    case Div =>
      if y == 0 then Val(0)
      else if x == INT_MIN && y == -1 then Trap
      else QuotientFits(x, y); Val(Trunc(x, y))
  }

  /** The value of a tree: operations in the order of the tree, and 0 for a division by zero. */
  function Value(e: Ast): Outcome {
    match e
    case Num(v) => Val(v)
    case Paren(i) => Value(i)
    case Bin(op, l, r) =>
      if !Value(l).Val? then Value(l)
      else if !Value(r).Val? then Value(r)
      else Apply(op, Value(l).value, Value(r).value)
  }

  // n is e or a part of it
  predicate Within(n: Ast, e: Ast) {
    || n == e
    || match e
       case Num(_) => false
       case Paren(i) => Within(n, i)
       case Bin(_, l, r) => Within(n, l) || Within(n, r)
  }

  /** A division whose quotient, 2 to the 31, is no int. */
  predicate NoQuotient(n: Ast) {
    n.Bin? && n.op == Div && Value(n.left) == Val(INT_MIN) && Value(n.right) == Val(-1)
  }

  /** Evaluating a tree traps exactly when some division in it divides INT_MIN by -1. */
  lemma {:induction false} TrapsIff(e: Ast)
    ensures Value(e) == Trap <==> exists n :: Within(n, e) && NoQuotient(n)
    ensures Value(e) != Overfull
  {
    match e
    case Num(_) =>
    case Paren(i) =>
      TrapsIff(i);
      if n :| Within(n, i) && NoQuotient(n) { assert Within(n, e); }
    case Bin(op, l, r) =>
      TrapsIff(l);
      TrapsIff(r);
      if Value(e) == Trap {
        if n :| Within(n, l) && NoQuotient(n) {
          assert Within(n, e);
        } else if n :| Within(n, r) && NoQuotient(n) {
          assert Within(n, e);
        } else {
          assert Within(e, e) && NoQuotient(e);
        }
      }
      forall n | Within(n, e) && NoQuotient(n) ensures Value(e) == Trap {
        if n != e && Within(n, l) { assert Value(l) == Trap; }
      }
  }

  // (0 - 2147483647 - 1) / (0 - 1)
  const TRAPPING: Ast := Bin(Div, Paren(Bin(Sub, Bin(Sub, Num(0), Num(2147483647)), Num(1))),
                             Paren(Bin(Sub, Num(0), Num(1))))

  /** That text can be typed in, and its division traps. */
  lemma TrapCanBeTyped()
    ensures WellFormed(TRAPPING) && Fits(TRAPPING) && |Print(TRAPPING)| == 13
    ensures Value(TRAPPING) == Trap
  {
    assert Value(TRAPPING.left) == Val(INT_MIN) && Value(TRAPPING.right) == Val(-1);
  }

  // ---- writing a tree with no more parentheses than it needs

  // Trees as they are meant, without parentheses
  predicate Bare(e: Ast) {
    match e
    case Num(_) => true
    case Paren(_) => false
    case Bin(_, l, r) => Bare(l) && Bare(r)
  }

  function Wrap(e: Ast, level: nat): Ast {
    if Level(e) >= level then e else Paren(e)
  }

  function Minimal(e: Ast): Ast {
    match e
    case Num(_) => e
    case Paren(i) => Minimal(i)
    case Bin(op, l, r) =>
      if IsSum(op) then Bin(op, Minimal(l), Wrap(Minimal(r), 1)) else Bin(op, Wrap(Minimal(l), 1), Wrap(Minimal(r), 2))
  }

  function Erase(e: Ast): Ast {
    match e
    case Num(_) => e
    case Paren(i) => Erase(i)
    case Bin(op, l, r) => Bin(op, Erase(l), Erase(r))
  }

  /** Every tree can be written so that it reads back as itself, and its value does not depend on the writing. */
  lemma {:induction false} MinimalIsWellFormed(e: Ast)
    requires Bare(e)
    ensures WellFormed(Minimal(e)) && Erase(Minimal(e)) == e && Value(Minimal(e)) == Value(e)
    ensures Level(Minimal(e)) == Level(e)
  {
    match e
    case Num(_) =>
    case Bin(op, l, r) =>
      MinimalIsWellFormed(l);
      MinimalIsWellFormed(r);
  }

  lemma {:induction false} EraseIsBare(e: Ast)
    ensures Bare(Erase(e))
  {
    match e
    case Num(_) =>
    case Paren(i) => EraseIsBare(i);
    case Bin(_, l, r) => EraseIsBare(l); EraseIsBare(r);
  }

  /** No other way of writing a tree is shorter. */
  lemma {:induction false} MinimalIsShortest(e: Ast)
    requires WellFormed(e)
    ensures var m := Minimal(Erase(e));
            |Print(m)| <= |Print(e)| && (Level(m) < Level(e) ==> |Print(m)| + 2 <= |Print(e)|)
  {
    match e
    case Num(_) =>
    case Paren(i) => MinimalIsShortest(i);
    case Bin(op, l, r) =>
      MinimalIsShortest(l);
      MinimalIsShortest(r);
  }

  // ---- depth of parentheses

  function Delta(t: Token): int {
    if t.Open? then 1 else if t.Close? then -1 else 0
  }

  function Depth(ts: seq<Token>): int {
    if ts == [] then 0 else Depth(ts[..|ts| - 1]) + Delta(ts[|ts| - 1])
  }

  lemma {:induction false} DepthAdds(a: seq<Token>, b: seq<Token>)
    ensures Depth(a + b) == Depth(a) + Depth(b)
  {
    if b == [] {
      assert a + b == a;
    } else {
      assert (a + b)[..|a + b| - 1] == a + b[..|b| - 1];
      DepthAdds(a, b[..|b| - 1]);
    }
  }

  ghost predicate NeverNegative(ts: seq<Token>) {
    forall k {:trigger ts[..k]} :: 0 <= k <= |ts| ==> Depth(ts[..k]) >= 0
  }

  /** The parentheses of ts match. */
  ghost predicate Balanced(ts: seq<Token>) {
    NeverNegative(ts) && Depth(ts) == 0
  }

  // Prefixes of a concatenation
  lemma PrefixDepth(a: seq<Token>, b: seq<Token>, k: nat)
    requires k <= |a + b|
    ensures k <= |a| ==> (a + b)[..k] == a[..k]
    ensures k >= |a| ==> (a + b)[..k] == a + b[..k - |a|] && Depth((a + b)[..k]) == Depth(a) + Depth(b[..k - |a|])
  {
    if k >= |a| { DepthAdds(a, b[..k - |a|]); }
  }

  lemma BalancedAdds(a: seq<Token>, b: seq<Token>)
    requires Balanced(a) && Balanced(b)
    ensures Balanced(a + b)
  {
    DepthAdds(a, b);
    forall k | 0 <= k <= |a + b| ensures Depth((a + b)[..k]) >= 0 {
      PrefixDepth(a, b, k);
      if k <= |a| { assert Depth(a[..k]) >= 0; } else { assert Depth(b[..k - |a|]) >= 0; }
    }
  }

  // Between the parentheses around a balanced text the depth is at least one
  lemma Enclosed(a: seq<Token>, k: nat)
    requires Balanced(a) && k <= |a|
    ensures Depth(([Open] + a)[..k + 1]) >= 1 && Depth([Open] + a) == 1
  {
    PrefixDepth([Open], a, k + 1);
    DepthAdds([Open], a);
    assert Depth([Open]) == 1;
    assert Depth(a[..k]) >= 0;
  }

  lemma BalancedParen(a: seq<Token>)
    requires Balanced(a)
    ensures Balanced([Open] + a + [Close])
  {
    var o := [Open] + a;
    DepthAdds(o, [Close]);
    assert Depth([Close]) == -1;
    Enclosed(a, |a|);
    forall k | 0 <= k <= |o + [Close]| ensures Depth((o + [Close])[..k]) >= 0 {
      PrefixDepth(o, [Close], k);
      if 0 < k <= |o| { Enclosed(a, k - 1); }
      if k == |o| + 1 { assert [Close][..1] == [Close]; }
    }
  }

  lemma {:induction false} PrintBalanced(e: Ast)
    ensures Balanced(Print(e))
  {
    match e
    case Num(v) =>
      assert [Number(v)][..0] == [] && [Number(v)][..1] == [Number(v)];
    case Paren(i) =>
      PrintBalanced(i);
      BalancedParen(Print(i));
    case Bin(op, l, r) =>
      PrintBalanced(l);
      PrintBalanced(r);
      assert [Operator(op)][..0] == [] && [Operator(op)][..1] == [Operator(op)];
      BalancedAdds(Print(l), [Operator(op)]);
      BalancedAdds(Print(l) + [Operator(op)], Print(r));
  }

  // ---- operators outside parentheses

  // They come in order; the depth before and after an operator is the same
  function TopOps(ts: seq<Token>): seq<Op> {
    if ts == [] then []
    else
      var last := ts[|ts| - 1];
      TopOps(ts[..|ts| - 1]) + if last.Operator? && Depth(ts) == 0 then [last.op] else []
  }

  lemma {:induction false} TopOpsAppend(a: seq<Token>, b: seq<Token>)
    requires Depth(a) == 0
    ensures TopOps(a + b) == TopOps(a) + TopOps(b)
  {
    if b == [] {
      assert a + b == a;
    } else {
      assert (a + b)[..|a + b| - 1] == a + b[..|b| - 1];
      TopOpsAppend(a, b[..|b| - 1]);
      DepthAdds(a, b);
    }
  }

  lemma {:induction false} NoTopOpsInside(a: seq<Token>, k: nat)
    requires Balanced(a) && k <= |a|
    ensures TopOps(([Open] + a)[..k + 1]) == []
  {
    var o := ([Open] + a)[..k + 1];
    Enclosed(a, k);
    if k > 0 {
      assert o[..|o| - 1] == ([Open] + a)[..k];
      NoTopOpsInside(a, k - 1);
    } else {
      assert o == [Open] && o[..0] == [];
    }
  }

  lemma TopOpsOfNumber(t: Token)
    requires t.Number?
    ensures TopOps([t]) == []
  {
    assert [t][..0] == [];
  }

  lemma TopOpsOfParen(a: seq<Token>)
    requires Balanced(a)
    ensures TopOps([Open] + a + [Close]) == []
  {
    var o := [Open] + a;
    NoTopOpsInside(a, |a|);
    assert o[..|o|] == o && (o + [Close])[..|o|] == o;
  }

  lemma TopOpsOfOperator(a: seq<Token>, op: Op)
    requires Depth(a) == 0
    ensures Depth(a + [Operator(op)]) == 0 && TopOps(a + [Operator(op)]) == TopOps(a) + [op]
  {
    assert (a + [Operator(op)])[..|a|] == a;
  }

  lemma TopOpsOfBin(a: seq<Token>, op: Op, b: seq<Token>)
    requires Depth(a) == 0
    ensures TopOps(a + [Operator(op)] + b) == TopOps(a) + [op] + TopOps(b)
  {
    TopOpsOfOperator(a, op);
    TopOpsAppend(a + [Operator(op)], b);
  }

  /** The operators outside parentheses of a written tree are the tree's. */
  lemma {:induction false} PrintTopOps(e: Ast)
    ensures TopOps(Print(e)) == Ops(e)
  {
    match e
    case Num(v) => TopOpsOfNumber(Number(v));
    case Paren(i) =>
      PrintBalanced(i);
      TopOpsOfParen(Print(i));
    case Bin(op, l, r) =>
      PrintTopOps(l);
      PrintTopOps(r);
      PrintBalanced(l);
      TopOpsOfBin(Print(l), op, Print(r));
  }

  // ---- the main operator

  // The place of the last sum operator, or -1
  function LastSum(ops: seq<Op>): (i: int)
    ensures -1 <= i < |ops|
    ensures i >= 0 ==> IsSum(ops[i])
    ensures forall j :: i < j < |ops| ==> !IsSum(ops[j])
  {
    if ops == [] then -1 else if IsSum(ops[|ops| - 1]) then |ops| - 1 else LastSum(ops[..|ops| - 1])
  }

  /** The rule of lines 211-222: the last sum operator, or else the last operator. */
  function MainCount(ops: seq<Op>): int {
    if LastSum(ops) >= 0 then LastSum(ops) else |ops| - 1
  }

  lemma {:induction false} LastSumOfJoin(a: seq<Op>, op: Op, b: seq<Op>)
    requires forall j :: 0 <= j < |b| ==> !IsSum(b[j])
    ensures LastSum(a + [op] + b) == if IsSum(op) then |a| else LastSum(a)
  {
    var ops := a + [op] + b;
    if b == [] {
      assert ops[..|ops| - 1] == a;
    } else {
      assert ops[..|ops| - 1] == a + [op] + b[..|b| - 1];
      LastSumOfJoin(a, op, b[..|b| - 1]);
    }
  }

  lemma {:induction false} OpsOfLevel(e: Ast)
    requires WellFormed(e)
    ensures Level(e) >= 1 ==> forall j :: 0 <= j < |Ops(e)| ==> !IsSum(Ops(e)[j])
    ensures Level(e) == 2 ==> Ops(e) == []
  {
    match e
    case Num(_) =>
    case Paren(_) =>
    case Bin(op, l, r) =>
      OpsOfLevel(l);
      OpsOfLevel(r);
  }

  /** For a well-formed tree that rule finds the operator at its root. */
  lemma MainOfTree(e: Ast)
    requires WellFormed(e) && e.Bin?
    ensures MainCount(Ops(e)) == |Ops(e.left)|
  {
    OpsOfLevel(e.left);
    OpsOfLevel(e.right);
    LastSumOfJoin(Ops(e.left), e.op, Ops(e.right));
  }

  // ---- the loops over the token array

  /** What checkparentheses finds: the depth stays above zero before the last token, and one pair is left open. */
  ghost predicate OnePair(s: seq<Token>)
    requires s != []
  {
    && !(s[0] != Open && s[|s| - 1] == Close)
    && (forall k {:trigger s[..k]} :: 1 <= k < |s| ==> Depth(s[..k]) != 0)
    && Depth(s[..|s| - 1]) == 1
  }

  lemma NextPrefix(s: seq<Token>, k: nat)
    requires k < |s|
    ensures Depth(s[..k + 1]) == Depth(s[..k]) + Delta(s[k])
    ensures TopOps(s[..k + 1]) == TopOps(s[..k]) + if s[k].Operator? && Depth(s[..k + 1]) == 0 then [s[k].op] else []
  {
    assert s[..k + 1][..k] == s[..k];
  }

  method CheckParentheses(tokens: seq<Token>, p: nat, q: nat) returns (b: bool)
    requires p <= q < |tokens|
    ensures b <==> OnePair(tokens[p..q + 1])
  {
    ghost var s := tokens[p..q + 1];
    var count := 0;
    if tokens[p] != Open && tokens[q] == Close { return false; }
    var i := p;
    while i < q
      invariant p <= i <= q && count == Depth(s[..i - p])
      invariant forall k {:trigger s[..k]} :: 1 <= k <= i - p ==> Depth(s[..k]) != 0
    {
      NextPrefix(s, i - p);
      if tokens[i] == Open { count := count + 1; }
      else if tokens[i] == Close { count := count - 1; }
      if count == 0 { return false; }
      i := i + 1;
    }
    return count == 1;
  }

  method MyCheckParentheses(tokens: seq<Token>, p: nat, q: nat) returns (b: bool)
    requires p <= q < |tokens|
    ensures b <==> Balanced(tokens[p..q + 1])
  {
    ghost var s := tokens[p..q + 1];
    var count, i := 0, p;
    while i <= q
      invariant p <= i <= q + 1 && count == Depth(s[..i - p])
      invariant forall k {:trigger s[..k]} :: 0 <= k <= i - p ==> Depth(s[..k]) >= 0
    {
      NextPrefix(s, i - p);
      if tokens[i] == Open { count := count + 1; }
      else if tokens[i] == Close { count := count - 1; }
      if count < 0 { return false; }
      i := i + 1;
    }
    assert s[..|s|] == s;
    return count == 0;
  }

  lemma {:induction false} OpsGrow(s: seq<Token>, k: nat, m: nat)
    requires k <= m <= |s|
    ensures |TopOps(s[..k])| <= |TopOps(s[..m])|
    decreases m
  {
    if k < m {
      OpsGrow(s, k, m - 1);
      NextPrefix(s, m - 1);
    }
  }

  // What the next token of a balanced text does
  lemma NextToken(s: seq<Token>, k: nat)
    requires Balanced(s) && k < |s|
    ensures Depth(s[..k]) >= 0 && Depth(s[..k + 1]) == Depth(s[..k]) + Delta(s[k])
    ensures TopOps(s[..k + 1]) == TopOps(s[..k]) + if s[k].Operator? && Depth(s[..k + 1]) == 0 then [s[k].op] else []
    ensures |TopOps(s[..k + 1])| <= |TopOps(s)|
  {
    NextPrefix(s, k);
    OpsGrow(s, k + 1, |s|);
    assert s[..|s|] == s;
  }

  // Lines 194-210: the operators outside parentheses go into the buffer
  method CollectOps(tokens: seq<Token>, p: nat, q: nat, operator: array<Op>) returns (room: bool, count: nat)
    requires p <= q < |tokens| && Balanced(tokens[p..q + 1])
    modifies operator
    ensures room <==> |TopOps(tokens[p..q + 1])| <= operator.Length
    ensures room ==> count <= operator.Length && operator[..count] == TopOps(tokens[p..q + 1])
  {
    ghost var s := tokens[p..q + 1];
    count := 0;
    var parentheses, i := 0, p;
    while i <= q
      invariant p <= i <= q + 1 && parentheses == Depth(s[..i - p])
      invariant count <= operator.Length && operator[..count] == TopOps(s[..i - p])
    {
      NextToken(s, i - p);
      if tokens[i] == Open { parentheses := parentheses + 1; }
      else if tokens[i] == Close { parentheses := parentheses - 1; }
      if !(parentheses != 0 || tokens[i] == Close) && !tokens[i].Number? {
        if count == operator.Length { return false, count; }
        operator[count] := tokens[i].op;
        count := count + 1;
      }
      i := i + 1;
    }
    assert s[..|s|] == s;
    room := true;
  }

  // Lines 223-296; no operator of this fragment is && or == or !=, so of those two pure flags only emptiness matters
  method ChooseOp(operator: array<Op>, count: nat) returns (main: int)
    requires count <= operator.Length
    ensures main == MainCount(operator[..count])
  {
    ghost var ops := operator[..count];
    var pureSum, pureProduct := true, true;
    var j: int := count - 1;
    while j >= 0
      invariant -1 <= j < count && pureSum && forall i :: j < i < count ==> IsSum(operator[i])
    {
      if operator[j] != Add && operator[j] != Sub {
        pureSum := false;
        break;
      }
      j := j - 1;
    }
    j := count - 1;
    while j >= 0
      invariant -1 <= j < count && pureProduct && forall i :: j < i < count ==> !IsSum(operator[i])
    {
      if operator[j] != Mul && operator[j] != Div {
        pureProduct := false;
        break;
      }
      j := j - 1;
    }
    if count == 0 || pureSum || pureProduct { return count - 1; }
    j := count - 1;
    while j >= 0
      invariant -1 <= j < count && forall i :: j < i < count ==> !IsSum(operator[i])
    {
      if operator[j] == Add || operator[j] == Sub { return j; }
      j := j - 1;
    }
    assert false;
  }

  // Lines 299-317: the place of operator number main
  method LocateOp(tokens: seq<Token>, p: nat, q: nat, main: int) returns (r: nat)
    requires p <= q < |tokens| && Balanced(tokens[p..q + 1])
    ensures var s := tokens[p..q + 1];
            if 0 <= main < |TopOps(s)| then
              p <= r <= q && |TopOps(s[..r - p])| == main && |TopOps(s[..r - p + 1])| == main + 1
            else r == 0
  {
    ghost var s := tokens[p..q + 1];
    var count, parentheses, i := 0, 0, p;
    while i <= q
      invariant p <= i <= q + 1 && parentheses == Depth(s[..i - p])
      invariant count == |TopOps(s[..i - p])| && (main >= 0 ==> count <= main)
    {
      NextToken(s, i - p);
      if tokens[i] == Open { parentheses := parentheses + 1; }
      else if tokens[i] == Close { parentheses := parentheses - 1; }
      if !(parentheses != 0 || tokens[i] == Close) && !tokens[i].Number? {
        if count == main { return i; }
        count := count + 1;
      }
      i := i + 1;
    }
    assert s[..|s|] == s;
    r := 0;
  }

  /** find_the_main_op, when the buffer has room for the operators outside parentheses. */
  method FindTheMainOp(tokens: seq<Token>, p: nat, q: nat) returns (room: bool, r: nat)
    requires p <= q < |tokens| && Balanced(tokens[p..q + 1])
    ensures room <==> |TopOps(tokens[p..q + 1])| <= BUFFER
    ensures var s, main := tokens[p..q + 1], MainCount(TopOps(tokens[p..q + 1]));
            if !room || TopOps(s) == [] then r == 0
            else p <= r <= q && |TopOps(s[..r - p])| == main && |TopOps(s[..r - p + 1])| == main + 1
  {
    var operator := new Op[BUFFER];
    var count: nat;
    r := 0;
    room, count := CollectOps(tokens, p, q, operator);
    if room {
      var main := ChooseOp(operator, count);
      r := LocateOp(tokens, p, q, main);
    }
  }

  // ---- evaluation

  lemma ParenIsOnePair(a: seq<Token>)
    requires Balanced(a)
    ensures OnePair([Open] + a + [Close])
  {
    var o := [Open] + a;
    var s := o + [Close];
    forall k | 1 <= k < |s| ensures Depth(s[..k]) != 0 {
      Enclosed(a, k - 1);
      assert s[..k] == o[..k];
    }
    Enclosed(a, |a|);
    assert s[..|s| - 1] == o;
  }

  lemma BinIsNotOnePair(a: seq<Token>, op: Op, b: seq<Token>)
    requires a != [] && b != [] && Balanced(a)
    ensures !OnePair(a + [Operator(op)] + b)
  {
    var s := a + [Operator(op)] + b;
    assert s[..|a|] == a;
  }

  /** checkparentheses recognises exactly the written trees that are a pair of parentheses. */
  lemma OnePairIsParen(e: Ast)
    requires |Print(e)| > 1
    ensures OnePair(Print(e)) <==> e.Paren?
  {
    match e
    case Num(_) =>
    case Paren(i) =>
      PrintBalanced(i);
      ParenIsOnePair(Print(i));
    case Bin(op, l, r) =>
      PrintBalanced(l);
      BinIsNotOnePair(Print(l), op, Print(r));
  }

  lemma SamePlace(s: seq<Token>, k: nat, n: nat)
    requires k < |s| && n < |s|
    requires |TopOps(s[..k])| == |TopOps(s[..n])| < |TopOps(s[..k + 1])| == |TopOps(s[..n + 1])|
    ensures k == n
  {
    if k < n { OpsGrow(s, k + 1, n); } else if k > n { OpsGrow(s, n + 1, k); }
  }

  /** The place that find_the_main_op returns is that of the operator at the root. */
  lemma RootOperator(e: Ast, k: nat)
    requires e.Bin? && WellFormed(e) && k < |Print(e)|
    requires |TopOps(Print(e)[..k])| == MainCount(Ops(e)) && |TopOps(Print(e)[..k + 1])| == MainCount(Ops(e)) + 1
    ensures k == |Print(e.left)| && Print(e)[k] == Operator(e.op)
    ensures Print(e)[..k] == Print(e.left) && Print(e)[k + 1..] == Print(e.right)
  {
    var s, n := Print(e), |Print(e.left)|;
    MainOfTree(e);
    PrintTopOps(e.left);
    PrintBalanced(e.left);
    TopOpsOfOperator(Print(e.left), e.op);
    assert s[..n] == Print(e.left) && s[..n + 1] == Print(e.left) + [Operator(e.op)];
    SamePlace(s, k, n);
  }

  lemma Subtext(tokens: seq<Token>, p: nat, q: nat, a: nat, b: nat)
    requires p <= a <= b <= q <= |tokens|
    ensures tokens[a..b] == tokens[p..q][a - p..b - p]
  {
    var s := tokens[p..q];
    forall i | 0 <= i < b - a ensures tokens[a..b][i] == s[a - p..b - p][i] { assert s[i + (a - p)] == tokens[a + i]; }
  }

  // The text between a pair of parentheses, and those on both sides of the root operator
  lemma InnerText(tokens: seq<Token>, p: nat, q: nat, e: Ast)
    requires p < q < |tokens| && tokens[p..q + 1] == Print(e) && e.Paren?
    ensures tokens[p + 1..q] == Print(e.inner)
  {
    Subtext(tokens, p, q + 1, p + 1, q);
    assert Print(e)[1..|Print(e)| - 1] == Print(e.inner);
  }

  lemma SideTexts(tokens: seq<Token>, p: nat, q: nat, op: nat, e: Ast)
    requires p <= op <= q < |tokens| && tokens[p..q + 1] == Print(e) && WellFormed(e) && e.Bin?
    requires |TopOps(Print(e)[..op - p])| == MainCount(Ops(e))
    requires |TopOps(Print(e)[..op - p + 1])| == MainCount(Ops(e)) + 1
    ensures p < op < q && tokens[op] == Operator(e.op)
    ensures tokens[p..op] == Print(e.left) && tokens[op + 1..q + 1] == Print(e.right)
  {
    RootOperator(e, op - p);
    Pieces(tokens, p, q, op, Print(e));
  }

  lemma Pieces(tokens: seq<Token>, p: nat, q: nat, op: nat, s: seq<Token>)
    requires p <= op <= q < |tokens| && tokens[p..q + 1] == s
    ensures |s| == q + 1 - p && tokens[op] == s[op - p]
    ensures tokens[p..op] == s[..op - p] && tokens[op + 1..q + 1] == s[op - p + 1..]
  {
    Subtext(tokens, p, q + 1, p, op);
    Subtext(tokens, p, q + 1, op + 1, q + 1);
  }

  /** eval: it ends, and comes to the value of the tree whose text it is given unless that overfills the buffer. */
  method Eval(tokens: seq<Token>, p: int, q: int, ghost e: Ast) returns (v: Outcome)
    requires 0 <= p && q < |tokens| <= EXPR_LEN
    requires p <= q ==> tokens[p..q + 1] == Print(e) && WellFormed(e)
    ensures v == if p > q then Val(0) else if !Fits(e) then Overfull else Value(e)
    decreases q - p, 1
  {
    if p > q { return Val(0); }
    FitsIff(e);
    if p == q {
      assert tokens[p] == Print(e)[0];
      return Val(tokens[p].value);
    }
    OnePairIsParen(e);
    var wrapped := CheckParentheses(tokens, p, q);
    if wrapped {
      InnerText(tokens, p, q, e);
      v := Eval(tokens, p + 1, q - 1, e.inner);
    } else {
      v := EvalOperation(tokens, p, q, e);
    }
  }

  // find_the_main_op on the text of a tree
  method RootPlace(tokens: seq<Token>, p: nat, q: nat, ghost e: Ast) returns (room: bool, op: nat)
    requires p < q < |tokens| && tokens[p..q + 1] == Print(e) && WellFormed(e) && e.Bin?
    ensures room <==> |Ops(e)| <= BUFFER
    ensures room ==> p < op < q && tokens[op] == Operator(e.op)
    ensures room ==> tokens[p..op] == Print(e.left) && tokens[op + 1..q + 1] == Print(e.right)
  {
    PrintBalanced(e);
    PrintTopOps(e);
    room, op := FindTheMainOp(tokens, p, q);
    if room { SideTexts(tokens, p, q, op, e); }
  }

  // Lines 407-431
  method EvalOperation(tokens: seq<Token>, p: nat, q: nat, ghost e: Ast) returns (v: Outcome)
    requires p < q < |tokens| <= EXPR_LEN && tokens[p..q + 1] == Print(e) && WellFormed(e) && e.Bin?
    ensures v == if !Fits(e) then Overfull else Value(e)
    decreases q - p, 0
  {
    PrintBalanced(e);
    FitsIff(e);
    v := Val(0);
    var matched := MyCheckParentheses(tokens, p, q);
    if !matched { return; }
    var room, op := RootPlace(tokens, p, q, e);
    if !room { return Overfull; }
    var val1 := Eval(tokens, p, op - 1, e.left);
    if !val1.Val? { return val1; }
    var val2 := Eval(tokens, op + 1, q, e.right);
    if !val2.Val? { return val2; }
    v := Compute(tokens[op].op, val1.value, val2.value);
  }

  // Lines 416-431
  method Compute(op: Op, val1: CInt, val2: CInt) returns (v: Outcome)
    ensures v == Apply(op, val1, val2)
  {
    if val2 == 0 && op == Div { return Val(0); }
    match op
    case Add => return Val(Int32(val1 + val2));
    case Sub => return Val(Int32(val1 - val2));
    case Mul => return Val(Int32(val1 * val2));
    case Div =>
      if val1 == INT_MIN && val2 == -1 { return Trap; }
      QuotientFits(val1, val2);
      return Val(Trunc(val1, val2));
  }
}
