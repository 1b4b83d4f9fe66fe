/**
 * The numpad value model: the statement/expression tree the parser builds,
 * the runtime values, Python equality and truthiness on them, and the three
 * operator tables of `OperExpression` with the type-pair dispatch that picks
 * one of them (numpad.py:242-368).
 */
module Values {
  import opened Python

  /** The eleven operator symbols the grammar can produce, named after their spelling. */
  datatype Op =
    | Dots        // '..'
    | DotPlus     // '.+'
    | DotMinus    // '.-'
    | Plus        // '+'
    | Minus       // '-'
    | Star        // '*'
    | Slash       // '/'
    | StarPlus    // '*+'
    | StarMinus   // '*-'
    | SlashPlus   // '/+'
    | SlashMinus  // '/-'

  /** `Expression` (a number, a variable name or a list of expressions) and `OperExpression`. */
  datatype Expr =
    | Num(n: int)
    | Var(name: string)
    | ListExpr(items: seq<Expr>)
    | Oper(left: Expr, op: Op, right: Expr)

  /** The four statement classes; a `StatementBlock` is a sequence of statements. */
  datatype Stmt =
    | Set(target: string, expr: Expr)
    | Def(target: string, defaults: seq<int>, body: seq<Stmt>)
    | If(cond: Expr, body: seq<Stmt>)
    | While(cond: Expr, body: seq<Stmt>)

  /**
   * A runtime value: a Python int, a Python bool (what list comparisons
   * return), a Python list, or a `FuncExpression` (default parameter values
   * and a body).
   */
  datatype Value =
    | Int(n: int)
    | Bool(b: bool)
    | List(items: seq<Value>)
    | Func(defaults: seq<int>, body: seq<Stmt>)

  /** Python truthiness, as `if value:` and `while value:` test it. */
  predicate Truthy(v: Value)
  {
    match v
    case Int(n) => n != 0
    case Bool(b) => b
    case List(items) => |items| > 0
    case Func(_, _) => true
  }

  function BoolInt(b: bool): int { if b then 1 else 0 }

  /** Python `==` on values: `True == 1`, lists compare element by element. */
  predicate PyEq(a: Value, b: Value)
    decreases a
  {
    match (a, b)
    case (Int(x), Int(y)) => x == y
    case (Int(x), Bool(c)) => x == BoolInt(c)
    case (Bool(c), Int(y)) => BoolInt(c) == y
    case (Bool(c), Bool(d)) => c == d
    case (List(xs), List(ys)) =>
      |xs| == |ys| && forall k :: 0 <= k < |xs| ==> PyEq(xs[k], ys[k])
    case (Func(_, _), Func(_, _)) => a == b
    case _ => false
  }

  /** A value with no Python bool anywhere inside it. */
  predicate BoolFree(v: Value)
    decreases v
  {
    match v
    case Bool(_) => false
    case List(items) => forall k :: 0 <= k < |items| ==> BoolFree(items[k])
    case _ => true
  }

  /** Without bools in play, Python `==` on values is plain structural equality. */
  lemma {:induction false} PyEqIsEquality(a: Value, b: Value)
    requires BoolFree(a) && BoolFree(b)
    ensures PyEq(a, b) <==> a == b
    decreases a
  {
    match (a, b)
    case (List(xs), List(ys)) =>
      if |xs| == |ys| {
        forall k | 0 <= k < |xs| ensures PyEq(xs[k], ys[k]) <==> xs[k] == ys[k] {
          PyEqIsEquality(xs[k], ys[k]);
        }
        if PyEq(a, b) {
          assert xs == ys;
        }
      }
    case _ =>
  }

  /** Python `==` is symmetric on these values. */
  lemma {:induction false} PyEqSymmetric(a: Value, b: Value)
    ensures PyEq(a, b) <==> PyEq(b, a)
    decreases a
  {
    match (a, b)
    case (List(xs), List(ys)) =>
      if |xs| == |ys| {
        forall k | 0 <= k < |xs| ensures PyEq(xs[k], ys[k]) <==> PyEq(ys[k], xs[k]) {
          PyEqSymmetric(xs[k], ys[k]);
        }
      }
    case _ =>
  }

  // ---------------------------------------------------------------------
  // Integer division into a decimal pair (numpad.py:243-266)

  function Pow10(k: nat): (p: nat)
    ensures p >= 1
  {
    if k == 0 then 1 else 10 * Pow10(k - 1)
  }

  /** The dividend after `k` scaling steps. */
  function Scaled(x: int, k: nat): int
  {
    x * Pow10(k)
  }

  lemma ScaledStep(x: int, k: nat)
    ensures Scaled(x, k + 1) == Scaled(x, k) * 10
  {
    assert Pow10(k + 1) == 10 * Pow10(k);
  }

  /**
   * How many times the quotient is scaled by ten: the first `k` at which
   * `x * 10^k / y` is a whole number, but never more than ten.
   */
  function DecimalSteps(x: int, y: int, k: nat): (steps: nat)
    requires y != 0 && k <= 10
    ensures k <= steps <= 10
    decreases 10 - k
  {
    if k < 10 && Scaled(x, k) % y != 0 then DecimalSteps(x, y, k + 1) else k
  }

  /** `[mantissa, power]` with `mantissa * 10^power` the quotient, at most ten decimals kept. */
  function DecimalPair(x: int, y: int): (int, int)
    requires y != 0
  {
    var k := DecimalSteps(x, y, 0);
    (TruncDiv(Scaled(x, k), y), -(k as int))
  }

  /**
   * The decimal pair is exact with the fewest scaling steps when some scaling
   * below ten makes the quotient whole, and is the quotient truncated to ten
   * decimals otherwise.
   */
  lemma DecimalPairMeaning(x: int, y: int)
    requires y != 0
    ensures var k := -DecimalPair(x, y).1;
      && 0 <= k <= 10
      && (forall j :: 0 <= j < k ==> Scaled(x, j) % y != 0)
      && (k < 10 ==> DecimalPair(x, y).0 * y == Scaled(x, k))
      && (k == 10 ==> DecimalPair(x, y).0 == TruncDiv(Scaled(x, 10), y))
  {
    StepsMeaning(x, y, 0);
    var k := DecimalSteps(x, y, 0);
    if k < 10 {
      TruncDivExact(Scaled(x, k), y);
    }
  }

  lemma {:induction false} StepsMeaning(x: int, y: int, k: nat)
    requires y != 0 && k <= 10
    requires forall j :: 0 <= j < k ==> Scaled(x, j) % y != 0
    ensures var s := DecimalSteps(x, y, k);
      && (forall j :: 0 <= j < s ==> Scaled(x, j) % y != 0)
      && (s < 10 ==> Scaled(x, s) % y == 0)
    decreases 10 - k
  {
    if k < 10 && Scaled(x, k) % y != 0 {
      StepsMeaning(x, y, k + 1);
    }
  }

  lemma SmallMultiple(t: int, b: int)
    requires b > 0 && 0 <= t * b < b
    ensures t == 0
  {
  }

  lemma MulDivCancel(a: nat, b: nat)
    requires b > 0
    ensures (a * b) / b == a
  {
    var q := (a * b) / b;
    var r := (a * b) % b;
    assert (a - q) * b == r;
    SmallMultiple(a - q, b);
  }

  /** The magnitude and the sign of a product. */
  lemma AbsMul(a: int, b: int)
    ensures Abs(a * b) == Abs(a) * Abs(b)
    ensures a * b > 0 <==> (a > 0 && b > 0) || (a < 0 && b < 0)
  {
    if a < 0 && b < 0 {
      assert a * b == (-a) * (-b);
    } else if a < 0 {
      assert a * b == -((-a) * b);
    } else if b < 0 {
      assert a * b == -(a * (-b));
    }
  }

  /** Truncating division undoes a multiplication. */
  lemma TruncDivMul(q: int, y: int)
    requires y != 0
    ensures TruncDiv(y * q, y) == q
  {
    var n := y * q;
    AbsMul(y, q);
    MulDivCancel(Abs(q), Abs(y));
    assert Abs(n) / Abs(y) == Abs(q);
    if q == 0 {
      assert n == 0;
    }
  }

  lemma TruncDivExact(n: int, y: int)
    requires y != 0 && n % y == 0
    ensures TruncDiv(n, y) * y == n
  {
    var q := n / y;
    assert n == y * q;
    TruncDivMul(q, y);
  }

  /** The corrected loop: `_divide_int_int` with the ten-step cap the source meant. */
  method DivideIntInt(x: int, y: int) returns (mantissa: int, power: int)
    requires y != 0
    ensures (mantissa, power) == DecimalPair(x, y)
  {
    var n := x;
    power := 0;
    assert n == Scaled(x, 0);
    while n % y != 0 && power > -10
      invariant -10 <= power <= 0
      invariant n == Scaled(x, -power)
      invariant DecimalSteps(x, y, -power) == DecimalSteps(x, y, 0)
      decreases 10 + power
    {
      ghost var k: nat := -power;
      assert DecimalSteps(x, y, k) == DecimalSteps(x, y, k + 1);
      ScaledStep(x, k);
      power := power - 1;
      n := n * 10;
    }
    assert DecimalSteps(x, y, -power) == -power;
    mantissa := TruncDiv(n, y);
  }

  /**
   * The loop guard exactly as written: `power` starts at 0 and only falls, so
   * `power < 10` is always true and only the fractional test can end the loop.
   */
  predicate AsWrittenGuard(x: int, y: int, power: int)
    requires y != 0 && power <= 0
  {
    Scaled(x, -power) % y != 0 && power < 10
  }

  /** For 1 / 3 the as-written guard holds after every number of steps: no cap ever applies. */
  lemma {:induction false} AsWrittenNeverCapped(k: nat)
    ensures AsWrittenGuard(1, 3, -(k as int))
  {
    PowTenModThree(k);
  }

  lemma {:induction false} PowTenModThree(k: nat)
    ensures Pow10(k) % 3 == 1
  {
    if k > 0 {
      PowTenModThree(k - 1);
      var p := Pow10(k - 1);
      assert p == 3 * (p / 3) + 1;
      assert Pow10(k) == 3 * (10 * (p / 3) + 3) + 1;
    }
  }

  // ---------------------------------------------------------------------
  // The operator tables

  /** `oper_int_int` (numpad.py:268-280). */
  function IntInt(op: Op, x: int, y: int): (r: Result<Value>)
    ensures op.Dots? ==> (r == Ok(Int(1)) <==> x == y) && (r == Ok(Int(0)) <==> x != y)
    ensures op.DotPlus? ==> (r == Ok(Int(1)) <==> x > y) && (r == Ok(Int(0)) <==> x <= y)
    ensures op.DotMinus? ==> (r == Ok(Int(1)) <==> x < y) && (r == Ok(Int(0)) <==> x >= y)
    ensures op.Plus? ==> r == Ok(Int(x + y))
    ensures op.Minus? ==> r == Ok(Int(x - y))
    ensures op.Star? ==> r == Ok(Int(x * y))
    ensures (op.Slash? || op.SlashPlus? || op.SlashMinus?) ==> (r.Fail? <==> y == 0)
    ensures y == 0 && (op.Slash? || op.SlashPlus? || op.SlashMinus?) ==> r == Fail(ZeroDivisionError)
    ensures op.Slash? && y != 0 ==> r == Ok(List([Int(DecimalPair(x, y).0), Int(DecimalPair(x, y).1)]))
    ensures op.StarPlus? ==> (r.Ok? <==> y >= 0)
    ensures op.StarPlus? && y >= 0 ==> r == Ok(Int(Pow(x, y)))
    ensures op.StarPlus? && y < 0 ==> r == Fail(if x == 0 then ZeroDivisionError else FloatResult)
    ensures op.StarMinus? ==> r.Fail?
  {
    match op
    case Dots => Ok(Int(BoolInt(x == y)))
    case DotPlus => Ok(Int(BoolInt(x > y)))
    case DotMinus => Ok(Int(BoolInt(x < y)))
    case Plus => Ok(Int(x + y))
    case Minus => Ok(Int(x - y))
    case Star => Ok(Int(x * y))
    case Slash =>
      if y == 0 then Fail(ZeroDivisionError)
      else var (m, p) := DecimalPair(x, y); Ok(List([Int(m), Int(p)]))
    case StarPlus =>
      if y >= 0 then Ok(Int(Pow(x, y)))
      else if x == 0 then Fail(ZeroDivisionError)
      else Fail(FloatResult)
    case StarMinus =>
      if x <= 0 || y <= 0 then Fail(ValueError)
      else if y == 1 then Fail(ZeroDivisionError)
      else Fail(FloatResult)
    case SlashPlus => if y == 0 then Fail(ZeroDivisionError) else Ok(Int(FloorDivMod(x, y).1))
    case SlashMinus => if y == 0 then Fail(ZeroDivisionError) else Ok(Int(FloorDivMod(x, y).0))
  }

  /**
   * `/-` and `/+` are Python's floor quotient and remainder: they rebuild the
   * dividend, and the remainder has the divisor's sign.
   */
  lemma FloorQuotientRemainder(x: int, y: int)
    requires y != 0
    ensures IntInt(SlashMinus, x, y).Ok? && IntInt(SlashPlus, x, y).Ok?
    ensures var q := IntInt(SlashMinus, x, y).value.n;
      var m := IntInt(SlashPlus, x, y).value.n;
      && x == y * q + m
      && (y > 0 ==> 0 <= m < y)
      && (y < 0 ==> y < m <= 0)
  {
  }

  /** `oper_list_int` (numpad.py:282-289), with Python's negative indices and clamped slices. */
  function ListInt(op: Op, xs: seq<Value>, y: int): (r: Result<Value>)
    ensures op.Dots? ==> r == Ok(Bool(|xs| == y))
    ensures op.DotPlus? ==> r == Ok(Bool(|xs| > y))
    ensures op.DotMinus? ==> r == Ok(Bool(|xs| < y))
    ensures op.Plus? ==> r == Ok(List(xs + [Int(y)]))
    ensures op.Minus? ==> r.Ok? && r.value.List? && |r.value.items| <= 2 * |xs|
    ensures op.Slash? ==> (r.Ok? <==> -|xs| <= y < |xs|)
    ensures op.Slash? && 0 <= y < |xs| ==> r == Ok(xs[y])
    ensures op.Slash? && -|xs| <= y < 0 ==> r == Ok(xs[|xs| + y])
    ensures op.Slash? && r.Fail? ==> r.error == IndexError
    ensures !InListIntTable(op) ==> r == Fail(NumpadError(ListIntOp))
  {
    match op
    case Dots => Ok(Bool(|xs| == y))
    case DotPlus => Ok(Bool(|xs| > y))
    case DotMinus => Ok(Bool(|xs| < y))
    case Plus => Ok(List(xs + [Int(y)]))
    case Minus => Ok(List(xs[..SliceBound(y, |xs|)] + xs[SliceBound(y + 1, |xs|)..]))
    case Slash =>
      (match PyIndex(y, |xs|)
       case Some(k) => Ok(xs[k])
       case None => Fail(IndexError))
    case _ => Fail(NumpadError(ListIntOp))
  }

  /**
   * `-` removes the element at index `y` when there is one, leaves the list
   * alone past its end, and for a negative `y` follows Python's slices: it
   * removes index `|xs| + y`, except that `-1` keeps everything but the last
   * element and then appends the whole list again, and an index before the
   * start keeps the whole list.
   */
  lemma ListRemove(xs: seq<Value>, y: int)
    ensures 0 <= y < |xs| ==> ListInt(Minus, xs, y) == Ok(List(xs[..y] + xs[y + 1..]))
    ensures y >= |xs| ==> ListInt(Minus, xs, y) == Ok(List(xs))
    ensures -|xs| <= y < -1 ==> ListInt(Minus, xs, y) == Ok(List(xs[..|xs| + y] + xs[|xs| + y + 1..]))
    ensures y == -1 && |xs| > 0 ==> ListInt(Minus, xs, y) == Ok(List(xs[..|xs| - 1] + xs))
    ensures y < -|xs| ==> ListInt(Minus, xs, y) == Ok(List(xs))
  {
    if y >= |xs| {
      assert xs[..|xs|] + xs[|xs|..] == xs;
    } else if y < -|xs| {
      assert xs[..0] + xs[0..] == xs;
    }
  }

  /** Appending `v` and then removing index `|xs|` gives back the original list. */
  lemma AppendRemoveRoundTrip(xs: seq<Value>, v: int)
    ensures ListInt(Plus, xs, v).Ok? && ListInt(Plus, xs, v).value.List?
    ensures ListInt(Minus, ListInt(Plus, xs, v).value.items, |xs|) == Ok(List(xs))
  {
    var ys := xs + [Int(v)];
    ListRemove(ys, |xs|);
    assert ys[..|xs|] + ys[|xs| + 1..] == xs;
  }

  /** True for the six symbols that have an entry in the list/int table. */
  predicate InListIntTable(op: Op)
  {
    op.Dots? || op.DotPlus? || op.DotMinus? || op.Plus? || op.Minus? || op.Slash?
  }

  /** True for the six symbols that have an entry in the list/list table. */
  predicate InListListTable(op: Op)
  {
    op.Dots? || op.DotPlus? || op.DotMinus? || op.Plus? || op.SlashPlus? || op.SlashMinus?
  }

  /**
   * `oper_list_list` (numpad.py:291-298) behind the check at numpad.py:356
   * exactly as written: the symbol is looked up in the list/int table, so
   * `/+` and `/-` fail that check, while `-` and `/` pass it and then miss in
   * the list/list table.
   */
  function ListListAsWritten(op: Op, xs: seq<Value>, ys: seq<Value>): (r: Result<Value>)
    ensures !InListIntTable(op) ==> r == Fail(NumpadError(ListListOp))
    ensures (op.Minus? || op.Slash?) ==> r == Fail(KeyError)
    ensures InListIntTable(op) && InListListTable(op) ==> r == ListList(op, xs, ys)
  {
    if !InListIntTable(op) then Fail(NumpadError(ListListOp))
    else if !InListListTable(op) then Fail(KeyError)
    else ListList(op, xs, ys)
  }

  /** The two subset tests, which the as-written check turns away, and the entries it lets through to a KeyError. */
  lemma ListListTableMismatch(xs: seq<Value>, ys: seq<Value>)
    ensures ListListAsWritten(SlashPlus, xs, ys) == Fail(NumpadError(ListListOp))
    ensures ListListAsWritten(SlashMinus, xs, ys) == Fail(NumpadError(ListListOp))
    ensures ListList(SlashPlus, [], []) == Ok(Bool(true))
    ensures ListListAsWritten(Minus, xs, ys) == Fail(KeyError)
    ensures ListList(Minus, xs, ys) == Fail(NumpadError(ListListOp))
  {
  }

  /** Python's `v in xs`: some element equals `v` under Python `==`. */
  predicate Contains(xs: seq<Value>, v: Value)
  {
    exists k :: 0 <= k < |xs| && PyEq(xs[k], v)
  }

  /** `all(i in x for i in y)`. */
  predicate Covers(xs: seq<Value>, ys: seq<Value>)
  {
    forall j :: 0 <= j < |ys| ==> Contains(xs, ys[j])
  }

  /**
   * `oper_list_list` behind the check the error message describes: a symbol
   * outside the list/list table raises NumpadError, and the table's entries
   * compare, concatenate or test for subsets.
   */
  function ListList(op: Op, xs: seq<Value>, ys: seq<Value>): (r: Result<Value>)
    ensures r.Fail? <==> !InListListTable(op)
    ensures r.Fail? ==> r.error == NumpadError(ListListOp)
    ensures op.Dots? ==> r == Ok(Bool(PyEq(List(xs), List(ys))))
    ensures op.DotPlus? ==> r == Ok(Bool(|xs| > |ys|))
    ensures op.DotMinus? ==> r == Ok(Bool(|xs| < |ys|))
    ensures op.Plus? ==> r == Ok(List(xs + ys))
    ensures (op.SlashPlus? || op.SlashMinus?) ==> r.Ok? && r.value.Bool?
  {
    match op
    case Dots => Ok(Bool(PyEq(List(xs), List(ys))))
    case DotPlus => Ok(Bool(|xs| > |ys|))
    case DotMinus => Ok(Bool(|xs| < |ys|))
    case Plus => Ok(List(xs + ys))
    case SlashPlus => Ok(Bool(Covers(xs, ys)))
    case SlashMinus => Ok(Bool(Covers(ys, xs)))
    case _ => Fail(NumpadError(ListListOp))
  }

  /** `/-` is `/+` with the operands swapped. */
  lemma SubsetTestsConverse(xs: seq<Value>, ys: seq<Value>)
    ensures ListList(SlashMinus, xs, ys) == ListList(SlashPlus, ys, xs)
  {
  }

  /**
   * Without bools in play, `x /+ y` is true exactly when every element of `y`
   * is an element of `x`.
   */
  lemma {:induction false} SubsetTestMeaning(xs: seq<Value>, ys: seq<Value>)
    requires forall k :: 0 <= k < |xs| ==> BoolFree(xs[k])
    requires forall k :: 0 <= k < |ys| ==> BoolFree(ys[k])
    ensures ListList(SlashPlus, xs, ys) == Ok(Bool(forall v :: v in ys ==> v in xs))
  {
    forall j | 0 <= j < |ys|
      ensures Contains(xs, ys[j]) <==> ys[j] in xs
    {
      if Contains(xs, ys[j]) {
        var k :| 0 <= k < |xs| && PyEq(xs[k], ys[j]);
        PyEqIsEquality(xs[k], ys[j]);
      }
      if ys[j] in xs {
        var k :| 0 <= k < |xs| && xs[k] == ys[j];
        PyEqIsEquality(xs[k], ys[j]);
      }
    }
  }

  /** What `OperExpression.evaluate` does once both operands are values. */
  datatype Dispatched =
    | Done(result: Result<Value>)
    | Invoke(defaults: seq<int>, body: seq<Stmt>, args: seq<Value>)

  /**
   * The type-pair dispatch of numpad.py:327-368: exact types, in the source's
   * order; a function with a list and `-` is a call, left to the caller.
   */
  function Dispatch(l: Value, op: Op, r: Value): (d: Dispatched)
    ensures d.Invoke? <==> l.Func? && r.List? && op.Minus?
    ensures d.Invoke? ==> d == Invoke(l.defaults, l.body, r.items)
    ensures l.Func? && r.List? && !op.Minus? ==> d == Done(Fail(NumpadError(FuncListOp)))
    ensures l.Int? && r.Int? ==> d == Done(IntInt(op, l.n, r.n))
    ensures l.List? && r.Int? ==> d == Done(ListInt(op, l.items, r.n))
    ensures l.List? && r.List? ==> d == Done(ListList(op, l.items, r.items))
    ensures (l.Bool? || r.Bool? || (l.Int? && r.List?) || (l.Func? && !r.List?) || (r.Func? && !l.Func?))
              ==> d == Done(Fail(NumpadError(TypesOp)))
  {
    if l.Int? && r.Int? then Done(IntInt(op, l.n, r.n))
    else if l.Func? && r.List? then
      (if !op.Minus? then Done(Fail(NumpadError(FuncListOp))) else Invoke(l.defaults, l.body, r.items))
    else if l.List? && r.Int? then Done(ListInt(op, l.items, r.n))
    else if l.List? && r.List? then Done(ListList(op, l.items, r.items))
    else Done(Fail(NumpadError(TypesOp)))
  }

  /** A list comparison returns a Python bool, and using that bool as an operand fails. */
  lemma ComparisonBoolIsNotAnOperand(xs: seq<Value>, y: int, op: Op, z: Value)
    ensures ListInt(DotPlus, xs, y).Ok? && ListInt(DotPlus, xs, y).value.Bool?
    ensures Dispatch(ListInt(DotPlus, xs, y).value, op, z) == Done(Fail(NumpadError(TypesOp)))
    ensures Dispatch(z, op, ListInt(DotPlus, xs, y).value) == Done(Fail(NumpadError(TypesOp)))
  {
  }
}
