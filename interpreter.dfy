/**
 * The interpreter as the source runs it: `evaluate` and `run` methods that
 * read and write a chain of `Scope` objects in place (numpad.py:171-502).
 * Every method is proved to leave the result and the scope chain that the
 * pure semantics in module `Semantics` prescribes for the same fuel.
 */
module Interpreter {
  import opened Python
  import opened Values
  import opened Scopes
  import opened Semantics

  /** `Expression.evaluate` and `OperExpression.evaluate`. */
  method EvaluateExpr(e: Expr, scope: Scope, fuel: nat) returns (r: Result<Value>)
    requires scope.Linked()
    modifies scope.Ancestors()
    ensures Outcome(r, scope.Frames()) == Eval(e, old(scope.Frames()), fuel)
    decreases fuel, e, 1
  {
    match e
    case Num(n) =>
      r := Ok(Int(n));
    case Var(x) =>
      r := scope.Evaluate(x);
    case ListExpr(items) =>
      var vs := EvaluateItems(items, scope, fuel);
      r := if vs.Ok? then Ok(List(vs.value)) else Fail(vs.error);
    case Oper(left, op, right) =>
      var l := EvaluateExpr(left, scope, fuel);
      if l.Fail? {
        return Fail(l.error);
      }
      var v := EvaluateExpr(right, scope, fuel);
      if v.Fail? {
        return Fail(v.error);
      }
      r := ApplyOperator(e, l.value, v.value, scope, fuel);
  }

  /** The dispatch on the operands' types, with the division loop and the call case. */
  method ApplyOperator(e: Expr, left: Value, right: Value, scope: Scope, fuel: nat) returns (r: Result<Value>)
    requires e.Oper? && scope.Linked()
    requires e.right.Var? ==> scope.Evaluate(e.right.name) == Ok(right)
    modifies scope.Ancestors()
    ensures Outcome(r, scope.Frames()) == Apply(e, left, right, old(scope.Frames()), fuel)
    decreases fuel, e, 0
  {
    if left.Int? && right.Int? && e.op.Slash? && right.n != 0 {
      r := DivideOperands(left.n, right.n);
      return;
    }
    var d := Dispatch(left, e.op, right);
    if d.Done? {
      r := d.result;
    } else {
      r := InvokeFunction(e.right, d.defaults, d.body, d.args, scope, fuel);
    }
  }

  /** `_divide_int_int` applied to two integer operands, answered as a two-item list. */
  method DivideOperands(x: int, y: int) returns (r: Result<Value>)
    requires y != 0
    ensures r == IntInt(Slash, x, y)
  {
    var mantissa, power := DivideIntInt(x, y);
    r := Ok(List([Int(mantissa), Int(power)]));
  }

  /**
   * `val_l.run(scope, val_r)`: spend one unit of fuel, fill the defaults in,
   * write the filled list back through the variable `arg` names, and call.
   */
  method InvokeFunction(arg: Expr, defaults: seq<int>, body: seq<Stmt>, args: seq<Value>, scope: Scope, fuel: nat)
    returns (r: Result<Value>)
    requires scope.Linked()
    requires arg.Var? ==> scope.Evaluate(arg.name) == Ok(List(args))
    modifies scope.Ancestors()
    ensures Outcome(r, scope.Frames()) == Invocation(arg, defaults, body, args, old(scope.Frames()), fuel)
    decreases fuel, arg, 0
  {
    if fuel == 0 {
      return Fail(OutOfFuel);
    }
    ghost var env := scope.Frames();
    var filled := Fill(args, defaults);
    if arg.Var? {
      scope.Rebind(arg.name, List(filled));
    }
    assert scope.Frames() == ShareFilled(arg, env, args, filled);
    r := RunCall(filled, body, scope, fuel - 1);
    assert Outcome(r, scope.Frames()) == Enter(arg, defaults, body, args, env, fuel - 1);
  }

  /** What the list comprehension has produced so far, in front of what the rest produces. */
  ghost function Prefixed(vs: seq<Value>, o: Outcome<seq<Value>>): Outcome<seq<Value>>
  {
    if o.result.Ok? then Outcome(Ok(vs + o.result.value), o.env) else o
  }

  /** `[ele.evaluate(scope) for ele in self._value]`. */
  method EvaluateItems(items: seq<Expr>, scope: Scope, fuel: nat) returns (r: Result<seq<Value>>)
    requires scope.Linked()
    modifies scope.Ancestors()
    ensures Outcome(r, scope.Frames()) == EvalItems(items, old(scope.Frames()), fuel)
    decreases fuel, items, 0
  {
    var vs := [];
    assert items[0..] == items;
    ghost var all := EvalItems(items, scope.Frames(), fuel);
    assert all.result.Ok? ==> [] + all.result.value == all.result.value;
    for i := 0 to |items|
      invariant EvalItems(items, old(scope.Frames()), fuel) == Prefixed(vs, EvalItems(items[i..], scope.Frames(), fuel))
    {
      ItemsStep(items, i, vs, scope.Frames(), fuel);
      var v := EvaluateExpr(items[i], scope, fuel);
      if v.Fail? {
        return Fail(v.error);
      }
      vs := vs + [v.value];
    }
    assert items[|items|..] == [];
    assert vs + [] == vs;
    r := Ok(vs);
  }

  /** Evaluating item `i` either stops the comprehension or moves its value into the prefix. */
  lemma ItemsStep(items: seq<Expr>, i: nat, vs: seq<Value>, env: Env, fuel: nat)
    requires |env| > 0 && i < |items|
    ensures var first := Eval(items[i], env, fuel);
      Prefixed(vs, EvalItems(items[i..], env, fuel))
      == if first.result.Fail? then Outcome(Fail(first.result.error), first.env)
         else Prefixed(vs + [first.result.value], EvalItems(items[i + 1..], first.env, fuel))
  {
    assert items[i..][1..] == items[i + 1..] && items[i..][0] == items[i];
    var first := Eval(items[i], env, fuel);
    if first.result.Ok? {
      var rest := EvalItems(items[i + 1..], first.env, fuel);
      assert rest.result.Ok? ==> vs + ([first.result.value] + rest.result.value) == (vs + [first.result.value]) + rest.result.value;
    }
  }

  /**
   * `FuncExpression.run` after the default fill: a child scope holding the
   * arguments in `*01`, `*02`, …, `*00` set to 0, the body run there, and the
   * child's `*00` as the answer.
   */
  method RunCall(args: seq<Value>, body: seq<Stmt>, scope: Scope, fuel: nat) returns (r: Result<Value>)
    requires scope.Linked()
    modifies scope.Ancestors()
    ensures Outcome(r, scope.Frames()) == Call(args, body, old(scope.Frames()), fuel)
    decreases fuel, body, 1
  {
    ghost var env := scope.Frames();
    var child := scope.Child(SlotFrame(args, 1));
    assert scope.Frames() == env;
    child.SetValue(Accumulator, Int(0));
    assert ([SlotFrame(args, 1)] + env)[1..] == env;
    assert child.Frames() == [CallFrame(args)] + env;
    var done := RunBlock(body, child, fuel);
    assert child.Frames() == [child.vars] + scope.Frames();
    assert child.Frames()[1..] == scope.Frames();
    if done.Fail? {
      return Fail(done.error);
    }
    r := child.Evaluate(Accumulator);
  }

  /** The `run` method of each statement class. */
  method RunStatement(s: Stmt, scope: Scope, fuel: nat) returns (r: Result<()>)
    requires scope.Linked()
    modifies scope.Ancestors()
    ensures Outcome(r, scope.Frames()) == Exec(s, old(scope.Frames()), fuel)
    decreases fuel, s, 2
  {
    match s
    case Set(x, e) =>
      var v := EvaluateExpr(e, scope, fuel);
      if v.Fail? {
        return Fail(v.error);
      }
      scope.SetValue(x, v.value);
      r := Ok(());
    case Def(x, defaults, body) =>
      scope.SetValue(x, Func(defaults, body));
      r := Ok(());
    case If(c, body) =>
      var v := EvaluateExpr(c, scope, fuel);
      if v.Fail? {
        return Fail(v.error);
      }
      if Truthy(v.value) {
        r := RunBlock(body, scope, fuel);
      } else {
        r := Ok(());
      }
    case While(c, body) =>
      r := RunWhile(c, body, scope, fuel);
  }

  /** `StatementBlock.run`: each statement in turn, in the same scope. */
  method RunBlock(stmts: seq<Stmt>, scope: Scope, fuel: nat) returns (r: Result<()>)
    requires scope.Linked()
    modifies scope.Ancestors()
    ensures Outcome(r, scope.Frames()) == ExecBlock(stmts, old(scope.Frames()), fuel)
    decreases fuel, stmts, 0
  {
    for i := 0 to |stmts|
      invariant ExecBlock(stmts, old(scope.Frames()), fuel) == ExecBlock(stmts[i..], scope.Frames(), fuel)
    {
      assert stmts[i..][1..] == stmts[i + 1..];
      var done := RunStatement(stmts[i], scope, fuel);
      if done.Fail? {
        return Fail(done.error);
      }
    }
    assert stmts[|stmts|..] == [];
    r := Ok(());
  }

  /** `StatementWhile.run`: test, run the block, test again, until the value is falsy. */
  method RunWhile(c: Expr, body: seq<Stmt>, scope: Scope, fuel: nat) returns (r: Result<()>)
    requires scope.Linked()
    modifies scope.Ancestors()
    ensures Outcome(r, scope.Frames()) == Loop(c, body, old(scope.Frames()), fuel)
    decreases fuel, While(c, body), 1
  {
    var value := EvaluateExpr(c, scope, fuel);
    if value.Fail? {
      return Fail(value.error);
    }
    r := RunLoop(c, body, value.value, scope, fuel);
  }

  /** The loop of `StatementWhile.run` once the condition has been evaluated to `v`. */
  method RunLoop(c: Expr, body: seq<Stmt>, v: Value, scope: Scope, fuel: nat) returns (r: Result<()>)
    requires scope.Linked()
    modifies scope.Ancestors()
    ensures Outcome(r, scope.Frames()) == Continue(c, body, v, old(scope.Frames()), fuel)
    decreases fuel, While(c, body), 0
  {
    var value := v;
    var f: nat := fuel;
    while Truthy(value)
      invariant f <= fuel
      invariant Continue(c, body, v, old(scope.Frames()), fuel) == Continue(c, body, value, scope.Frames(), f)
      decreases f
    {
      if f == 0 {
        return Fail(OutOfFuel);
      }
      var next := LoopTurn(c, body, scope, f);
      if next.Fail? {
        return Fail(next.error);
      }
      value := next.value;
      f := f - 1;
    }
    r := Ok(());
  }

  /** One pass of `StatementWhile.run` after a truthy test: run the block, then test again. */
  method LoopTurn(c: Expr, body: seq<Stmt>, scope: Scope, f: nat) returns (r: Result<Value>)
    requires scope.Linked() && f > 0
    modifies scope.Ancestors()
    ensures Turn(c, body, old(scope.Frames()), f)
            == if r.Fail? then Outcome(Fail(r.error), scope.Frames()) else Continue(c, body, r.value, scope.Frames(), f - 1)
    decreases f, body, 1
  {
    var done := RunBlock(body, scope, f);
    if done.Fail? {
      return Fail(done.error);
    }
    r := EvaluateExpr(c, scope, f - 1);
  }
}
