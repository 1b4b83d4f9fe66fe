/**
 * Properties of the numpad semantics: what a call answers, how blocks
 * compose, when `If` and `While` run their bodies, how the default fill
 * behaves, and that the fuel bound only ever cuts a run short.
 */
module Laws {
  import opened Python
  import opened Values
  import opened Scopes
  import opened Semantics

  // ---------------------------------------------------------------------
  // Calls

  /** Given arguments are never dropped or replaced, and filling twice changes nothing. */
  lemma FillIdempotent(args: seq<Value>, defaults: seq<int>)
    ensures Fill(Fill(args, defaults), defaults) == Fill(args, defaults)
    ensures |args| >= |defaults| ==> Fill(args, defaults) == args
  {
  }

  /** A one-argument call of a two-default function keeps the argument and takes the second default. */
  lemma FillExample()
    ensures Fill([Int(5)], [10, 20]) == [Int(5), Int(20)]
  {
    var f := Fill([Int(5)], [10, 20]);
    assert |f| == 2 && f[..1] == [Int(5)] && f[1] == Int(20);
  }

  /**
   * A call whose body finishes answers the `*00` of its own child scope,
   * which always exists, so a finished body never leaves the call without an
   * answer, whatever the caller's scopes hold.
   */
  lemma CallAnswersChildAccumulator(args: seq<Value>, body: seq<Stmt>, env: Env, fuel: nat)
    requires |env| > 0
    ensures var run := ExecBlock(body, [CallFrame(args)] + env, fuel);
      run.result.Ok? ==>
        && Accumulator in run.env[0]
        && Call(args, body, env, fuel) == Outcome(Ok(run.env[0][Accumulator]), run.env[1..])
    ensures var run := ExecBlock(body, [CallFrame(args)] + env, fuel);
      run.result.Fail? ==> Call(args, body, env, fuel) == Outcome(Fail(run.result.error), run.env[1..])
  {
    var run := ExecBlock(body, [CallFrame(args)] + env, fuel);
    if run.result.Ok? {
      assert Accumulator in run.env[0];
      assert BoundAt(run.env, Accumulator, 0);
    }
  }

  /** A function with an empty body answers 0 and leaves the caller's scopes alone. */
  lemma EmptyBodyAnswersZero(args: seq<Value>, env: Env, fuel: nat)
    requires |env| > 0
    ensures Call(args, [], env, fuel) == Outcome(Ok(Int(0)), env)
  {
    assert ([CallFrame(args)] + env)[1..] == env;
  }

  /** A block of one statement is that statement. */
  lemma SingleStatementBlock(st: Stmt, env: Env, fuel: nat)
    requires |env| > 0
    ensures ExecBlock([st], env, fuel) == Exec(st, env, fuel)
  {
    assert [st][1..] == [];
    var first := Exec(st, env, fuel);
    if first.result.Ok? {
      var u: () := first.result.value;
      assert u == ();
      assert first.result == Ok(());
    }
  }

  /** `*00 = *01` makes a function that answers its first argument. */
  lemma IdentityFunction(v: Value, env: Env, fuel: nat)
    requires |env| > 0
    ensures Call([v], [Set(Accumulator, Var(Slot(1)))], env, fuel) == Outcome(Ok(v), env)
  {
    var start := [CallFrame([v])] + env;
    FirstArgument(v, start, fuel);
    var after := SetLocal(start, Accumulator, v);
    SingleStatementBlock(Set(Accumulator, Var(Slot(1))), start, fuel);
    assert after[1..] == env;
    CallAnswersChildAccumulator([v], [Set(Accumulator, Var(Slot(1)))], env, fuel);
  }

  lemma FirstArgument(v: Value, start: Env, fuel: nat)
    requires |start| > 0 && start[0] == CallFrame([v])
    ensures Exec(Set(Accumulator, Var(Slot(1))), start, fuel) == Outcome(Ok(()), SetLocal(start, Accumulator, v))
  {
    assert Slot(0 + 1) in start[0] && start[0][Slot(0 + 1)] == v;
    assert Lookup(start, Slot(1)) == Ok(v);
  }

  // ---------------------------------------------------------------------
  // Statements

  /** Running `a + b` is running `a` and then, if it did not fail, `b` where `a` left off. */
  lemma {:induction false} BlockSequencing(a: seq<Stmt>, b: seq<Stmt>, env: Env, fuel: nat)
    requires |env| > 0
    ensures var first := ExecBlock(a, env, fuel);
      ExecBlock(a + b, env, fuel) == if first.result.Fail? then first else ExecBlock(b, first.env, fuel)
    decreases |a|
  {
    if a != [] {
      assert (a + b)[0] == a[0] && (a + b)[1..] == a[1..] + b;
      var o := Exec(a[0], env, fuel);
      if o.result.Ok? {
        BlockSequencing(a[1..], b, o.env, fuel);
      }
    } else {
      assert a + b == b;
    }
  }

  /**
   * A `While` that finishes is an `If` whose block is the loop's block
   * followed by the same `While`: the first test and pass can be peeled off
   * without changing the result or the scopes.
   */
  lemma WhileIsIfThenWhile(c: Expr, body: seq<Stmt>, env: Env, fuel: nat)
    requires |env| > 0 && fuel > 0 && Finished(Exec(While(c, body), env, fuel))
    ensures Exec(If(c, body + [While(c, body)]), env, fuel) == Exec(While(c, body), env, fuel)
  {
    var oc := Eval(c, env, fuel);
    if oc.result.Fail? {
      assert Exec(While(c, body), env, fuel) == Loop(c, body, env, fuel);
    } else if !Truthy(oc.result.value) {
      WhileFalsyRunsZeroTimes(c, body, env, fuel);
    } else {
      WhileUnrolls(c, body, env, fuel);
      var ob := ExecBlock(body, oc.env, fuel);
      BlockSequencing(body, [While(c, body)], oc.env, fuel);
      if ob.result.Ok? {
        SingleStatementBlock(While(c, body), ob.env, fuel);
        ExecFuel(While(c, body), ob.env, fuel - 1, fuel);
      }
    }
  }

  /** A `While` whose condition starts falsy evaluates it once and runs its block zero times. */
  lemma WhileFalsyRunsZeroTimes(c: Expr, body: seq<Stmt>, env: Env, fuel: nat)
    requires |env| > 0
    requires Eval(c, env, fuel).result.Ok? && !Truthy(Eval(c, env, fuel).result.value)
    ensures Exec(While(c, body), env, fuel) == Outcome(Ok(()), Eval(c, env, fuel).env)
  {
    var oc := Eval(c, env, fuel);
    assert Loop(c, body, env, fuel) == Continue(c, body, oc.result.value, oc.env, fuel);
  }

  /**
   * A truthy `While` runs its block and then behaves like the same loop
   * started afresh from where the block left off.
   */
  lemma WhileUnrolls(c: Expr, body: seq<Stmt>, env: Env, fuel: nat)
    requires |env| > 0 && fuel > 0
    requires Eval(c, env, fuel).result.Ok? && Truthy(Eval(c, env, fuel).result.value)
    ensures var ob := ExecBlock(body, Eval(c, env, fuel).env, fuel);
      Exec(While(c, body), env, fuel) == if ob.result.Fail? then ob else Exec(While(c, body), ob.env, fuel - 1)
  {
    var oc := Eval(c, env, fuel);
    assert Exec(While(c, body), env, fuel) == Loop(c, body, env, fuel);
    assert Loop(c, body, env, fuel) == Continue(c, body, oc.result.value, oc.env, fuel);
    assert Continue(c, body, oc.result.value, oc.env, fuel) == Turn(c, body, oc.env, fuel);
    var ob := ExecBlock(body, oc.env, fuel);
    if ob.result.Ok? {
      assert Turn(c, body, oc.env, fuel) == Loop(c, body, ob.env, fuel - 1);
      assert Exec(While(c, body), ob.env, fuel - 1) == Loop(c, body, ob.env, fuel - 1);
    }
  }

  // ---------------------------------------------------------------------
  // Fuel

  predicate Finished<T>(o: Outcome<T>)
  {
    o.result != Fail(OutOfFuel)
  }

  /**
   * More fuel never changes a run that finished: the bound only ever turns a
   * run into `OutOfFuel`, it never alters a result or a scope.
   */
  lemma {:induction false} EvalFuel(e: Expr, env: Env, fuel: nat, more: nat)
    requires |env| > 0 && fuel <= more && Finished(Eval(e, env, fuel))
    ensures Eval(e, env, more) == Eval(e, env, fuel)
    decreases fuel, e, 1
  {
    match e
    case Num(_) =>
    case Var(_) =>
    case ListExpr(items) =>
      EvalItemsFuel(items, env, fuel, more);
    case Oper(l, op, r) =>
      var ol := Eval(l, env, fuel);
      EvalFuel(l, env, fuel, more);
      if ol.result.Ok? {
        var or := Eval(r, ol.env, fuel);
        EvalFuel(r, ol.env, fuel, more);
        if or.result.Ok? {
          ApplyFuel(e, ol.result.value, or.result.value, or.env, fuel, more);
        }
      }
  }

  lemma {:induction false} ApplyFuel(e: Expr, left: Value, right: Value, env: Env, fuel: nat, more: nat)
    requires e.Oper? && |env| > 0
    requires e.right.Var? ==> Lookup(env, e.right.name) == Ok(right)
    requires fuel <= more && Finished(Apply(e, left, right, env, fuel))
    ensures Apply(e, left, right, env, more) == Apply(e, left, right, env, fuel)
    decreases fuel, e, 0
  {
    match Dispatch(left, e.op, right)
    case Done(_) =>
    case Invoke(defaults, body, args) =>
      InvocationFuel(e.right, defaults, body, args, env, fuel, more);
  }

  lemma {:induction false} InvocationFuel(arg: Expr, defaults: seq<int>, body: seq<Stmt>, args: seq<Value>,
                                          env: Env, fuel: nat, more: nat)
    requires |env| > 0
    requires arg.Var? ==> Lookup(env, arg.name) == Ok(List(args))
    requires fuel <= more && Finished(Invocation(arg, defaults, body, args, env, fuel))
    ensures Invocation(arg, defaults, body, args, env, more) == Invocation(arg, defaults, body, args, env, fuel)
    decreases fuel, arg, 0
  {
    if fuel > 0 {
      InvocationEnters(arg, defaults, body, args, env, fuel);
      InvocationEnters(arg, defaults, body, args, env, more);
      EnterFuel(arg, defaults, body, args, env, fuel - 1, more - 1);
    }
  }

  /** With fuel left, an invocation is the call one unit lower. */
  lemma InvocationEnters(arg: Expr, defaults: seq<int>, body: seq<Stmt>, args: seq<Value>, env: Env, fuel: nat)
    requires |env| > 0 && fuel > 0
    requires arg.Var? ==> Lookup(env, arg.name) == Ok(List(args))
    ensures Invocation(arg, defaults, body, args, env, fuel) == Enter(arg, defaults, body, args, env, fuel - 1)
  {
  }

  lemma {:induction false} EnterFuel(arg: Expr, defaults: seq<int>, body: seq<Stmt>, args: seq<Value>,
                                     env: Env, fuel: nat, more: nat)
    requires |env| > 0
    requires arg.Var? ==> Lookup(env, arg.name) == Ok(List(args))
    requires fuel <= more && Finished(Enter(arg, defaults, body, args, env, fuel))
    ensures Enter(arg, defaults, body, args, env, more) == Enter(arg, defaults, body, args, env, fuel)
    decreases fuel, body, 2
  {
    var filled := Fill(args, defaults);
    CallFuel(filled, body, ShareFilled(arg, env, args, filled), fuel, more);
  }

  lemma {:induction false} EvalItemsFuel(items: seq<Expr>, env: Env, fuel: nat, more: nat)
    requires |env| > 0 && fuel <= more && Finished(EvalItems(items, env, fuel))
    ensures EvalItems(items, env, more) == EvalItems(items, env, fuel)
    decreases fuel, items, 0
  {
    if items != [] {
      var first := Eval(items[0], env, fuel);
      EvalFuel(items[0], env, fuel, more);
      if first.result.Ok? {
        EvalItemsFuel(items[1..], first.env, fuel, more);
      }
    }
  }

  lemma {:induction false} CallFuel(args: seq<Value>, body: seq<Stmt>, env: Env, fuel: nat, more: nat)
    requires |env| > 0 && fuel <= more && Finished(Call(args, body, env, fuel))
    ensures Call(args, body, env, more) == Call(args, body, env, fuel)
    decreases fuel, body, 1
  {
    var run := ExecBlock(body, [CallFrame(args)] + env, fuel);
    if run.result.Ok? {
      assert Finished(run);
    }
    ExecBlockFuel(body, [CallFrame(args)] + env, fuel, more);
  }

  lemma {:induction false} ExecFuel(s: Stmt, env: Env, fuel: nat, more: nat)
    requires |env| > 0 && fuel <= more && Finished(Exec(s, env, fuel))
    ensures Exec(s, env, more) == Exec(s, env, fuel)
    decreases fuel, s, 2
  {
    match s
    case Set(_, e) =>
      EvalFuel(e, env, fuel, more);
    case Def(_, _, _) =>
    case If(c, body) =>
      var oc := Eval(c, env, fuel);
      EvalFuel(c, env, fuel, more);
      if oc.result.Ok? && Truthy(oc.result.value) {
        ExecBlockFuel(body, oc.env, fuel, more);
      }
    case While(c, body) =>
      LoopFuel(c, body, env, fuel, more);
  }

  lemma {:induction false} ExecBlockFuel(stmts: seq<Stmt>, env: Env, fuel: nat, more: nat)
    requires |env| > 0 && fuel <= more && Finished(ExecBlock(stmts, env, fuel))
    ensures ExecBlock(stmts, env, more) == ExecBlock(stmts, env, fuel)
    decreases fuel, stmts, 0
  {
    if stmts != [] {
      var first := Exec(stmts[0], env, fuel);
      ExecFuel(stmts[0], env, fuel, more);
      if first.result.Ok? {
        ExecBlockFuel(stmts[1..], first.env, fuel, more);
      }
    }
  }

  lemma {:induction false} LoopFuel(c: Expr, body: seq<Stmt>, env: Env, fuel: nat, more: nat)
    requires |env| > 0 && fuel <= more && Finished(Loop(c, body, env, fuel))
    ensures Loop(c, body, env, more) == Loop(c, body, env, fuel)
    decreases fuel, While(c, body), 1
  {
    var oc := Eval(c, env, fuel);
    EvalFuel(c, env, fuel, more);
    if oc.result.Ok? {
      ContinueFuel(c, body, oc.result.value, oc.env, fuel, more);
    }
  }

  lemma {:induction false} ContinueFuel(c: Expr, body: seq<Stmt>, v: Value, env: Env, fuel: nat, more: nat)
    requires |env| > 0 && fuel <= more && Finished(Continue(c, body, v, env, fuel))
    ensures Continue(c, body, v, env, more) == Continue(c, body, v, env, fuel)
    decreases fuel, While(c, body), 0
  {
    if Truthy(v) && fuel > 0 {
      TurnFuel(c, body, env, fuel, more);
    }
  }

  lemma {:induction false} TurnFuel(c: Expr, body: seq<Stmt>, env: Env, fuel: nat, more: nat)
    requires |env| > 0 && 0 < fuel <= more && Finished(Turn(c, body, env, fuel))
    ensures Turn(c, body, env, more) == Turn(c, body, env, fuel)
    decreases fuel, body, 1
  {
    var ob := ExecBlock(body, env, fuel);
    ExecBlockFuel(body, env, fuel, more);
    if ob.result.Ok? {
      LoopFuel(c, body, ob.env, fuel - 1, more - 1);
    }
  }
}
