/**
 * The meaning of a numpad program as pure functions: evaluating an
 * expression and running a statement, a block, a loop and a call over a
 * scope chain `Env` (numpad.py:171-230, 311-368, 386-502).
 *
 * Loops and recursive calls need not terminate, so every function takes a
 * `fuel` bound: a loop iteration or a call spends one unit, and a run that
 * would need more ends in `OutOfFuel`.
 */
module Semantics {
  import opened Python
  import opened Values
  import opened Scopes

  /** What a step produced, together with the scope chain as it stands afterwards. */
  datatype Outcome<+T> = Outcome(result: Result<T>, env: Env)

  // ---------------------------------------------------------------------
  // How a run may change the scope chain

  /** `b` is `a`, or both are lists and `a`'s items start `b`'s. */
  predicate Extends(a: Value, b: Value)
  {
    a == b || (a.List? && b.List? && a.items <= b.items)
  }

  predicate FrameGrown(f: Frame, g: Frame)
  {
    f.Keys == g.Keys && forall x :: x in f ==> Extends(f[x], g[x])
  }

  /**
   * Evaluating an expression binds nothing and rebinds nothing: the only
   * change it can make is a list that a call filled up with defaults.
   */
  predicate Grown(env: Env, env': Env)
  {
    |env'| == |env| && forall k :: 0 <= k < |env| ==> FrameGrown(env[k], env'[k])
  }

  /**
   * Running a statement may bind names in the current scope only; the
   * enclosing scopes keep their names, and their values change only by growth.
   */
  predicate Settled(env: Env, env': Env)
  {
    |env| > 0 && |env'| == |env| && env[0].Keys <= env'[0].Keys && Grown(env[1..], env'[1..])
  }

  lemma GrownTrans(a: Env, b: Env, c: Env)
    requires Grown(a, b) && Grown(b, c)
    ensures Grown(a, c)
  {
    forall k | 0 <= k < |a| ensures FrameGrown(a[k], c[k]) {
      forall x | x in a[k] ensures Extends(a[k][x], c[k][x]) {
        assert Extends(a[k][x], b[k][x]) && Extends(b[k][x], c[k][x]);
      }
    }
  }

  lemma GrownTail(a: Env, b: Env)
    requires |a| > 0 && Grown(a, b)
    ensures Grown(a[1..], b[1..])
  {
    forall k | 0 <= k < |a| - 1 ensures FrameGrown(a[1..][k], b[1..][k]) {
      assert FrameGrown(a[k + 1], b[k + 1]);
    }
  }

  lemma GrownSettled(a: Env, b: Env, c: Env)
    requires |a| > 0 && Grown(a, b) && Settled(b, c)
    ensures Settled(a, c)
  {
    assert FrameGrown(a[0], b[0]);
    GrownTail(a, b);
    GrownTrans(a[1..], b[1..], c[1..]);
  }

  lemma SettledTrans(a: Env, b: Env, c: Env)
    requires Settled(a, b) && Settled(b, c)
    ensures Settled(a, c)
  {
    GrownTrans(a[1..], b[1..], c[1..]);
  }

  /** Replacing a variable's list by a longer list starting with it is growth. */
  lemma RebindGrows(env: Env, name: string, items: seq<Value>, longer: seq<Value>)
    requires |env| > 0 && Lookup(env, name) == Ok(List(items)) && items <= longer
    ensures Grown(env, RebindNearest(env, name, List(longer)))
  {
    var r := RebindNearest(env, name, List(longer));
    LookupFinds(env, name);
    var k0 :| BoundAt(env, name, k0) && env[k0][name] == List(items);
    forall k | 0 <= k < |env| ensures FrameGrown(env[k], r[k]) {
      forall x | x in env[k] ensures Extends(env[k][x], r[k][x]) {
        if x == name && BoundAt(env, name, k) {
          BoundAtUnique(env, name, k, k0);
        }
      }
    }
  }

  // ---------------------------------------------------------------------
  // Calls

  function Ints(ns: seq<int>): (vs: seq<Value>)
    ensures |vs| == |ns| && forall i :: 0 <= i < |ns| ==> vs[i] == Int(ns[i])
  {
    seq(|ns|, i requires 0 <= i < |ns| => Int(ns[i]))
  }

  /**
   * `params[len(params):] = self._param[len(params):]`: the arguments given
   * stay, and the defaults supply every position past them.
   */
  function Fill(args: seq<Value>, defaults: seq<int>): (filled: seq<Value>)
    ensures |filled| == if |args| < |defaults| then |defaults| else |args|
    ensures args <= filled
    ensures forall i :: |args| <= i < |defaults| ==> filled[i] == Int(defaults[i])
  {
    if |args| < |defaults| then args + Ints(defaults[|args|..]) else args
  }

  /**
   * The scope chain once the argument list has been filled in place: when
   * the list came straight from a variable, that variable now shows the
   * filled list; a list built by the expression itself is seen by no one else.
   */
  function ShareFilled(arg: Expr, env: Env, args: seq<Value>, filled: seq<Value>): (env': Env)
    requires |env| > 0 && args <= filled
    requires arg.Var? ==> Lookup(env, arg.name) == Ok(List(args))
    ensures Grown(env, env')
    ensures arg.Var? ==> Lookup(env', arg.name) == Ok(List(filled))
    ensures !arg.Var? ==> env' == env
  {
    if arg.Var? then
      RebindGrows(env, arg.name, args, filled);
      RebindFinds(env, arg.name, List(args), List(filled));
      RebindNearest(env, arg.name, List(filled))
    else env
  }

  /** After the rebinding, the name reads the new value. */
  lemma RebindFinds(env: Env, name: string, was: Value, v: Value)
    requires |env| > 0 && Lookup(env, name) == Ok(was)
    ensures Lookup(RebindNearest(env, name, v), name) == Ok(v)
  {
    LookupFinds(env, name);
    var k :| BoundAt(env, name, k);
    assert BoundAt(RebindNearest(env, name, v), name, k);
    LookupAt(RebindNearest(env, name, v), name, k);
  }

  /** The frame of a fresh call: the arguments in `*01`, `*02`, … and `*00` set to 0. */
  function CallFrame(args: seq<Value>): (f: Frame)
    ensures Accumulator in f && f[Accumulator] == Int(0)
    ensures forall i :: 0 <= i < |args| ==> Slot(i + 1) in f && f[Slot(i + 1)] == args[i]
  {
    var f := SlotFrame(args, 1)[Accumulator := Int(0)];
    forall j: nat | 1 <= j ensures Slot(j) != Accumulator {
      if Slot(j) == Accumulator { SlotInjective(j, 0); }
    }
    f
  }

  // ---------------------------------------------------------------------
  // Expressions and statements

  /** `Expression.evaluate` and `OperExpression.evaluate`. */
  function Eval(e: Expr, env: Env, fuel: nat): (o: Outcome<Value>)
    requires |env| > 0
    ensures Grown(env, o.env)
    decreases fuel, e, 1
  {
    match e
    case Num(n) => Outcome(Ok(Int(n)), env)
    case Var(x) => Outcome(Lookup(env, x), env)
    case ListExpr(items) =>
      var o := EvalItems(items, env, fuel);
      Outcome(if o.result.Ok? then Ok(List(o.result.value)) else Fail(o.result.error), o.env)
    case Oper(l, op, r) =>
      var ol := Eval(l, env, fuel);
      if ol.result.Fail? then Outcome(Fail(ol.result.error), ol.env)
      else
        var or := Eval(r, ol.env, fuel);
        GrownTrans(env, ol.env, or.env);
        if or.result.Fail? then Outcome(Fail(or.result.error), or.env)
        else
          var o := Apply(e, ol.result.value, or.result.value, or.env, fuel);
          GrownTrans(env, or.env, o.env);
          o
  }

  /**
   * The rest of `OperExpression.evaluate` once both operands of `e` have
   * values: an operator table, an error, or a call of the left operand.
   */
  function Apply(e: Expr, left: Value, right: Value, env: Env, fuel: nat): (o: Outcome<Value>)
    requires e.Oper? && |env| > 0
    requires e.right.Var? ==> Lookup(env, e.right.name) == Ok(right)
    ensures Grown(env, o.env)
    decreases fuel, e, 0
  {
    match Dispatch(left, e.op, right)
    case Done(res) => Outcome(res, env)
    case Invoke(defaults, body, args) => Invocation(e.right, defaults, body, args, env, fuel)
  }

  /**
   * `val_l.run(scope, val_r)`: one unit of fuel, then the call as `Enter`
   * describes it.
   */
  function Invocation(arg: Expr, defaults: seq<int>, body: seq<Stmt>, args: seq<Value>, env: Env, fuel: nat)
    : (o: Outcome<Value>)
    requires |env| > 0
    requires arg.Var? ==> Lookup(env, arg.name) == Ok(List(args))
    ensures Grown(env, o.env)
    decreases fuel, arg, 0
  {
    if fuel == 0 then Outcome(Fail(OutOfFuel), env)
    else Enter(arg, defaults, body, args, env, fuel - 1)
  }

  /**
   * The call once its unit of fuel is spent: the default fill, written back
   * through the variable `arg` names (if it is one), then the body.
   */
  function Enter(arg: Expr, defaults: seq<int>, body: seq<Stmt>, args: seq<Value>, env: Env, fuel: nat)
    : (o: Outcome<Value>)
    requires |env| > 0
    requires arg.Var? ==> Lookup(env, arg.name) == Ok(List(args))
    ensures Grown(env, o.env)
    decreases fuel, body, 2
  {
    var filled := Fill(args, defaults);
    var env1 := ShareFilled(arg, env, args, filled);
    var o := Call(filled, body, env1, fuel);
    GrownTrans(env, env1, o.env);
    o
  }

  /** `[ele.evaluate(scope) for ele in self._value]`: left to right. */
  function EvalItems(items: seq<Expr>, env: Env, fuel: nat): (o: Outcome<seq<Value>>)
    requires |env| > 0
    ensures Grown(env, o.env)
    ensures o.result.Ok? ==> |o.result.value| == |items|
    decreases fuel, items, 0
  {
    if items == [] then Outcome(Ok([]), env)
    else
      var first := Eval(items[0], env, fuel);
      if first.result.Fail? then Outcome(Fail(first.result.error), first.env)
      else
        var rest := EvalItems(items[1..], first.env, fuel);
        GrownTrans(env, first.env, rest.env);
        if rest.result.Fail? then Outcome(Fail(rest.result.error), rest.env)
        else Outcome(Ok([first.result.value] + rest.result.value), rest.env)
  }

  /**
   * `FuncExpression.run` once the arguments are filled: run the body in a
   * child scope and answer the child's `*00`; the child is then dropped.
   */
  function Call(args: seq<Value>, body: seq<Stmt>, env: Env, fuel: nat): (o: Outcome<Value>)
    requires |env| > 0
    ensures Grown(env, o.env)
    decreases fuel, body, 1
  {
    var run := ExecBlock(body, [CallFrame(args)] + env, fuel);
    assert ([CallFrame(args)] + env)[1..] == env;
    if run.result.Fail? then Outcome(Fail(run.result.error), run.env[1..])
    else
      assert Accumulator in run.env[0];
      Outcome(Lookup(run.env, Accumulator), run.env[1..])
  }

  /** The `run` methods of `StatementSet`, `StatementDef`, `StatementIf` and `StatementWhile`. */
  function Exec(s: Stmt, env: Env, fuel: nat): (o: Outcome<()>)
    requires |env| > 0
    ensures Settled(env, o.env)
    decreases fuel, s, 2
  {
    match s
    case Set(x, e) =>
      var oe := Eval(e, env, fuel);
      GrownTail(env, oe.env);
      assert FrameGrown(env[0], oe.env[0]);
      if oe.result.Fail? then Outcome(Fail(oe.result.error), oe.env)
      else Outcome(Ok(()), SetLocal(oe.env, x, oe.result.value))
    case Def(x, defaults, body) =>
      Outcome(Ok(()), SetLocal(env, x, Func(defaults, body)))
    case If(c, body) =>
      var oc := Eval(c, env, fuel);
      GrownTail(env, oc.env);
      assert FrameGrown(env[0], oc.env[0]);
      if oc.result.Fail? then Outcome(Fail(oc.result.error), oc.env)
      else if Truthy(oc.result.value) then
        var ob := ExecBlock(body, oc.env, fuel);
        GrownSettled(env, oc.env, ob.env);
        ob
      else Outcome(Ok(()), oc.env)
    case While(c, body) => Loop(c, body, env, fuel)
  }

  /** `StatementBlock.run`: the statements in order, stopping at the first error. */
  function ExecBlock(stmts: seq<Stmt>, env: Env, fuel: nat): (o: Outcome<()>)
    requires |env| > 0
    ensures Settled(env, o.env)
    decreases fuel, stmts, 0
  {
    if stmts == [] then Outcome(Ok(()), env)
    else
      var first := Exec(stmts[0], env, fuel);
      if first.result.Fail? then first
      else
        var rest := ExecBlock(stmts[1..], first.env, fuel);
        SettledTrans(env, first.env, rest.env);
        rest
  }

  /** `StatementWhile.run`: test the condition, then go on as `Continue` says. */
  function Loop(c: Expr, body: seq<Stmt>, env: Env, fuel: nat): (o: Outcome<()>)
    requires |env| > 0
    ensures Settled(env, o.env)
    decreases fuel, While(c, body), 1
  {
    var oc := Eval(c, env, fuel);
    var o := if oc.result.Fail? then Outcome(Fail(oc.result.error), oc.env)
             else Continue(c, body, oc.result.value, oc.env, fuel);
    GrownSettled(env, oc.env, if oc.result.Fail? then oc.env else o.env);
    o
  }

  /**
   * One turn of the loop once the condition has value `v`: stop when it is
   * falsy, otherwise run the body and test again.
   */
  function Continue(c: Expr, body: seq<Stmt>, v: Value, env: Env, fuel: nat): (o: Outcome<()>)
    requires |env| > 0
    ensures Settled(env, o.env)
    decreases fuel, While(c, body), 0
  {
    if !Truthy(v) then Outcome(Ok(()), env)
    else if fuel == 0 then Outcome(Fail(OutOfFuel), env)
    else Turn(c, body, env, fuel)
  }

  /** A pass through the loop: run the block, then, unless it failed, test again with one unit less. */
  function Turn(c: Expr, body: seq<Stmt>, env: Env, fuel: nat): (o: Outcome<()>)
    requires |env| > 0 && fuel > 0
    ensures Settled(env, o.env)
    decreases fuel, body, 1
  {
    var ob := ExecBlock(body, env, fuel);
    if ob.result.Fail? then ob
    else
      var next := Loop(c, body, ob.env, fuel - 1);
      SettledTrans(env, ob.env, next.env);
      next
  }
}
