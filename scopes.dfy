/**
 * Variable scopes (numpad.py:35-142). A `Scope` holds a dict that
 * `set_value` mutates and a link to its parent; `NullScope` is the scope with
 * no parent, and a lookup that reaches it without finding the name fails.
 *
 * `Env` is the pure view of a chain of scopes: its frames, innermost first,
 * the root's frame last. The class below is proved against these functions.
 */
module Scopes {
  import opened Python
  import opened Values

  type Frame = map<string, Value>

  /** The dicts of a scope chain, innermost first; the last one is the root's. */
  type Env = seq<Frame>

  /** The slot a program or function body leaves its result in. */
  const Accumulator: string := "*00"

  /** The parameter slot `*0<i>`. */
  function Slot(i: nat): string
  {
    "*0" + Decimal(i)
  }

  lemma SlotInjective(i: nat, j: nat)
    requires Slot(i) == Slot(j)
    ensures i == j
  {
    assert Slot(i)[2..] == Decimal(i);
    assert Slot(j)[2..] == Decimal(j);
    DecimalInjective(i, j);
  }

  /** Slot 0 is the accumulator, which is why a first seeded parameter is overwritten. */
  lemma AccumulatorIsSlotZero()
    ensures Slot(0) == Accumulator
  {
  }

  lemma SlotsDistinct()
    ensures forall i: nat, j: nat :: Slot(i) == Slot(j) ==> i == j
  {
    forall i: nat, j: nat | Slot(i) == Slot(j) ensures i == j {
      SlotInjective(i, j);
    }
  }

  /**
   * `{f"*0{i + first}": v for i, v in enumerate(vals)}`: the dict comprehensions
   * that bind call arguments (`first` = 1) and program parameters (`first` = 0).
   */
  function SlotFrame(vals: seq<Value>, first: nat): (f: Frame)
    ensures forall i: nat :: first <= i < first + |vals| ==> Slot(i) in f && f[Slot(i)] == vals[i - first]
    decreases |vals|
  {
    if vals == [] then map[]
    else
      var rest := SlotFrame(vals[1..], first + 1);
      forall i: nat | first < i < first + |vals| ensures Slot(i) != Slot(first) && vals[1..][i - first - 1] == vals[i - first] {
        if Slot(i) == Slot(first) { SlotInjective(i, first); }
      }
      rest[Slot(first) := vals[0]]
  }

  /** The comprehension binds nothing but its slots. */
  lemma {:induction false} SlotFrameKeys(vals: seq<Value>, first: nat)
    ensures forall name :: name in SlotFrame(vals, first) ==> exists i: nat :: first <= i < first + |vals| && name == Slot(i)
    decreases |vals|
  {
    if vals != [] {
      SlotFrameKeys(vals[1..], first + 1);
      forall name | name in SlotFrame(vals, first)
        ensures exists i: nat :: first <= i < first + |vals| && name == Slot(i)
      {
        if name != Slot(first) {
          assert name in SlotFrame(vals[1..], first + 1);
          var i: nat :| first + 1 <= i < first + 1 + |vals[1..]| && name == Slot(i);
        }
      }
    }
  }

  /** `name` is bound in frame `k` and in no frame nearer the innermost one. */
  predicate BoundAt(env: Env, name: string, k: int)
  {
    0 <= k < |env| && name in env[k] && forall j :: 0 <= j < k ==> name !in env[j]
  }

  /**
   * `Scope.evaluate` / `NullScope.evaluate`: the value from the nearest frame
   * that binds the name; a NumpadError once the root has been searched.
   */
  function Lookup(env: Env, name: string): (r: Result<Value>)
    requires |env| > 0
    ensures r.Fail? ==> r.error == NumpadError(NotDefined(name))
    decreases |env|
  {
    if name in env[0] then Ok(env[0][name])
    else if |env| == 1 then Fail(NumpadError(NotDefined(name)))
    else Lookup(env[1..], name)
  }

  /** The name is found exactly when some frame binds it, and the value comes from the nearest such frame. */
  lemma {:induction false} LookupFinds(env: Env, name: string)
    requires |env| > 0
    ensures Lookup(env, name).Ok? <==> exists k :: 0 <= k < |env| && name in env[k]
    ensures Lookup(env, name).Ok? ==> exists k :: BoundAt(env, name, k) && Lookup(env, name).value == env[k][name]
    decreases |env|
  {
    if name in env[0] {
      assert BoundAt(env, name, 0);
    } else if |env| > 1 {
      LookupFinds(env[1..], name);
      var r := Lookup(env[1..], name);
      if r.Ok? {
        var k :| BoundAt(env[1..], name, k) && r.value == env[1..][k][name];
        assert BoundAt(env, name, k + 1);
      } else {
        forall k | 0 < k < |env| ensures name !in env[k] {
          assert env[k] == env[1..][k - 1];
        }
      }
    }
  }

  /** The nearest frame binding the name supplies its value. */
  lemma {:induction false} LookupAt(env: Env, name: string, k: int)
    requires BoundAt(env, name, k)
    ensures Lookup(env, name) == Ok(env[k][name])
    decreases k
  {
    if k > 0 {
      assert name !in env[0];
      assert BoundAt(env[1..], name, k - 1);
      LookupAt(env[1..], name, k - 1);
    }
  }

  /** At most one frame is the nearest binder of a name. */
  lemma BoundAtUnique(env: Env, name: string, k: int, k': int)
    requires BoundAt(env, name, k) && BoundAt(env, name, k')
    ensures k == k'
  {
  }

  /** `set_value`: write the innermost frame only. */
  function SetLocal(env: Env, name: string, v: Value): Env
    requires |env| > 0
  {
    [env[0][name := v]] + env[1..]
  }

  /**
   * Assignment shadows: the name now reads as the new value, every other name
   * reads as before, and the enclosing frames are untouched, so once the
   * innermost frame is discarded the old binding is visible again.
   */
  lemma Shadowing(env: Env, name: string, v: Value, other: string)
    requires |env| > 0 && other != name
    ensures Lookup(SetLocal(env, name, v), name) == Ok(v)
    ensures Lookup(SetLocal(env, name, v), other) == Lookup(env, other)
    ensures SetLocal(env, name, v)[1..] == env[1..]
  {
    var e := SetLocal(env, name, v);
    if other !in env[0] && |env| > 1 {
      assert e[1..] == env[1..];
    }
  }

  /**
   * The binding a list's in-place growth shows up in: the nearest frame that
   * binds `name` now maps it to `v`, and nothing else changes.
   */
  function RebindNearest(env: Env, name: string, v: Value): (r: Env)
    requires |env| > 0
    ensures |r| == |env|
    ensures forall k :: 0 <= k < |env| ==> r[k].Keys == env[k].Keys
    ensures forall k :: BoundAt(env, name, k) ==> r[k][name] == v
    ensures forall k, n :: 0 <= k < |env| && n in env[k] && !(n == name && BoundAt(env, name, k))
              ==> r[k][n] == env[k][n]
    decreases |env|
  {
    if name in env[0] then [env[0][name := v]] + env[1..]
    else if |env| == 1 then env
    else
      var rest := RebindNearest(env[1..], name, v);
      forall k | 0 < k < |env| && BoundAt(env, name, k) ensures BoundAt(env[1..], name, k - 1) { }
      forall k | 0 < k < |env| && BoundAt(env[1..], name, k - 1) ensures BoundAt(env, name, k) { }
      [env[0]] + rest
  }

  /**
   * One level of the scope chain. `parent` is null for the root (`NullScope`).
   * `above` (every scope up the chain) and `depth` are ghost bookkeeping that
   * show the chain is finite and acyclic.
   */
  class Scope {
    var vars: Frame
    const parent: Scope?
    ghost const above: set<Scope>
    ghost const depth: nat

    ghost predicate Linked()
      decreases depth
    {
      && (forall s :: s in above ==> s.depth < depth)
      && (parent == null ==> above == {})
      && (parent != null ==> above == {parent} + parent.above && parent.Linked())
    }

    /** This scope and every scope above it. */
    ghost function Ancestors(): set<Scope>
    {
      {this} + above
    }

    /** The chain's dicts, innermost first. */
    ghost function Frames(): (env: Env)
      requires Linked()
      reads Ancestors()
      ensures |env| >= 1 && env[0] == vars
      decreases depth
    {
      [vars] + (if parent == null then [] else parent.Frames())
    }

    /** The chain's dicts read the same as long as no scope on the chain changed. */
    twostate lemma FramesStable()
      requires Linked() && unchanged(Ancestors())
      ensures Frames() == old(Frames())
      decreases depth
    {
      if parent != null {
        parent.FramesStable();
      }
    }

    /** `NullScope(variables)`. */
    constructor Root(variables: Frame)
      ensures Linked() && parent == null && vars == variables
      ensures Ancestors() == {this} && Frames() == [variables]
    {
      vars := variables;
      parent := null;
      above := {};
      depth := 0;
    }

    /** `Scope(parent, variables)`. */
    constructor Within(up: Scope, variables: Frame)
      requires up.Linked()
      ensures Linked() && parent == up && vars == variables
      ensures Ancestors() == {this} + up.Ancestors()
      ensures Frames() == [variables] + up.Frames()
    {
      vars := variables;
      parent := up;
      above := {up} + up.above;
      depth := up.depth + 1;
    }

    /** `evaluate`: search this scope, then the parents; the root raises. */
    function Evaluate(name: string): (r: Result<Value>)
      requires Linked()
      reads Ancestors()
      ensures r == Lookup(Frames(), name)
      decreases depth
    {
      if name in vars then Ok(vars[name])
      else if parent == null then Fail(NumpadError(NotDefined(name)))
      else parent.Evaluate(name)
    }

    /** `set_value`: this scope's dict only. */
    method SetValue(name: string, value: Value)
      requires Linked()
      modifies this
      ensures vars == old(vars)[name := value]
      ensures Frames() == SetLocal(old(Frames()), name, value)
    {
      if parent != null {
        assert this !in parent.Ancestors();
      }
      vars := vars[name := value];
    }

    /** `child`: a fresh scope whose parent is this one. */
    method Child(variables: Frame) returns (c: Scope)
      requires Linked()
      ensures fresh(c) && c.Linked() && c.parent == this && c.vars == variables
      ensures Frames() == old(Frames())
      ensures c.Ancestors() == {c} + Ancestors()
      ensures c.Frames() == [variables] + Frames()
    {
      c := new Scope.Within(this, variables);
      FramesStable();
    }

    /**
     * Replace the binding of `name` in the nearest scope holding it: how an
     * in-place change to the list bound there is seen by later lookups.
     */
    method Rebind(name: string, value: Value)
      requires Linked()
      modifies Ancestors()
      ensures Frames() == RebindNearest(old(Frames()), name, value)
      decreases depth
    {
      if name in vars {
        SetValue(name, value);
      } else if parent != null {
        assert this !in parent.Ancestors();
        parent.Rebind(name, value);
      }
    }
  }
}
