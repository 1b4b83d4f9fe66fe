/**
 * Starting a program (numpadrun.py:123-159, main.py:23-54): the parameter
 * string becomes the root scope's `*0<i>` slots, `*00` is reset to 0, the
 * program runs in that root scope, and the answer is the root's `*00`.
 * The two entry points check their inputs in different orders: `run` loads
 * the program (numpadrun.py:138) before it parses the parameters, and
 * `main` parses the parameters (main.py:27-33) before it opens the file
 * (main.py:41-43). So a bad parameter together with a missing file raises
 * NumpadError from `run` but ValueError from `main`. The model starts from
 * a program that is already loaded and parsed, so neither combined path is
 * modelled.
 */
module Entry {
  import opened Python
  import opened Values
  import opened Scopes
  import opened Semantics
  import opened Interpreter

  predicate AllIntLiterals(pieces: seq<string>)
  {
    forall k :: 0 <= k < |pieces| ==> IsIntLiteral(pieces[k])
  }

  /** The pieces are all integers exactly when the first one and the rest are. */
  lemma AllIntLiteralsCons(pieces: seq<string>)
    requires pieces != []
    ensures AllIntLiterals(pieces) <==> IsIntLiteral(pieces[0]) && AllIntLiterals(pieces[1..])
  {
    var rest := pieces[1..];
    if AllIntLiterals(pieces) {
      forall j | 0 <= j < |rest| ensures IsIntLiteral(rest[j]) {
        assert rest[j] == pieces[j + 1];
      }
    }
    if IsIntLiteral(pieces[0]) && AllIntLiterals(rest) {
      forall k | 0 <= k < |pieces| ensures IsIntLiteral(pieces[k]) {
        if k > 0 {
          assert pieces[k] == rest[k - 1];
        }
      }
    }
  }

  /** `int(val)` for every piece in turn; a piece that is not an integer raises ValueError. */
  function ParseAll(pieces: seq<string>): (r: Result<seq<int>>)
    ensures r.Ok? <==> AllIntLiterals(pieces)
    ensures r.Ok? ==> |r.value| == |pieces| && forall k :: 0 <= k < |pieces| ==> ParseInt(pieces[k]) == Ok(r.value[k])
    ensures r.Fail? ==> r.error == ValueError
  {
    if pieces == [] then Ok([])
    else
      AllIntLiteralsCons(pieces);
      var n :- ParseInt(pieces[0]);
      var rest :- ParseAll(pieces[1..]);
      MapCons(ParseInt, (v: int) => Ok(v), pieces, n, rest);
      Ok([n] + rest)
  }

  /** When `f` of each item is `g` of the matching value, first and rest alike, it is for the whole list. */
  lemma MapCons<A, B, C>(f: A -> C, g: B -> C, xs: seq<A>, y: B, ys: seq<B>)
    requires xs != [] && f(xs[0]) == g(y)
    requires |ys| == |xs| - 1 && forall k :: 0 <= k < |ys| ==> f(xs[1..][k]) == g(ys[k])
    ensures forall k :: 0 <= k < |xs| ==> f(xs[k]) == g(([y] + ys)[k])
  {
    forall k | 0 <= k < |xs| ensures f(xs[k]) == g(([y] + ys)[k]) {
      if k > 0 {
        assert xs[k] == xs[1..][k - 1];
      }
    }
  }

  /**
   * The parameter dict: empty when the string is missing or empty, otherwise
   * `*0<i>` bound to the i-th integer of the split string, counting from 0.
   */
  function Seed(param: Option<string>, delim: char): (r: Result<Frame>)
    ensures (param.None? || param == Some("")) ==> r == Ok(map[])
    ensures param.Some? && param.value != "" ==>
      (r.Ok? <==> AllIntLiterals(Split(param.value, delim)))
    ensures r.Fail? ==> r.error == ValueError
  {
    if param.None? || param.value == "" then Ok(map[])
    else
      var ns := ParseAll(Split(param.value, delim));
      if ns.Fail? then Fail(ns.error) else Ok(SlotFrame(Ints(ns.value), 0))
  }

  /** Each piece of a non-empty parameter string lands in its own slot, and nothing else is bound. */
  lemma SeedSlots(param: string, delim: char)
    requires param != "" && Seed(Some(param), delim).Ok?
    ensures var pieces := Split(param, delim);
      var f := Seed(Some(param), delim).value;
      && (forall i :: 0 <= i < |pieces| ==> Slot(i) in f && ParseInt(pieces[i]).Ok? && f[Slot(i)] == Int(ParseInt(pieces[i]).value))
      && (forall name :: name in f ==> exists i :: 0 <= i < |pieces| && name == Slot(i))
  {
    var ns := ParseAll(Split(param, delim));
    SlotFrameKeys(Ints(ns.value), 0);
  }

  /** `str(n)` for each number in turn. */
  function Renders(ns: seq<int>): (parts: seq<string>)
    ensures |parts| == |ns|
  {
    seq(|ns|, k requires 0 <= k < |ns| => Render(ns[k]))
  }

  lemma RenderHasNoComma(n: int)
    ensures ',' !in Render(n) && |Render(n)| >= 1
  {
  }

  /** Writing numbers out with commas between them and seeding from that text gives back the numbers. */
  lemma SeedRoundTrip(ns: seq<int>)
    requires |ns| > 0
    ensures Seed(Some(Join(Renders(ns), ',')), ',') == Ok(SlotFrame(Ints(ns), 0))
  {
    SplitRenders(ns);
    RendersParse(ns);
    ParseAllExact(Renders(ns), ns);
  }

  /** The written-out numbers are exactly the pieces their comma-joined text splits into. */
  lemma SplitRenders(ns: seq<int>)
    requires |ns| > 0
    ensures var text := Join(Renders(ns), ',');
      text != "" && Split(text, ',') == Renders(ns)
  {
    var parts := Renders(ns);
    RendersNoComma(ns);
    SplitUnique(parts, ',');
    JoinNonEmpty(parts, ',');
  }

  lemma RendersNoComma(ns: seq<int>)
    requires |ns| > 0
    ensures |Renders(ns)[0]| >= 1 && forall p :: p in Renders(ns) ==> ',' !in p
  {
    var parts := Renders(ns);
    forall p | p in parts ensures ',' !in p {
      var k :| 0 <= k < |parts| && parts[k] == p;
      RenderHasNoComma(ns[k]);
    }
    RenderHasNoComma(ns[0]);
  }

  lemma RendersParse(ns: seq<int>)
    ensures forall k :: 0 <= k < |ns| ==> ParseInt(Renders(ns)[k]) == Ok(ns[k])
  {
    forall k | 0 <= k < |ns| ensures ParseInt(Renders(ns)[k]) == Ok(ns[k]) {
      ParseRender(ns[k]);
    }
  }

  /** `str(n)` for each number, with a blank in front of all but the first, as `", ".join` spaces them. */
  function Spaced(ns: seq<int>): (parts: seq<string>)
    ensures |parts| == |ns|
  {
    seq(|ns|, k requires 0 <= k < |ns| => if k == 0 then Render(ns[k]) else " " + Render(ns[k]))
  }

  /**
   * `int()` ignores the blank after each comma: the text `1, 2` seeds
   * `*00 = 1` and `*01 = 2` just as `1,2` does.
   */
  lemma SeedSpacedRoundTrip(ns: seq<int>)
    requires |ns| > 0
    ensures Seed(Some(Join(Spaced(ns), ',')), ',') == Ok(SlotFrame(Ints(ns), 0))
  {
    SplitSpaced(ns);
    SpacedParses(ns);
    ParseAllExact(Spaced(ns), ns);
  }

  /** The spaced numbers are exactly the pieces their comma-joined text splits into. */
  lemma SplitSpaced(ns: seq<int>)
    requires |ns| > 0
    ensures var text := Join(Spaced(ns), ',');
      text != "" && Split(text, ',') == Spaced(ns)
  {
    var parts := Spaced(ns);
    SpacedNoComma(ns);
    SplitUnique(parts, ',');
    JoinNonEmpty(parts, ',');
  }

  lemma SpacedNoComma(ns: seq<int>)
    requires |ns| > 0
    ensures |Spaced(ns)[0]| >= 1 && forall p :: p in Spaced(ns) ==> ',' !in p
  {
    var parts := Spaced(ns);
    forall p | p in parts ensures ',' !in p {
      var k :| 0 <= k < |parts| && parts[k] == p;
      RenderHasNoComma(ns[k]);
    }
    RenderHasNoComma(ns[0]);
  }

  lemma SpacedParses(ns: seq<int>)
    ensures forall k :: 0 <= k < |ns| ==> ParseInt(Spaced(ns)[k]) == Ok(ns[k])
  {
    forall k | 0 <= k < |ns| ensures ParseInt(Spaced(ns)[k]) == Ok(ns[k]) {
      ParseRender(ns[k]);
      if k > 0 {
        ParseIgnoresPadding(" ", Render(ns[k]), "");
        assert Spaced(ns)[k] == " " + Render(ns[k]) + "";
      }
    }
  }

  /** Pieces that parse one by one to `ns` parse all together to `ns`. */
  lemma ParseAllExact(pieces: seq<string>, ns: seq<int>)
    requires |pieces| == |ns| && forall k :: 0 <= k < |ns| ==> ParseInt(pieces[k]) == Ok(ns[k])
    ensures ParseAll(pieces) == Ok(ns)
  {
    var r := ParseAll(pieces);
    assert r.Ok?;
    assert r.value == ns;
  }

  /** The root scope's dict as the program starts: the parameters, then `*00` reset to 0. */
  function Start(variables: Frame): (f: Frame)
    ensures Accumulator in f && f[Accumulator] == Int(0)
    ensures forall name :: name != Accumulator ==> (name in f <==> name in variables)
  {
    variables[Accumulator := Int(0)]
  }

  /**
   * What running `program` with the parameter string answers: the root's
   * `*00`, read after the program has finished.
   */
  function Launch(program: seq<Stmt>, param: Option<string>, delim: char, fuel: nat): (r: Result<Value>)
    ensures Seed(param, delim).Fail? ==> r == Fail(ValueError)
    ensures Seed(param, delim).Ok? ==>
      var run := ExecBlock(program, [Start(Seed(param, delim).value)], fuel);
      (r.Ok? <==> run.result.Ok?) && (r.Ok? ==> Accumulator in run.env[0] && r.value == run.env[0][Accumulator])
  {
    var variables :- Seed(param, delim);
    var run := ExecBlock(program, [Start(variables)], fuel);
    if run.result.Fail? then Fail(run.result.error)
    else
      assert BoundAt(run.env, Accumulator, 0);
      Lookup(run.env, Accumulator)
  }

  /** An empty program answers 0, whatever the parameters: the first one sat in `*00` and was overwritten. */
  lemma FirstParameterDiscarded(param: Option<string>, delim: char, fuel: nat)
    requires Seed(param, delim).Ok?
    ensures Launch([], param, delim, fuel) == Ok(Int(0))
  {
  }

  /**
   * `run` as numpadrun.py:123-159 writes it: seeding and running as above,
   * but the final `scope.get_value("*00")` names a method `Scope` does not
   * have, so every finished run ends in AttributeError.
   */
  function RunAsWritten(program: seq<Stmt>, param: Option<string>, delim: char, fuel: nat): (r: Result<Value>)
    ensures r.Fail?
    ensures Launch(program, param, delim, fuel).Ok? ==> r == Fail(AttributeError)
  {
    var variables :- Seed(param, delim);
    var run := ExecBlock(program, [Start(variables)], fuel);
    if run.result.Fail? then Fail(run.result.error) else Fail(AttributeError)
  }

  /** The empty program with no parameters answers 0 when read with `evaluate`, but fails as written. */
  lemma GetValueCounterexample()
    ensures Launch([], None, ',', 0) == Ok(Int(0))
    ensures RunAsWritten([], None, ',', 0) == Fail(AttributeError)
  {
  }

  /** `numpadrun.run` after `load_program`, with the answer read by `evaluate`. */
  method Run(program: seq<Stmt>, param: Option<string>, delim: char, fuel: nat) returns (r: Result<Value>)
    ensures r == Launch(program, param, delim, fuel)
  {
    var variables :- Seed(param, delim);
    var scope := new Scope.Root(variables);
    scope.SetValue(Accumulator, Int(0));
    assert scope.Frames() == [Start(variables)];
    var done := RunBlock(program, scope, fuel);
    if done.Fail? {
      return Fail(done.error);
    }
    r := scope.Evaluate(Accumulator);
  }

  /** `main` after `load_text` and the parser: parameters split on `,`, the root's `*00` as the result. */
  method RunMain(program: seq<Stmt>, param: Option<string>, fuel: nat) returns (r: Result<Value>)
    ensures r == Launch(program, param, ',', fuel)
  {
    r := Run(program, param, ',', fuel);
  }
}
