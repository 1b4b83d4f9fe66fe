/**
 * The older, recursive way of putting a program together (main.py:11-21):
 * the first line of a text names the units it needs, separated by `/`; the
 * fully inlined text of each is put in front of what has been gathered so far,
 * and what remains after the first line is the text's own body. Nothing is
 * deduplicated, so a unit needed twice appears twice and a cycle never ends.
 *
 * The file system is a map from a path to its contents; `open` on a path
 * the map does not hold raises FileNotFoundError. Recursion is bounded by
 * `fuel`: each level of nesting costs one unit, and running out gives
 * OutOfFuel, where Python would go on until its recursion limit.
 */
module TextLoader {
  import opened Python
  import Resolver

  /** Path to contents: what `open(path).read()` returns. */
  type Files = map<string, string>

  /** `f"{file}.npd"`. */
  function Path(name: string): string
  {
    name + ".npd"
  }

  predicate EndsWith(s: string, t: string)
  {
    |t| <= |s| && s[|s| - |t|..] == t
  }

  /** The inlined texts of the imports, last import first. */
  function Stack(parts: seq<string>): string
  {
    if parts == [] then "" else Stack(parts[1..]) + parts[0]
  }

  lemma StackSmall(x: string, y: string)
    ensures Stack([x]) == x && Stack([x, y]) == y + x
  {
    assert [x, y][1..] == [y];
    assert Stack([y]) == Stack([]) + y;
    assert Stack([x]) == Stack([]) + x;
  }

  /**
   * `load_text(text)`: cut at the first newline (a text without one cannot be
   * unpacked into two names, which raises ValueError); an empty header gives the
   * body back, and otherwise every name on the header is inlined in front of it.
   * Whatever is put in front, the text's own body stays at the end.
   */
  function LoadTextSpec(text: string, files: Files, fuel: nat): (r: Result<string>)
    ensures r.Ok? ==> '\n' in text && EndsWith(r.value, SplitOnce(text, '\n').value.1)
    decreases fuel, 1
  {
    match SplitOnce(text, '\n')
    case None => Fail(ValueError)
    case Some((imports, program)) =>
      if imports == "" then Ok(program)
      else PrependImports(Split(imports, '/'), program, files, fuel)
  }

  /**
   * `for file in names: program = load_text(open(f"{file}.npd").read()) + program`:
   * a missing file raises FileNotFoundError, and a failure inside a nested text
   * ends the loop with that failure.
   */
  function PrependImports(names: seq<string>, program: string, files: Files, fuel: nat): (r: Result<string>)
    ensures r.Ok? ==> EndsWith(r.value, program)
    ensures r.Ok? ==> forall n :: n in names ==> Path(n) in files
    decreases fuel, 0, |names|
  {
    if names == [] then Ok(program)
    else if Path(names[0]) !in files then Fail(FileNotFoundError(Path(names[0])))
    else if fuel == 0 then Fail(OutOfFuel)
    else
      var inner :- LoadTextSpec(files[Path(names[0])], files, fuel - 1);
      var r := PrependImports(names[1..], inner + program, files, fuel);
      assert r.Ok? ==> EndsWith(r.value, program) by {
        if r.Ok? {
          assert r.value[|r.value| - |program|..] == (r.value[|r.value| - |inner + program|..])[|inner|..];
        }
      }
      assert r.Ok? ==> forall n :: n in names ==> n == names[0] || n in names[1..];
      r
  }

  /** `load_text(text) + '\n'`: the text main hands to the parser. */
  function MainSource(text: string, files: Files, fuel: nat): (r: Result<string>)
    ensures r.Ok? <==> LoadTextSpec(text, files, fuel).Ok?
    ensures r.Ok? ==> |r.value| >= 1 && r.value[|r.value| - 1] == '\n' && r.value[..|r.value| - 1] == LoadTextSpec(text, files, fuel).value
  {
    var program :- LoadTextSpec(text, files, fuel);
    Ok(program + "\n")
  }

  // ---------------------------------------------------------------------
  // What a header produces

  /** A text whose first line is empty is its own body; a text without a newline raises ValueError. */
  lemma HeaderlessText(body: string, text: string, files: Files, fuel: nat)
    ensures LoadTextSpec("\n" + body, files, fuel) == Ok(body)
    ensures '\n' !in text ==> LoadTextSpec(text, files, fuel) == Fail(ValueError)
  {
    SplitOnceAt("", body, '\n');
    assert "" + "\n" + body == "\n" + body;
  }

  /** When every import inlines, the loop leaves them in front of the body, last import first. */
  lemma {:induction false} ImportsStackReversed(names: seq<string>, results: seq<string>, program: string, files: Files, fuel: nat)
    requires |names| == |results| && (names != [] ==> fuel > 0)
    requires forall k :: 0 <= k < |names| ==>
      Path(names[k]) in files && LoadTextSpec(files[Path(names[k])], files, fuel - 1) == Ok(results[k])
    ensures PrependImports(names, program, files, fuel) == Ok(Stack(results) + program)
    decreases |names|
  {
    if names != [] {
      assert Path(names[0]) in files && LoadTextSpec(files[Path(names[0])], files, fuel - 1) == Ok(results[0]);
      assert PrependImports(names, program, files, fuel) == PrependImports(names[1..], results[0] + program, files, fuel);
      forall k | 0 <= k < |names[1..]|
        ensures Path(names[1..][k]) in files && LoadTextSpec(files[Path(names[1..][k])], files, fuel - 1) == Ok(results[1..][k])
      {
        assert names[1..][k] == names[k + 1] && results[1..][k] == results[k + 1];
      }
      ImportsStackReversed(names[1..], results[1..], results[0] + program, files, fuel);
      assert Stack(results[1..]) + (results[0] + program) == Stack(results) + program;
    } else {
      assert Stack(results) + program == program;
    }
  }

  /** A header `n0/n1/...` gives the inlined texts in reverse order, then the body. */
  lemma HeaderInlinesInReverse(names: seq<string>, results: seq<string>, body: string, files: Files, fuel: nat)
    requires |names| == |results| >= 1 && fuel > 0
    requires forall n :: n in names ==> '/' !in n && '\n' !in n
    requires Join(names, '/') != ""
    requires forall k :: 0 <= k < |names| ==>
      Path(names[k]) in files && LoadTextSpec(files[Path(names[k])], files, fuel - 1) == Ok(results[k])
    ensures LoadTextSpec(Join(names, '/') + "\n" + body, files, fuel) == Ok(Stack(results) + body)
  {
    JoinAvoids(names, '/', '\n');
    SplitOnceAt(Join(names, '/'), body, '\n');
    SplitUnique(names, '/');
    ImportsStackReversed(names, results, body, files, fuel);
  }

  /** Header `a/b`: the inlined `b`, then the inlined `a`, then the body. */
  lemma TwoImports(a: string, b: string, ra: string, rb: string, body: string, files: Files, fuel: nat)
    requires a != "" && '/' !in a && '\n' !in a && '/' !in b && '\n' !in b && fuel > 0
    requires Path(a) in files && LoadTextSpec(files[Path(a)], files, fuel - 1) == Ok(ra)
    requires Path(b) in files && LoadTextSpec(files[Path(b)], files, fuel - 1) == Ok(rb)
    ensures LoadTextSpec(a + "/" + b + "\n" + body, files, fuel) == Ok(rb + ra + body)
  {
    assert Join([a, b], '/') + "\n" + body == a + "/" + b + "\n" + body by {
      assert Join([a, b], '/') == a + "/" + b;
    }
    TwoImportsJoined(a, b, ra, rb, body, files, fuel);
  }

  lemma TwoImportsJoined(a: string, b: string, ra: string, rb: string, body: string, files: Files, fuel: nat)
    requires a != "" && '/' !in a && '\n' !in a && '/' !in b && '\n' !in b && fuel > 0
    requires Path(a) in files && LoadTextSpec(files[Path(a)], files, fuel - 1) == Ok(ra)
    requires Path(b) in files && LoadTextSpec(files[Path(b)], files, fuel - 1) == Ok(rb)
    ensures LoadTextSpec(Join([a, b], '/') + "\n" + body, files, fuel) == Ok(rb + ra + body)
  {
    var names, results := [a, b], [ra, rb];
    forall n | n in names ensures '/' !in n && '\n' !in n { }
    forall k | 0 <= k < |names|
      ensures Path(names[k]) in files && LoadTextSpec(files[Path(names[k])], files, fuel - 1) == Ok(results[k])
    { }
    JoinNonEmpty(names, '/');
    HeaderInlinesInReverse(names, results, body, files, fuel);
    StackSmall(ra, rb);
  }

  /** Regrouping five bodies, so that DiamondRepeatsShared can read the stacked text as one sequence. */
  lemma Regroup(p: string, q: string, t: string, u: string, v: string)
    ensures (p + q) + (t + u) + v == p + q + t + u + v
  {
  }

  /** A unit with a single import, which has no imports of its own. */
  lemma OneLeafImport(a: string, bodyA: string, d: string, bodyD: string, files: Files, fuel: nat)
    requires d != "" && '/' !in d && '\n' !in d && fuel >= 2
    requires Path(d) in files && files[Path(d)] == "\n" + bodyD
    requires Path(a) in files && files[Path(a)] == d + "\n" + bodyA
    ensures LoadTextSpec(files[Path(a)], files, fuel - 1) == Ok(bodyD + bodyA)
  {
    HeaderlessText(bodyD, "", files, fuel - 2);
    assert Join([d], '/') == d;
    HeaderInlinesInReverse([d], [bodyD], bodyA, files, fuel - 1);
    StackSmall(bodyD, "");
  }

  /**
   * Diamond: the top text needs `b` and `c`, and both need `d`. Nothing is
   * deduplicated, so `d`'s body appears once in front of each of them.
   */
  lemma DiamondRepeatsShared(b: string, c: string, d: string, bodyA: string, bodyB: string, bodyC: string, bodyD: string, files: Files, fuel: nat)
    requires b != "" && '/' !in b && '\n' !in b && '/' !in c && '\n' !in c
    requires d != "" && '/' !in d && '\n' !in d && fuel >= 2
    requires Path(b) in files && files[Path(b)] == d + "\n" + bodyB
    requires Path(c) in files && files[Path(c)] == d + "\n" + bodyC
    requires Path(d) in files && files[Path(d)] == "\n" + bodyD
    ensures LoadTextSpec(b + "/" + c + "\n" + bodyA, files, fuel) == Ok(bodyD + bodyC + bodyD + bodyB + bodyA)
  {
    OneLeafImport(b, bodyB, d, bodyD, files, fuel);
    OneLeafImport(c, bodyC, d, bodyD, files, fuel);
    Regroup(bodyD, bodyC, bodyD, bodyB, bodyA);
    TwoImports(b, c, bodyD + bodyB, bodyD + bodyC, bodyA, files, fuel);
  }

  /** A unit that imports itself never finishes: every amount of fuel runs out. */
  lemma {:induction false} SelfImportNeverFinishes(a: string, body: string, files: Files, fuel: nat)
    requires a != "" && '/' !in a && '\n' !in a
    requires Path(a) in files && files[Path(a)] == a + "\n" + body
    ensures LoadTextSpec(files[Path(a)], files, fuel) == Fail(OutOfFuel)
    decreases fuel
  {
    SplitOnceAt(a, body, '\n');
    SplitUnique([a], '/');
    assert Join([a], '/') == a;
    if fuel > 0 {
      SelfImportNeverFinishes(a, body, files, fuel - 1);
    }
  }

  /** A text that inlines with some fuel inlines the same way with more. */
  lemma {:induction false} LoadTextFuel(text: string, files: Files, fuel: nat, more: nat)
    requires fuel <= more && !LoadTextSpec(text, files, fuel).Exhausted()
    ensures LoadTextSpec(text, files, more) == LoadTextSpec(text, files, fuel)
    decreases fuel, 1
  {
    match SplitOnce(text, '\n')
    case None =>
    case Some((imports, program)) =>
      if imports != "" {
        PrependFuel(Split(imports, '/'), program, files, fuel, more);
      }
  }

  lemma {:induction false} PrependFuel(names: seq<string>, program: string, files: Files, fuel: nat, more: nat)
    requires fuel <= more && !PrependImports(names, program, files, fuel).Exhausted()
    ensures PrependImports(names, program, files, more) == PrependImports(names, program, files, fuel)
    decreases fuel, 0, |names|
  {
    if names != [] && Path(names[0]) in files && fuel > 0 {
      var inner := LoadTextSpec(files[Path(names[0])], files, fuel - 1);
      LoadTextFuel(files[Path(names[0])], files, fuel - 1, more - 1);
      if inner.Ok? {
        PrependFuel(names[1..], inner.value + program, files, fuel, more);
      }
    }
  }

  /**
   * Where no unit is needed twice, the two loaders agree: a chain `e` needs
   * `d` needs `c` gives the same program text from main's `load_text` as from
   * `load_program`, one newline at the end included.
   */
  lemma ChainAgreesWithLoadProgram(e: string, d: string, c: string, bodyE: string, bodyD: string, bodyC: string,
                                   loader: Resolver.Loader, files: Files)
    requires Resolver.UnitName(e) && Resolver.UnitName(d) && Resolver.UnitName(c) && e != d && d != c && e != c
    requires '/' !in d && '/' !in c
    requires e in loader && loader[e] == d + "\n" + bodyE
    requires d in loader && loader[d] == c + "\n" + bodyD
    requires c in loader && loader[c] == "\n" + bodyC
    requires Path(d) in files && files[Path(d)] == loader[d]
    requires Path(c) in files && files[Path(c)] == loader[c]
    ensures MainSource(loader[e], files, 2) == Resolver.LoadProgramSpec(e, loader, 3)
  {
    Resolver.ChainStacksInnermostFirst(e, d, c, bodyE, bodyD, bodyC, loader);
    OneLeafImport(d, bodyD, c, bodyC, files, 2);
    assert Join([d], '/') == d;
    HeaderInlinesInReverse([d], [bodyC + bodyD], bodyE, files, 2);
    StackSmall(bodyC + bodyD, "");
    assert bodyC + bodyD + bodyE + "\n" == (bodyC + bodyD) + bodyE + "\n";
  }

  // ---------------------------------------------------------------------
  // The recursive loader as written

  /** `load_text`, recursing into each imported file inside its `for` loop. */
  method LoadText(text: string, files: Files, fuel: nat) returns (r: Result<string>)
    ensures r == LoadTextSpec(text, files, fuel)
    decreases fuel, 1
  {
    var cut := SplitOnce(text, '\n');
    if cut.None? {
      return Fail(ValueError);
    }
    var imports, program := cut.value.0, cut.value.1;
    if imports == "" {
      return Ok(program);
    }
    r := PrependAll(Split(imports, '/'), program, files, fuel);
  }

  /** The import loop of `load_text`: each named file's loaded text goes in front of what is there. */
  method PrependAll(names: seq<string>, program: string, files: Files, fuel: nat) returns (r: Result<string>)
    ensures r == PrependImports(names, program, files, fuel)
    decreases fuel, 0
  {
    var acc := program;
    for k := 0 to |names|
      invariant PrependImports(names[k..], acc, files, fuel) == PrependImports(names, program, files, fuel)
    {
      PrependStep(names[k..], acc, files, fuel);
      assert names[k..][0] == names[k] && names[k..][1..] == names[k + 1..];
      var path := Path(names[k]);
      if path !in files {
        return Fail(FileNotFoundError(path));
      }
      if fuel == 0 {
        return Fail(OutOfFuel);
      }
      var inner := LoadText(files[path], files, fuel - 1);
      if inner.Fail? {
        return Fail(inner.error);
      }
      acc := inner.value + acc;
    }
    assert names[|names|..] == [];
    r := Ok(acc);
  }

  /** One import of the loop: the file must exist, fuel must be left, and its own text must load. */
  lemma PrependStep(names: seq<string>, program: string, files: Files, fuel: nat)
    requires names != []
    ensures var path := Path(names[0]);
      PrependImports(names, program, files, fuel)
      == if path !in files then Fail(FileNotFoundError(path))
         else if fuel == 0 then Fail(OutOfFuel)
         else
           var inner := LoadTextSpec(files[path], files, fuel - 1);
           if inner.Fail? then Fail(inner.error) else PrependImports(names[1..], inner.value + program, files, fuel)
  {
  }

  /** `text = load_text(text) + '\n'` in main. */
  method LoadMain(text: string, files: Files, fuel: nat) returns (r: Result<string>)
    ensures r == MainSource(text, files, fuel)
  {
    r := LoadText(text, files, fuel);
    if r.Ok? {
      r := Ok(r.value + "\n");
    }
  }
}
