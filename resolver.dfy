/**
 * `load_program` (numpadrun.py:62-120): a program file names its
 * dependencies on its first line, separated by `.`; every unit is fetched,
 * its dependencies are queued behind it or moved to the end when already
 * resolved, and the bodies are stacked in reverse order of the final list.
 * The file system (`import_npd`) is a name-to-text map.
 */
module Resolver {
  import opened Python

  /** Source texts by unit name; a missing name is a file `import_npd` cannot find. */
  type Loader = map<string, string>

  /**
   * The state of the resolution loop: the parallel lists `files` and `texts`
   * (None until a unit's text is known) and the cursor `i`.
   */
  datatype Work = Work(files: seq<string>, texts: seq<Option<string>>, i: int)

  /** `files` and `texts` describe the same units. */
  predicate Lockstep(w: Work)
  {
    |w.files| == |w.texts|
  }

  /** A text with a header line, so that `split('\n', maxsplit=1)` unpacks. */
  predicate Loaded(t: Option<string>)
  {
    t.Some? && '\n' in t.value
  }

  /** Python truthiness of an entry of `texts`: a non-empty string. */
  predicate Cached(t: Option<string>)
  {
    t.Some? && t.value != ""
  }

  /** The units paired with their texts. */
  function Zip(w: Work): (z: seq<(string, Option<string>)>)
    requires Lockstep(w)
    ensures |z| == |w.files| && forall k :: 0 <= k < |z| ==> z[k] == (w.files[k], w.texts[k])
  {
    seq(|w.files|, k requires 0 <= k < |w.files| => (w.files[k], w.texts[k]))
  }

  /** `s.append(s[j]); del s[j]`: entry `j` goes to the end, the ones after it move up. */
  function MoveToEnd<T>(s: seq<T>, j: nat): (r: seq<T>)
    requires j < |s|
    ensures |r| == |s|
    decreases j
  {
    if j == 0 then s[1..] + [s[0]] else [s[0]] + MoveToEnd(s[1..], j - 1)
  }

  /** Moving an entry keeps every entry: those before `j` stay put, those after it move up by one. */
  lemma {:induction false} MoveToEndEntries<T>(s: seq<T>, j: nat)
    requires j < |s|
    ensures MoveToEnd(s, j) == s[..j] + s[j + 1..] + [s[j]]
    decreases j
  {
    if j > 0 {
      MoveToEndEntries(s[1..], j - 1);
      assert s[1..][..j - 1] == s[1..j];
      assert s[1..][j - 1 + 1..] == s[j + 1..];
      assert [s[0]] + s[1..j] == s[..j];
    }
  }

  /** Moving an entry to the end is a permutation. */
  lemma MoveToEndPermutes<T>(s: seq<T>, j: nat)
    requires j < |s|
    ensures multiset(MoveToEnd(s, j)) == multiset(s)
  {
    MoveToEndEntries(s, j);
    assert s == s[..j] + [s[j]] + s[j + 1..];
  }

  /** Moving in both lists moves the pairs. */
  lemma MoveToEndZip(w: Work, j: nat)
    requires Lockstep(w) && j < |w.files|
    ensures Zip(Work(MoveToEnd(w.files, j), MoveToEnd(w.texts, j), w.i)) == MoveToEnd(Zip(w), j)
  {
    MoveToEndEntries(w.files, j);
    MoveToEndEntries(w.texts, j);
    MoveToEndEntries(Zip(w), j);
  }

  /** The dependency names on a header line; an empty line names none. */
  function Imports(header: string): (names: seq<string>)
    ensures names == [] <==> header == ""
    ensures header != "" ==> Join(names, '.') == header && forall n :: n in names ==> '.' !in n
  {
    if header == "" then [] else Split(header, '.')
  }

  /**
   * `files.index(im)` when `im in files[:b]`: the first occurrence, which
   * then lies before `b`.
   */
  function FirstBefore(files: seq<string>, im: string, b: nat): (j: Option<nat>)
    requires b <= |files|
    ensures j.Some? <==> im in files[..b]
    ensures j.Some? ==> j.value < b && files[j.value] == im && im !in files[..j.value]
    decreases b
  {
    if b == 0 then None
    else
      var prev := FirstBefore(files, im, b - 1);
      assert files[..b] == files[..b - 1] + [files[b - 1]];
      if prev.Some? then prev
      else if files[b - 1] == im then Some(b - 1)
      else None
  }

  /**
   * One dependency `im` of the unit at the cursor: its first occurrence is
   * moved to the end when it appears before the cursor (and the increment
   * `d` drops by one); otherwise it is appended with no text yet.
   */
  function Place(w: Work, d: int, im: string): (r: (Work, int))
    requires Lockstep(w)
    ensures Lockstep(r.0) && r.0.i == w.i
    ensures (r.1 == d - 1 && |r.0.files| == |w.files|) || (r.1 == d && |r.0.files| == |w.files| + 1)
  {
    match FirstBefore(w.files, im, SliceBound(w.i, |w.files|))
    case Some(j) => (Work(MoveToEnd(w.files, j), MoveToEnd(w.texts, j), w.i), d - 1)
    case None => (Work(w.files + [im], w.texts + [None], w.i), d)
  }

  /**
   * A moved dependency takes its cached text with it: the unit-and-text
   * pairs are the same before and after, and the moved pair is the first
   * occurrence from before the cursor. A dependency not found before the
   * cursor, even one already queued after it, is appended with no text.
   */
  lemma PlaceKeepsPairs(w: Work, d: int, im: string)
    requires Lockstep(w)
    ensures var r := Place(w, d, im);
      var b := SliceBound(w.i, |w.files|);
      && (im in w.files[..b] ==>
            && r.1 == d - 1
            && Zip(r.0) == MoveToEnd(Zip(w), IndexOf(w.files, im))
            && multiset(Zip(r.0)) == multiset(Zip(w))
            && Zip(r.0)[|w.files| - 1] == (im, w.texts[IndexOf(w.files, im)]))
      && (im !in w.files[..b] ==> r.1 == d && Zip(r.0) == Zip(w) + [(im, None)])
  {
    var r := Place(w, d, im);
    var first := FirstBefore(w.files, im, SliceBound(w.i, |w.files|));
    if first.Some? {
      var j := first.value;
      IndexOfAt(w.files, im, j);
      MoveToEndZip(w, j);
      MoveToEndPermutes(Zip(w), j);
      MoveToEndEntries(Zip(w), j);
    } else {
      assert Zip(r.0) == Zip(w) + [(im, None)];
    }
  }

  /** Placing a dependency keeps every unit and leaves the dependency in the list. */
  lemma PlaceFiles(w: Work, d: int, im: string)
    requires Lockstep(w)
    ensures var r := Place(w, d, im);
      multiset(w.files) <= multiset(r.0.files) && im in r.0.files
  {
    var first := FirstBefore(w.files, im, SliceBound(w.i, |w.files|));
    if first.Some? {
      MoveToEndPermutes(w.files, first.value);
      assert im in multiset(w.files);
    }
  }

  /** The inner `for im_file in imports.split('.')` loop. */
  function PlaceAll(w: Work, d: int, names: seq<string>): (r: (Work, int))
    requires Lockstep(w)
    ensures Lockstep(r.0) && r.0.i == w.i
    ensures r.1 <= d && |w.files| <= |r.0.files|
    ensures |r.0.files| - |w.files| + (d - r.1) == |names|
    decreases |names|
  {
    if names == [] then (w, d)
    else
      var p := Place(w, d, names[0]);
      PlaceAll(p.0, p.1, names[1..])
  }

  /** Every dependency is in the list afterwards, and no unit was dropped. */
  lemma {:induction false} PlaceAllFiles(w: Work, d: int, names: seq<string>)
    requires Lockstep(w)
    ensures var r := PlaceAll(w, d, names);
      multiset(w.files) <= multiset(r.0.files) && forall n :: n in names ==> n in r.0.files
    decreases |names|
  {
    if names != [] {
      var p := Place(w, d, names[0]);
      var r := PlaceAll(p.0, p.1, names[1..]);
      assert PlaceAll(w, d, names) == r;
      PlaceFiles(w, d, names[0]);
      PlaceAllFiles(p.0, p.1, names[1..]);
      assert names[0] in multiset(r.0.files);
      forall n | n in names ensures n in r.0.files {
        if n != names[0] {
          assert n in names[1..];
        }
      }
    }
  }

  /** `texts[i]` when it is truthy, otherwise `import_npd(files[i])`. */
  function Fetch(w: Work, k: nat, loader: Loader): (r: Result<string>)
    requires Lockstep(w) && k < |w.files|
    ensures Cached(w.texts[k]) ==> r == Ok(w.texts[k].value)
    ensures !Cached(w.texts[k]) && w.files[k] in loader ==> r == Ok(loader[w.files[k]])
    ensures !Cached(w.texts[k]) && w.files[k] !in loader ==> r == Fail(NumpadError(ImportFailed(w.files[k])))
  {
    if Cached(w.texts[k]) then Ok(w.texts[k].value)
    else if w.files[k] in loader then Ok(loader[w.files[k]])
    else Fail(NumpadError(ImportFailed(w.files[k])))
  }

  /**
   * The rest of a pass once the unit at position `k` has its text: cache it,
   * place its dependencies, and move the cursor by the increment.
   */
  function Settle(w: Work, k: nat, text: string, names: seq<string>): (r: Work)
    requires Lockstep(w) && k < |w.files|
    ensures Lockstep(r) && r.i <= w.i + 1 && |w.files| <= |r.files|
    ensures r.i - w.i == 1 - (|w.files| + |names| - |r.files|)
  {
    var p := PlaceAll(w.(texts := w.texts[k := Some(text)]), 1, names);
    p.0.(i := w.i + p.1)
  }

  /** One pass of `while i < len(files)`. */
  function Step(w: Work, loader: Loader): (r: Result<Work>)
    requires Lockstep(w) && w.i < |w.files|
    ensures PyIndex(w.i, |w.files|).None? ==> r == Fail(IndexError)
    ensures r.Ok? ==> Lockstep(r.value) && r.value.i <= w.i + 1 && r.value.i <= |r.value.files|
  {
    match PyIndex(w.i, |w.files|)
    case None => Fail(IndexError)
    case Some(k) =>
      match Fetch(w, k, loader)
      case Fail(e) => Fail(e)
      case Ok(text) =>
        match SplitOnce(text, '\n')
        case None => Fail(ValueError)
        case Some((header, _)) => Ok(Settle(w, k, text, Imports(header)))
  }

  /** The units before the cursor all hold text with a header line. */
  predicate LoadedBefore(w: Work)
  {
    forall p :: 0 <= p < w.i && p < |w.texts| ==> Loaded(w.texts[p])
  }

  /** The whole loop; each pass spends one unit of fuel. */
  function Resolve(w: Work, loader: Loader, fuel: nat): (r: Result<Work>)
    requires Lockstep(w) && w.i <= |w.files|
    ensures r.Ok? ==> Lockstep(r.value) && r.value.i == |r.value.files|
    decreases fuel, 2
  {
    if w.i >= |w.files| then Ok(w) else Iterate(w, loader, fuel)
  }

  /** The loop body is entered: one more pass if there is fuel for it. */
  function Iterate(w: Work, loader: Loader, fuel: nat): (r: Result<Work>)
    requires Lockstep(w) && w.i < |w.files|
    ensures r.Ok? ==> Lockstep(r.value) && r.value.i == |r.value.files|
    decreases fuel, 1
  {
    if fuel == 0 then Fail(OutOfFuel) else Advance(w, loader, fuel)
  }

  /** A pass over the unit at the cursor, then the rest of the loop with one unit of fuel less. */
  function Advance(w: Work, loader: Loader, fuel: nat): (r: Result<Work>)
    requires Lockstep(w) && w.i < |w.files| && fuel > 0
    ensures r.Ok? ==> Lockstep(r.value) && r.value.i == |r.value.files|
    decreases fuel, 0
  {
    match Step(w, loader)
    case Fail(e) => Fail(e)
    case Ok(next) => Resolve(next, loader, fuel - 1)
  }

  /** One pass of the loop, then the rest of it with one unit of fuel less. */
  lemma ResolveUnfold(w: Work, loader: Loader, fuel: nat)
    requires Lockstep(w) && w.i < |w.files| && fuel > 0
    ensures var next := Step(w, loader);
      Resolve(w, loader, fuel) == if next.Fail? then Fail(next.error) else Resolve(next.value, loader, fuel - 1)
  {
    assert Resolve(w, loader, fuel) == Iterate(w, loader, fuel) == Advance(w, loader, fuel);
  }

  /**
   * The outcome of the pass at the cursor, named so that the rest of the loop
   * can be reasoned about without looking inside the pass.
   */
  lemma NextState(w: Work, loader: Loader) returns (next: Result<Work>)
    requires Lockstep(w) && w.i < |w.files|
    ensures next.Ok? ==> Lockstep(next.value) && next.value.i <= |next.value.files|
    ensures forall fuel: nat :: fuel > 0 ==>
      Resolve(w, loader, fuel) == if next.Fail? then Fail(next.error) else Resolve(next.value, loader, fuel - 1)
    ensures next.Ok? && LoadedBefore(w) ==> LoadedBefore(next.value)
  {
    next := Step(w, loader);
    forall fuel: nat | fuel > 0
      ensures Resolve(w, loader, fuel) == if next.Fail? then Fail(next.error) else Resolve(next.value, loader, fuel - 1)
    {
      ResolveUnfold(w, loader, fuel);
    }
    if next.Ok? && LoadedBefore(w) {
      StepKeepsLoaded(w, loader);
    }
  }

  /** The state the loop starts from: the program file alone, not yet read. */
  function Initial(name: string): (w: Work)
    ensures Lockstep(w) && w.i == 0 && LoadedBefore(w)
  {
    Work([name], [None], 0)
  }

  /** Everything after the first line of a unit's text. */
  function Body(t: Option<string>): (b: string)
    requires Loaded(t)
    ensures exists header :: '\n' !in header && header + "\n" + b == t.value
  {
    var parts := SplitOnce(t.value, '\n').value;
    assert parts.0 + "\n" + parts.1 == t.value;
    parts.1
  }

  /** The bodies of all units, the last unit's first. */
  function Stacked(texts: seq<Option<string>>): string
    requires forall k :: 0 <= k < |texts| ==> Loaded(texts[k])
  {
    if texts == [] then "" else Body(texts[|texts| - 1]) + Stacked(texts[..|texts| - 1])
  }

  /** The loop `final_text = text.split('\n', maxsplit=1)[1] + final_text`. */
  function Assemble(texts: seq<Option<string>>, acc: string): (r: Result<string>)
    ensures r.Ok? <==> forall k :: 0 <= k < |texts| ==> Loaded(texts[k])
  {
    if texts == [] then Ok(acc)
    else match texts[0]
      case None => Fail(AttributeError)
      case Some(t) =>
        match SplitOnce(t, '\n')
        case None => Fail(IndexError)
        case Some((_, body)) =>
          var r := Assemble(texts[1..], body + acc);
          assert forall k :: 1 <= k < |texts| ==> texts[k] == texts[1..][k - 1];
          r
  }

  /** `load_program`: the existence check, the resolution loop and the final assembly. */
  function LoadProgramSpec(name: string, loader: Loader, fuel: nat): (r: Result<string>)
    ensures name !in loader ==> r == Fail(NumpadError(Missing(name)))
    ensures r.Ok? <==> name in loader && Resolve(Initial(name), loader, fuel).Ok?
  {
    if name !in loader then Fail(NumpadError(Missing(name)))
    else
      var w :- Resolve(Initial(name), loader, fuel);
      ResolveLoadsAll(Initial(name), loader, fuel);
      Assemble(w.texts, "\n")
  }

  // ---------------------------------------------------------------------
  // What a pass keeps

  /**
   * A pass caches the unit's text at the cursor and keeps every unit before
   * the new cursor loaded: moved entries carry their text with them.
   */
  lemma {:induction false} StepKeepsLoaded(w: Work, loader: Loader)
    requires Lockstep(w) && w.i < |w.files| && LoadedBefore(w) && Step(w, loader).Ok?
    ensures LoadedBefore(Step(w, loader).value)
  {
    if w.i >= 0 {
      var text := Fetch(w, w.i, loader).value;
      var header := SplitOnce(text, '\n').value.0;
      assert Step(w, loader).value == Settle(w, w.i, text, Imports(header));
      var w1 := w.(texts := w.texts[w.i := Some(text)]);
      assert forall q :: 0 <= q < w.i + 1 ==> Loaded(w1.texts[q]) by {
        assert Loaded(w1.texts[w.i]);
        assert forall q :: 0 <= q < w.i ==> w1.texts[q] == w.texts[q];
      }
      PlaceAllKeepsLoaded(w1, 1, Imports(header), w.i + 1);
      assert var r := PlaceAll(w1, 1, Imports(header));
        forall q :: 0 <= q < (w.i + 1) - (1 - r.1) ==> Loaded(r.0.texts[q]);
      var p := PlaceAll(w1, 1, Imports(header));
      assert Settle(w, w.i, text, Imports(header)) == p.0.(i := w.i + p.1);
      assert forall q :: 0 <= q < w.i + p.1 ==> Loaded(p.0.texts[q]);
    } else {
      assert Step(w, loader).value.i <= 0;
    }
  }

  lemma {:induction false} PlaceKeepsLoaded(w: Work, d: int, im: string, m: int)
    requires Lockstep(w) && m <= |w.files|
    requires forall q :: 0 <= q < m ==> Loaded(w.texts[q])
    ensures var r := Place(w, d, im);
      forall q :: 0 <= q < m - (d - r.1) ==> Loaded(r.0.texts[q])
  {
    var r := Place(w, d, im);
    var first := FirstBefore(w.files, im, SliceBound(w.i, |w.files|));
    if first.Some? {
      var j := first.value;
      MoveToEndEntries(w.texts, j);
      forall p | 0 <= p < m - 1 ensures Loaded(r.0.texts[p]) {
        if p >= j {
          assert r.0.texts[p] == w.texts[p + 1];
        }
      }
    }
  }

  lemma {:induction false} PlaceAllKeepsLoaded(w: Work, d: int, names: seq<string>, m: int)
    requires Lockstep(w) && m <= |w.files|
    requires forall q :: 0 <= q < m ==> Loaded(w.texts[q])
    ensures var r := PlaceAll(w, d, names);
      forall q :: 0 <= q < m - (d - r.1) ==> Loaded(r.0.texts[q])
    decreases |names|
  {
    if names != [] {
      var p := Place(w, d, names[0]);
      PlaceKeepsLoaded(w, d, names[0], m);
      var m' := m - (d - p.1);
      PlaceAllKeepsLoaded(p.0, p.1, names[1..], m');
      assert var r := PlaceAll(p.0, p.1, names[1..]); forall q :: 0 <= q < m' - (p.1 - r.1) ==> Loaded(r.0.texts[q]);
      var r := PlaceAll(p.0, p.1, names[1..]);
      assert PlaceAll(w, d, names) == r;
      assert m' - (p.1 - r.1) == m - (d - r.1);
      assert forall q :: 0 <= q < m' - (p.1 - r.1) ==> Loaded(r.0.texts[q]);
    }
  }

  /** When the loop finishes, every unit has been loaded, so the assembly cannot fail. */
  lemma {:induction false} ResolveLoadsAll(w: Work, loader: Loader, fuel: nat)
    requires Lockstep(w) && w.i <= |w.files| && LoadedBefore(w)
    ensures AllLoaded(Resolve(w, loader, fuel))
    decreases fuel
  {
    if w.i < |w.files| && fuel > 0 {
      var next := NextState(w, loader);
      if next.Ok? {
        ResolveLoadsAll(next.value, loader, fuel - 1);
      }
    } else if w.i >= |w.files| {
      assert Resolve(w, loader, fuel) == Ok(w);
    }
  }

  /** A finished loop whose units all hold text with a header line. */
  predicate AllLoaded(r: Result<Work>)
  {
    r.Ok? ==> forall k :: 0 <= k < |r.value.texts| ==> Loaded(r.value.texts[k])
  }

  /** A unit whose text is cached is not read again: the loader is not consulted. */
  lemma CachedTextSkipsLoader(w: Work, loader: Loader, other: Loader)
    requires Lockstep(w) && w.i < |w.files|
    requires PyIndex(w.i, |w.files|).Some? && Cached(w.texts[PyIndex(w.i, |w.files|).value])
    ensures Step(w, loader) == Step(w, other)
  {
  }

  /**
   * The cursor advances by one less than the number of dependencies that
   * were moved rather than appended.
   */
  lemma StepAdvance(w: Work, loader: Loader)
    requires Lockstep(w) && 0 <= w.i < |w.files| && Step(w, loader).Ok?
    ensures var names := Imports(SplitOnce(Fetch(w, w.i, loader).value, '\n').value.0);
      var r := Step(w, loader).value;
      var moved := |w.files| + |names| - |r.files|;
      0 <= moved <= |names| && r.i == w.i + 1 - moved
  {
    var text := Fetch(w, w.i, loader).value;
    var header := SplitOnce(text, '\n').value.0;
    assert Step(w, loader).value == Settle(w, w.i, text, Imports(header));
  }

  /** The cursor's unit text is cached in place by a pass, with its header line. */
  lemma StepCaches(w: Work, loader: Loader)
    requires Lockstep(w) && 0 <= w.i < |w.files| && Step(w, loader).Ok?
    ensures var text := Fetch(w, w.i, loader).value;
      '\n' in text && exists k :: 0 <= k < |Step(w, loader).value.texts| && Step(w, loader).value.texts[k] == Some(text)
  {
    var text := Fetch(w, w.i, loader).value;
    var header := SplitOnce(text, '\n').value.0;
    var w1 := w.(texts := w.texts[w.i := Some(text)]);
    var r := PlaceAll(w1, 1, Imports(header)).0;
    assert Step(w, loader).value.texts == r.texts;
    var pair := (w.files[w.i], Some(text));
    assert Zip(w1)[w.i] == pair;
    assert pair in multiset(Zip(w1));
    PlaceAllZip(w1, 1, Imports(header));
    assert pair in multiset(Zip(r));
    assert pair in Zip(r);
    var k :| 0 <= k < |Zip(r)| && Zip(r)[k] == (w.files[w.i], Some(text));
    assert r.texts[k] == Some(text);
  }

  /** No unit-and-text pair is lost by the inner loop. */
  lemma {:induction false} PlaceAllZip(w: Work, d: int, names: seq<string>)
    requires Lockstep(w)
    ensures multiset(Zip(w)) <= multiset(Zip(PlaceAll(w, d, names).0))
    decreases |names|
  {
    if names != [] {
      var p := Place(w, d, names[0]);
      PlaceKeepsPairs(w, d, names[0]);
      PlaceAllZip(p.0, p.1, names[1..]);
    }
  }

  /** More fuel does not change a finished resolution. */
  lemma {:induction false} ResolveFuel(w: Work, loader: Loader, fuel: nat, more: nat)
    requires Lockstep(w) && w.i <= |w.files|
    requires fuel <= more && !Resolve(w, loader, fuel).Exhausted()
    ensures Resolve(w, loader, more) == Resolve(w, loader, fuel)
    decreases fuel
  {
    if w.i < |w.files| && fuel > 0 {
      var next := NextState(w, loader);
      if next.Ok? {
        ResolveFuel(next.value, loader, fuel - 1, more - 1);
      }
    }
  }

  // ---------------------------------------------------------------------
  // The assembled text

  /** Assembly puts the bodies in reverse order of the list, ahead of what was there. */
  lemma {:induction false} AssembleStacks(texts: seq<Option<string>>, acc: string)
    requires forall k :: 0 <= k < |texts| ==> Loaded(texts[k])
    ensures Assemble(texts, acc) == Ok(Stacked(texts) + acc)
    decreases |texts|
  {
    if texts != [] {
      var body := Body(texts[0]);
      assert body == SplitOnce(texts[0].value, '\n').value.1;
      assert Assemble(texts, acc) == Assemble(texts[1..], body + acc);
      assert forall k :: 0 <= k < |texts[1..]| ==> texts[1..][k] == texts[k + 1];
      AssembleStacks(texts[1..], body + acc);
      assert Assemble(texts, acc) == Ok(Stacked(texts[1..]) + (body + acc));
      StackedFront(texts);
      assert Stacked(texts) == Stacked(texts[1..]) + body;
      assert Stacked(texts[1..]) + (body + acc) == Stacked(texts) + acc;
    } else {
      assert Stacked(texts) + acc == acc;
    }
  }

  lemma {:induction false} StackedFront(texts: seq<Option<string>>)
    requires |texts| >= 1 && forall k :: 0 <= k < |texts| ==> Loaded(texts[k])
    ensures Stacked(texts) == Stacked(texts[1..]) + Body(texts[0])
    decreases |texts|
  {
    if |texts| > 1 {
      var n := |texts|;
      assert texts[..n - 1][1..] == texts[1..][..n - 2];
      assert texts[1..][n - 2] == texts[n - 1];
      StackedFront(texts[..n - 1]);
    }
  }

  /** A finished load is the bodies stacked in reverse list order, then a newline. */
  lemma LoadProgramStacks(name: string, loader: Loader, fuel: nat)
    requires name in loader && Resolve(Initial(name), loader, fuel).Ok?
    ensures var w := Resolve(Initial(name), loader, fuel).value;
      (forall k :: 0 <= k < |w.texts| ==> Loaded(w.texts[k]))
      && LoadProgramSpec(name, loader, fuel) == Ok(Stacked(w.texts) + "\n")
  {
    var w := Resolve(Initial(name), loader, fuel).value;
    ResolveLoadsAll(Initial(name), loader, fuel);
    AssembleStacks(w.texts, "\n");
  }

  // ---------------------------------------------------------------------
  // Passes over new dependencies

  /** `n` entries of `texts` not read yet. */
  function Unread(n: nat): (r: seq<Option<string>>)
    ensures |r| == n && forall k :: 0 <= k < n ==> r[k].None?
  {
    seq(n, _ => None)
  }

  /** Dependencies none of which occurs before the cursor are appended in order, with no text. */
  lemma {:induction false} PlaceAllAppends(w: Work, d: int, names: seq<string>)
    requires Lockstep(w) && 0 <= w.i <= |w.files|
    requires forall n :: n in names ==> n !in w.files[..w.i]
    ensures PlaceAll(w, d, names) == (Work(w.files + names, w.texts + Unread(|names|), w.i), d)
    decreases |names|
  {
    if names != [] {
      var next := Work(w.files + [names[0]], w.texts + [None], w.i);
      assert names[0] in names;
      assert Place(w, d, names[0]) == (next, d);
      assert next.files[..w.i] == w.files[..w.i];
      forall n | n in names[1..] ensures n !in next.files[..next.i] {
        assert n in names;
      }
      PlaceAllAppends(next, d, names[1..]);
      assert next.files + names[1..] == w.files + names;
      assert next.texts + Unread(|names| - 1) == w.texts + Unread(|names|);
      assert PlaceAll(w, d, names) == PlaceAll(next, d, names[1..]);
    } else {
      assert w.files + names == w.files && w.texts + Unread(0) == w.texts;
    }
  }

  /**
   * A pass over a unit whose header names only units not before the cursor:
   * the text is cached, the dependencies are queued, the cursor moves on by one.
   */
  lemma StepAppends(w: Work, loader: Loader, deps: seq<string>, body: string)
    requires Lockstep(w) && 0 <= w.i < |w.files|
    requires |deps| >= 1 && deps[0] != ""
    requires forall n :: n in deps ==> '.' !in n && '\n' !in n && n !in w.files[..w.i]
    requires Fetch(w, w.i, loader) == Ok(Join(deps, '.') + "\n" + body)
    ensures var text := Join(deps, '.') + "\n" + body;
      Step(w, loader) == Ok(Work(w.files + deps, w.texts[w.i := Some(text)] + Unread(|deps|), w.i + 1))
  {
    var header := Join(deps, '.');
    var text := header + "\n" + body;
    JoinAvoids(deps, '.', '\n');
    SplitOnceAt(header, body, '\n');
    JoinNonEmpty(deps, '.');
    SplitUnique(deps, '.');
    assert Imports(header) == deps;
    var w1 := w.(texts := w.texts[w.i := Some(text)]);
    PlaceAllAppends(w1, 1, deps);
    assert Settle(w, w.i, text, deps) == Work(w.files + deps, w1.texts + Unread(|deps|), w.i + 1);
  }

  /** A pass over a unit with an empty header only caches its text. */
  lemma StepLeaf(w: Work, loader: Loader, body: string)
    requires Lockstep(w) && 0 <= w.i < |w.files|
    requires Fetch(w, w.i, loader) == Ok("\n" + body)
    ensures Step(w, loader) == Ok(Work(w.files, w.texts[w.i := Some("\n" + body)], w.i + 1))
  {
    SplitOnceAt("", body, '\n');
    assert "" + "\n" + body == "\n" + body;
    assert Imports("") == [];
  }

  // ---------------------------------------------------------------------
  // Worked examples

  /** The loop after a pass over a unit whose dependencies are all new. */
  lemma ResolveAppends(w: Work, loader: Loader, deps: seq<string>, body: string, next: Work, fuel: nat)
    requires Lockstep(w) && 0 <= w.i < |w.files| && fuel > 0
    requires |deps| >= 1 && deps[0] != ""
    requires forall n :: n in deps ==> '.' !in n && '\n' !in n && n !in w.files[..w.i]
    requires Fetch(w, w.i, loader) == Ok(Join(deps, '.') + "\n" + body)
    requires next == Work(w.files + deps, w.texts[w.i := Some(Join(deps, '.') + "\n" + body)] + Unread(|deps|), w.i + 1)
    ensures Resolve(w, loader, fuel) == Resolve(next, loader, fuel - 1)
  {
    StepAppends(w, loader, deps, body);
    ResolveUnfold(w, loader, fuel);
  }

  /** The loop after a pass over a unit with no dependencies. */
  lemma ResolveLeaf(w: Work, loader: Loader, body: string, next: Work, fuel: nat)
    requires Lockstep(w) && 0 <= w.i < |w.files| && fuel > 0
    requires Fetch(w, w.i, loader) == Ok("\n" + body)
    requires next == Work(w.files, w.texts[w.i := Some("\n" + body)], w.i + 1)
    ensures Resolve(w, loader, fuel) == Resolve(next, loader, fuel - 1)
  {
    StepLeaf(w, loader, body);
    ResolveUnfold(w, loader, fuel);
  }

  /** Three texts assemble last body first. */
  lemma StackedThree(h0: string, b0: string, h1: string, b1: string, h2: string, b2: string)
    requires '\n' !in h0 && '\n' !in h1 && '\n' !in h2
    ensures var texts := [Some(h0 + "\n" + b0), Some(h1 + "\n" + b1), Some(h2 + "\n" + b2)];
      (forall k :: 0 <= k < 3 ==> Loaded(texts[k])) && Stacked(texts) == b2 + b1 + b0
  {
    var texts := [Some(h0 + "\n" + b0), Some(h1 + "\n" + b1), Some(h2 + "\n" + b2)];
    BodyAfter(h0, b0);
    BodyAfter(h1, b1);
    BodyAfter(h2, b2);
    assert texts[..2][..1] == texts[..1];
    assert Stacked(texts[..1]) == b0 + Stacked([]);
    assert Stacked(texts[..2]) == b1 + Stacked(texts[..1]);
  }

  /** A unit name a header line can hold: not empty, no `.` and no newline. */
  predicate UnitName(n: string)
  {
    n != "" && '.' !in n && '\n' !in n
  }

  /** `e` needs `d`, which needs `c`: the innermost dependency's body comes first. */
  lemma ChainStacksInnermostFirst(e: string, d: string, c: string, bodyE: string, bodyD: string, bodyC: string, loader: Loader)
    requires UnitName(e) && UnitName(d) && UnitName(c) && e != d && d != c && e != c
    requires e in loader && loader[e] == d + "\n" + bodyE
    requires d in loader && loader[d] == c + "\n" + bodyD
    requires c in loader && loader[c] == "\n" + bodyC
    ensures LoadProgramSpec(e, loader, 3) == Ok(bodyC + bodyD + bodyE + "\n")
  {
    ChainResolves(e, d, c, bodyE, bodyD, bodyC, loader);
    LoadProgramStacks(e, loader, 3);
    assert "" + "\n" + bodyC == loader[c];
    StackedThree(d, bodyE, c, bodyD, "", bodyC);
  }

  /** The chain is resolved in three passes, in import order, each unit read once. */
  lemma ChainResolves(e: string, d: string, c: string, bodyE: string, bodyD: string, bodyC: string, loader: Loader)
    requires UnitName(e) && UnitName(d) && UnitName(c) && e != d && d != c && e != c
    requires e in loader && loader[e] == d + "\n" + bodyE
    requires d in loader && loader[d] == c + "\n" + bodyD
    requires c in loader && loader[c] == "\n" + bodyC
    ensures Resolve(Initial(e), loader, 3) == Ok(Work([e, d, c], [Some(loader[e]), Some(loader[d]), Some(loader[c])], 3))
  {
    var w0 := Initial(e);
    var w1 := Work([e, d], [Some(loader[e]), None], 1);
    assert Join([d], '.') == d;
    assert Work(w0.files + [d], w0.texts[0 := Some(Join([d], '.') + "\n" + bodyE)] + Unread(1), 1) == w1;
    ResolveAppends(w0, loader, [d], bodyE, w1, 3);
    ChainResolvesFromD(e, d, c, bodyD, bodyC, loader);
  }

  /** The last two passes of the chain. */
  lemma ChainResolvesFromD(e: string, d: string, c: string, bodyD: string, bodyC: string, loader: Loader)
    requires UnitName(e) && UnitName(d) && UnitName(c) && e != d && d != c && e != c
    requires e in loader && d in loader && loader[d] == c + "\n" + bodyD
    requires c in loader && loader[c] == "\n" + bodyC
    ensures Resolve(Work([e, d], [Some(loader[e]), None], 1), loader, 2) == Ok(Work([e, d, c], [Some(loader[e]), Some(loader[d]), Some(loader[c])], 3))
  {
    var w1 := Work([e, d], [Some(loader[e]), None], 1);
    var w2 := Work([e, d, c], [Some(loader[e]), Some(loader[d]), None], 2);
    assert Join([c], '.') == c;
    assert Work(w1.files + [c], w1.texts[1 := Some(Join([c], '.') + "\n" + bodyD)] + Unread(1), 2) == w2;
    ResolveAppends(w1, loader, [c], bodyD, w2, 2);
    ResolveLastLeaf(w2, loader, bodyC);
    assert Work(w2.files, w2.texts[2 := Some("\n" + bodyC)], 3) == Work([e, d, c], [Some(loader[e]), Some(loader[d]), Some(loader[c])], 3);
  }

  /** A last pass over a unit with no dependencies ends the loop. */
  lemma ResolveLastLeaf(w: Work, loader: Loader, body: string)
    requires Lockstep(w) && 0 <= w.i && w.i + 1 == |w.files|
    requires Fetch(w, w.i, loader) == Ok("\n" + body)
    ensures Resolve(w, loader, 1) == Ok(Work(w.files, w.texts[w.i := Some("\n" + body)], w.i + 1))
  {
    var next := Work(w.files, w.texts[w.i := Some("\n" + body)], w.i + 1);
    ResolveLeaf(w, loader, body, next, 1);
    assert Resolve(next, loader, 0) == Ok(next);
  }

  /** The body of a text is what follows its header line. */
  lemma BodyAfter(header: string, body: string)
    requires '\n' !in header
    ensures Loaded(Some(header + "\n" + body)) && Body(Some(header + "\n" + body)) == body
  {
    SplitOnceAt(header, body, '\n');
  }

  /**
   * A unit named twice on one header line is not yet before the cursor
   * either time, so it is queued twice and its body appears twice.
   */
  lemma RepeatedImportRepeatsBody(a: string, b: string, bodyA: string, bodyB: string, loader: Loader)
    requires UnitName(a) && UnitName(b) && a != b
    requires a in loader && loader[a] == b + "." + b + "\n" + bodyA
    requires b in loader && loader[b] == "\n" + bodyB
    ensures LoadProgramSpec(a, loader, 3) == Ok(bodyB + bodyB + bodyA + "\n")
  {
    RepeatedResolves(a, b, bodyA, bodyB, loader);
    LoadProgramStacks(a, loader, 3);
    assert "" + "\n" + bodyB == loader[b];
    StackedThree(b + "." + b, bodyA, "", bodyB, "", bodyB);
  }

  /** Both mentions of `b` are queued, and each is read in its own pass. */
  lemma RepeatedResolves(a: string, b: string, bodyA: string, bodyB: string, loader: Loader)
    requires UnitName(a) && UnitName(b) && a != b
    requires a in loader && loader[a] == b + "." + b + "\n" + bodyA
    requires b in loader && loader[b] == "\n" + bodyB
    ensures Resolve(Initial(a), loader, 3) == Ok(Work([a, b, b], [Some(loader[a]), Some(loader[b]), Some(loader[b])], 3))
  {
    var w0 := Initial(a);
    var w1 := Work([a, b, b], [Some(loader[a]), None, None], 1);
    assert Join([b, b], '.') == b + "." + b;
    assert Work(w0.files + [b, b], w0.texts[0 := Some(Join([b, b], '.') + "\n" + bodyA)] + Unread(2), 1) == w1;
    ResolveAppends(w0, loader, [b, b], bodyA, w1, 3);
    RepeatedResolvesFromB(a, b, bodyB, loader);
  }

  /** The two passes over the copies of `b`. */
  lemma RepeatedResolvesFromB(a: string, b: string, bodyB: string, loader: Loader)
    requires a in loader && b in loader && loader[b] == "\n" + bodyB
    ensures Resolve(Work([a, b, b], [Some(loader[a]), None, None], 1), loader, 2) == Ok(Work([a, b, b], [Some(loader[a]), Some(loader[b]), Some(loader[b])], 3))
  {
    var w1 := Work([a, b, b], [Some(loader[a]), None, None], 1);
    var w2 := Work([a, b, b], [Some(loader[a]), Some(loader[b]), None], 2);
    assert Work(w1.files, w1.texts[1 := Some("\n" + bodyB)], 2) == w2;
    ResolveLeaf(w1, loader, bodyB, w2, 2);
    ResolveLastLeaf(w2, loader, bodyB);
    assert Work(w2.files, w2.texts[2 := Some("\n" + bodyB)], 3) == Work([a, b, b], [Some(loader[a]), Some(loader[b]), Some(loader[b])], 3);
  }

  /** Two units importing each other swap places for ever: no amount of fuel finishes the loop. */
  lemma MutualImportNeverFinishes(x: string, y: string, bodyX: string, bodyY: string, loader: Loader, fuel: nat)
    requires UnitName(x) && UnitName(y) && x != y
    requires x in loader && loader[x] == y + "\n" + bodyX
    requires y in loader && loader[y] == x + "\n" + bodyY
    ensures LoadProgramSpec(x, loader, fuel) == Fail(OutOfFuel)
  {
    var w0 := Initial(x);
    if fuel > 0 {
      var w1 := Work([x, y], [Some(loader[x]), None], 1);
      assert Join([y], '.') == y;
      assert Work(w0.files + [y], w0.texts[0 := Some(Join([y], '.') + "\n" + bodyX)] + Unread(1), 1) == w1;
      ResolveAppends(w0, loader, [y], bodyX, w1, fuel);
      if fuel > 1 {
        MutualSwaps(x, y, bodyX, bodyY, loader, fuel - 1);
      }
    }
  }

  /** Once `y` is queued behind `x`, the two change places at every pass. */
  lemma MutualSwaps(x: string, y: string, bodyX: string, bodyY: string, loader: Loader, fuel: nat)
    requires UnitName(x) && UnitName(y) && x != y
    requires x in loader && loader[x] == y + "\n" + bodyX
    requires y in loader && loader[y] == x + "\n" + bodyY
    requires fuel > 0
    ensures Resolve(Work([x, y], [Some(loader[x]), None], 1), loader, fuel) == Fail(OutOfFuel)
  {
    var w1 := Work([x, y], [Some(loader[x]), None], 1);
    var yx := Work([y, x], [Some(loader[y]), Some(loader[x])], 1);
    var xy := Work([x, y], [Some(loader[x]), Some(loader[y])], 1);
    SwapStep(x, y, loader[x], bodyY, None, loader);
    SwapStep(y, x, loader[y], bodyX, Some(loader[x]), loader);
    SwapStep(x, y, loader[x], bodyY, Some(loader[y]), loader);
    ResolveUnfold(w1, loader, fuel);
    PassLeadsTo(yx, xy, loader);
    PassLeadsTo(xy, yx, loader);
    CycleNeverFinishes(yx, xy, loader, fuel - 1);
  }

  /** A pass that turns `w` into `v`: from then on the loop goes as it goes from `v`. */
  lemma PassLeadsTo(w: Work, v: Work, loader: Loader)
    requires Lockstep(w) && w.i < |w.files| && Lockstep(v) && v.i <= |v.files|
    requires Step(w, loader) == Ok(v)
    ensures forall fuel: nat :: fuel > 0 ==> Resolve(w, loader, fuel) == Resolve(v, loader, fuel - 1)
  {
    forall fuel: nat | fuel > 0
      ensures Resolve(w, loader, fuel) == Resolve(v, loader, fuel - 1)
    {
      ResolveUnfold(w, loader, fuel);
    }
  }

  /**
   * Two unfinished states each of which a pass turns into the other keep the
   * loop running until the fuel is gone.
   */
  lemma {:induction false} CycleNeverFinishes(w: Work, v: Work, loader: Loader, fuel: nat)
    requires Lockstep(w) && w.i < |w.files| && Lockstep(v) && v.i < |v.files|
    requires forall f: nat :: f > 0 ==> Resolve(w, loader, f) == Resolve(v, loader, f - 1)
    requires forall f: nat :: f > 0 ==> Resolve(v, loader, f) == Resolve(w, loader, f - 1)
    ensures Resolve(w, loader, fuel) == Fail(OutOfFuel)
    decreases fuel
  {
    if fuel > 0 {
      CycleNeverFinishes(v, w, loader, fuel - 1);
    }
  }

  /** A pass over `b`, which imports the unit `a` before it: the two change places. */
  lemma SwapStep(a: string, b: string, ta: string, body: string, tb: Option<string>, loader: Loader)
    requires a != b && a != "" && '.' !in a && '\n' !in a
    requires Fetch(Work([a, b], [Some(ta), tb], 1), 1, loader) == Ok(a + "\n" + body)
    ensures var text := a + "\n" + body;
      Step(Work([a, b], [Some(ta), tb], 1), loader) == Ok(Work([b, a], [Some(text), Some(ta)], 1))
  {
    var text := a + "\n" + body;
    var w := Work([a, b], [Some(ta), tb], 1);
    SplitOnceAt(a, body, '\n');
    assert Imports(a) == [a];
    var w1 := w.(texts := w.texts[1 := Some(text)]);
    assert FirstBefore(w1.files, a, 1) == Some(0);
    var swapped := Work([b, a], [Some(text), Some(ta)], 1);
    assert MoveToEnd(w1.files, 0) == swapped.files;
    assert MoveToEnd(w1.texts, 0) == swapped.texts;
    assert Place(w1, 1, a) == (swapped, 0);
    assert PlaceAll(w1, 1, [a]) == (swapped, 0);
    assert Settle(w, 1, text, [a]) == swapped;
  }

  // ---------------------------------------------------------------------
  // The imperative loop

  /** `s.append(s[j]); del s[j]` is the move to the end. */
  lemma AppendThenDelete<T>(s: seq<T>, j: nat, x: T)
    requires j < |s| && x == s[j]
    ensures (s + [x])[..j] + (s + [x])[j + 1..] == MoveToEnd(s, j)
  {
    MoveToEndEntries(s, j);
    assert (s + [x])[..j] == s[..j];
    assert (s + [x])[j + 1..] == s[j + 1..] + [x];
  }

  /**
   * The inner `for im_file in imports.split('.')` loop: each dependency is
   * appended, and when it occurs before the cursor its first occurrence is
   * then deleted, in both lists.
   */
  method PlaceImports(files0: seq<string>, texts0: seq<Option<string>>, i: int, names: seq<string>)
    returns (files: seq<string>, texts: seq<Option<string>>, d: int)
    requires |files0| == |texts0|
    ensures (Work(files, texts, i), d) == PlaceAll(Work(files0, texts0, i), 1, names)
  {
    files, texts, d := files0, texts0, 1;
    for n := 0 to |names|
      invariant |files| == |texts|
      invariant PlaceAll(Work(files, texts, i), d, names[n..]) == PlaceAll(Work(files0, texts0, i), 1, names)
    {
      PlaceAllFirst(Work(files, texts, i), d, names, n);
      files, texts, d := PlaceImport(files, texts, i, d, names[n]);
    }
    assert names[|names|..] == [];
  }

  /** One dependency: `files.append(im_file)`, and `del files[j]` when it occurs before the cursor. */
  method PlaceImport(files0: seq<string>, texts0: seq<Option<string>>, i: int, d0: int, im: string)
    returns (files: seq<string>, texts: seq<Option<string>>, d: int)
    requires |files0| == |texts0|
    ensures (Work(files, texts, i), d) == Place(Work(files0, texts0, i), d0, im)
  {
    if im in files0[..SliceBound(i, |files0|)] {
      var j := IndexOf(files0, im);
      PlaceMoves(Work(files0, texts0, i), d0, im);
      AppendThenDelete(files0, j, im);
      AppendThenDelete(texts0, j, texts0[j]);
      files := files0 + [im];
      files := files[..j] + files[j + 1..];
      texts := texts0 + [texts0[j]];
      texts := texts[..j] + texts[j + 1..];
      d := d0 - 1;
    } else {
      files := files0 + [im];
      texts := texts0 + [None];
      d := d0;
    }
  }

  /** The fold takes the dependencies from the front. */
  lemma PlaceAllFirst(w: Work, d: int, names: seq<string>, n: nat)
    requires Lockstep(w) && n < |names|
    ensures var p := Place(w, d, names[n]);
      PlaceAll(w, d, names[n..]) == PlaceAll(p.0, p.1, names[n + 1..])
  {
    assert names[n..][1..] == names[n + 1..];
  }

  /** A dependency found before the cursor is moved from its first occurrence. */
  lemma PlaceMoves(w: Work, d: int, im: string)
    requires Lockstep(w) && im in w.files[..SliceBound(w.i, |w.files|)]
    ensures var j := IndexOf(w.files, im);
      Place(w, d, im) == (Work(MoveToEnd(w.files, j), MoveToEnd(w.texts, j), w.i), d - 1)
  {
    var first := FirstBefore(w.files, im, SliceBound(w.i, |w.files|));
    IndexOfAt(w.files, im, first.value);
  }

  /** One pass of `while i < len(files)`: read or reuse the text, cache it, place its dependencies. */
  method Pass(files0: seq<string>, texts0: seq<Option<string>>, i0: int, loader: Loader)
    returns (r: Result<Work>)
    requires |files0| == |texts0| && i0 < |files0|
    ensures r == Step(Work(files0, texts0, i0), loader)
  {
    ghost var w := Work(files0, texts0, i0);
    if i0 < -|files0| {
      r := Fail(IndexError);
    } else {
      var k := if i0 >= 0 then i0 else i0 + |files0|;
      var fetched := FetchText(files0, texts0, i0, k, loader);
      if fetched.Fail? {
        r := Fail(fetched.error);
      } else {
        var text := fetched.value;
        var parts := SplitOnce(text, '\n');
        if parts.None? {
          r := Fail(ValueError);
        } else {
          var names := Imports(parts.value.0);
          var files, texts, d := PlaceImports(files0, texts0[k := Some(text)], i0, names);
          SettleAs(w, k, text, names, files, texts, d);
          r := Ok(Work(files, texts, i0 + d));
        }
      }
      StepCases(w, loader, k);
    }
  }

  /** A pass, as the loop sees it: the rest of the loop continues from its outcome. */
  method PassOn(files: seq<string>, texts: seq<Option<string>>, i: int, loader: Loader, left: nat) returns (r: Result<Work>)
    requires |files| == |texts| && i < |files| && left > 0
    ensures r.Ok? ==> |r.value.files| == |r.value.texts| && r.value.i <= |r.value.files|
    ensures Resolve(Work(files, texts, i), loader, left) == if r.Fail? then Fail(r.error) else Resolve(r.value, loader, left - 1)
  {
    r := Pass(files, texts, i, loader);
    ResolveUnfold(Work(files, texts, i), loader, left);
  }

  /** The state a pass settles in, given what its inner loop produced. */
  lemma SettleAs(w: Work, k: nat, text: string, names: seq<string>, files: seq<string>, texts: seq<Option<string>>, d: int)
    requires Lockstep(w) && k < |w.files|
    requires (Work(files, texts, w.i), d) == PlaceAll(Work(w.files, w.texts[k := Some(text)], w.i), 1, names)
    ensures Settle(w, k, text, names) == Work(files, texts, w.i + d)
  {
    assert w.(texts := w.texts[k := Some(text)]) == Work(w.files, w.texts[k := Some(text)], w.i);
  }

  /** What a pass gives once the cursor has a place in the list. */
  lemma StepCases(w: Work, loader: Loader, k: nat)
    requires Lockstep(w) && w.i < |w.files| && PyIndex(w.i, |w.files|) == Some(k)
    ensures var fetched := Fetch(w, k, loader);
      Step(w, loader) ==
        if fetched.Fail? then Fail(fetched.error)
        else if SplitOnce(fetched.value, '\n').None? then Fail(ValueError)
        else Ok(Settle(w, k, fetched.value, Imports(SplitOnce(fetched.value, '\n').value.0)))
  {
  }

  /** `texts[i] if texts[i] else import_npd(files[i])`. */
  method FetchText(files: seq<string>, texts: seq<Option<string>>, i: int, k: nat, loader: Loader) returns (r: Result<string>)
    requires |files| == |texts| && k < |files|
    ensures r == Fetch(Work(files, texts, i), k, loader)
  {
    if Cached(texts[k]) {
      r := Ok(texts[k].value);
    } else if files[k] in loader {
      r := Ok(loader[files[k]]);
    } else {
      r := Fail(NumpadError(ImportFailed(files[k])));
    }
  }

  /** `final_text = text.split('\n', maxsplit=1)[1] + final_text` for every text in turn. */
  method AssembleText(texts: seq<Option<string>>) returns (r: Result<string>)
    ensures r == Assemble(texts, "\n")
  {
    var finalText := "\n";
    for t := 0 to |texts|
      invariant Assemble(texts[t..], finalText) == Assemble(texts, "\n")
    {
      assert texts[t..][1..] == texts[t + 1..];
      if texts[t].None? {
        return Fail(AttributeError);
      }
      var parts := SplitOnce(texts[t].value, '\n');
      if parts.None? {
        return Fail(IndexError);
      }
      finalText := parts.value.1 + finalText;
    }
    assert texts[|texts|..] == [];
    return Ok(finalText);
  }

  /**
   * `load_program` as numpadrun.py:62-120 writes it: the existence check,
   * the `while i < len(files)` loop with one unit of `fuel` spent per pass,
   * and the final assembly (the parser is not part of this model).
   */
  method LoadProgram(name: string, loader: Loader, fuel: nat) returns (r: Result<string>)
    ensures r == LoadProgramSpec(name, loader, fuel)
  {
    if name !in loader {
      return Fail(NumpadError(Missing(name)));
    }
    var files := [name];
    var texts: seq<Option<string>> := [None];
    var i := 0;
    var left := fuel;
    while i < |files|
      invariant |files| == |texts| && i <= |files|
      invariant Resolve(Work(files, texts, i), loader, left) == Resolve(Initial(name), loader, fuel)
      decreases left
    {
      if left == 0 {
        return Fail(OutOfFuel);
      }
      var next := PassOn(files, texts, i, loader, left);
      if next.Fail? {
        return Fail(next.error);
      }
      files, texts, i := next.value.files, next.value.texts, next.value.i;
      left := left - 1;
    }
    assert Resolve(Work(files, texts, i), loader, left) == Ok(Work(files, texts, i));
    r := AssembleText(texts);
  }
}
