# numpad: a verified model of the interpreter core

numpad is a small esoteric language. Its only identifiers are slots `*0`, `*00`, `*01`, … and its values are integers, lists and functions. This project models the runtime core of its Python implementation:

- the scope chain (`Scope`, `NullScope`);
- expression evaluation, and the operator tables `OperExpression` picks from by the types of the two operands;
- function calls (`FuncExpression.run`) and the four statement kinds;
- the two ways a program is assembled from units that import one another:
  - `load_program` in numpadrun.py, which queues each unit once and moves one that is already placed to the end;
  - `load_text` in main.py, which inlines recursively;
- the way `run` and `main` seed the root scope with the parameter string and read the answer from `*00`.

The model has two layers.

- **The pure semantics.** Module `Semantics` gives the meaning of every expression and statement as total functions over an `Env`: the list of the chain's dictionaries, innermost first.
  - The scope chain is a chain of `Scope` objects whose dictionaries the methods update in place.
  - A fuel bound stands in for non-termination. Each loop pass and each call costs one unit, and a run that would need more ends in `OutOfFuel`.
- **The imperative layer.** Module `Interpreter` holds `evaluate`/`run` methods that work on that object chain. Each method is proved to give exactly the result and the scope chain the semantics prescribes.

The two loaders follow the same pattern:

- `Resolver.LoadProgram` runs the `while i < len(files)` loop over two Python lists. It is proved equal to `Resolver.LoadProgramSpec`.
- `TextLoader.LoadText` is recursive with a `for` loop. It is proved equal to `TextLoader.LoadTextSpec`.

The properties are proved about those specification functions:

- what a call answers;
- how blocks compose;
- when `If` and `While` run their bodies;
- that more fuel never changes a finished run;
- that both loaders stack bodies innermost-first;
- that import cycles never finish;
- that for an import chain the two loaders produce the same text.

Modules, one per file:

- `Python` (python.dfy): the Python built-ins the core relies on — `str.split`, `int()`, `//` and `%`, negative indices and slice bounds — and the exceptions a run can raise.
- `Values` (values.dfy): the expression tree, runtime values, truthiness, Python `==`, and the three operator tables with their dispatch.
- `Scopes` (scopes.dfy): the `Scope` class and its pure `Env` view.
- `Semantics` (semantics.dfy): the fuel-bounded evaluation and execution functions.
- `Interpreter` (interpreter.dfy): the methods that mutate scopes.
- `Laws` (laws.dfy): properties of the semantics.
- `Resolver` (resolver.dfy): `load_program`.
- `TextLoader` (textloader.dfy): `load_text`.
- `Entry` (entry.dfy): parameter seeding and starting a run.

Three places in the source do not do what they evidently mean to do (see "## Findings"). The model keeps a member that behaves as written next to each, and everything else uses the corrected behaviour:

- the guard on decimal division at numpad.py:260 never stops the scaling; the model stops after ten steps;
- `run` at numpadrun.py:159 reads the answer through a method `Scope` does not have; the model reads it with `evaluate`;
- the list/list branch at numpad.py:356 checks the operator against the list/int table; the model checks it against the list/list table.

## Model

| member | source | states |
|---|---|---|
| Python.IndexOf | numpadrun.py:100 | `files.index(x)` is the first position holding `x`: no earlier position holds it |
| Python.IndexOfAt | numpadrun.py:100 | a position holding `x` with no earlier `x` is what `index` returns |
| Python.Split | main.py:16 | `str.split(sep)` gives at least one piece, no piece contains `sep`, and joining the pieces with `sep` gives the text back |
| Python.SplitUnique | numpadrun.py:98 | splitting the join of separator-free pieces gives exactly those pieces (split and join are inverse) |
| Python.JoinNonEmpty | numpadrun.py:97 | a header whose first name is non-empty is a non-empty (truthy) string |
| Python.JoinAvoids | numpadrun.py:93 | a character in no piece is not in the joined header (a header holds no newline) |
| Python.SplitOnce | numpadrun.py:93 | `split('\n', maxsplit=1)` unpacks exactly when the text holds a newline; the first part holds none and the parts rebuild the text |
| Python.SplitOnceAt | main.py:13 | cutting `a + sep + b` at the first separator, where `a` has none, gives `a` and `b` |
| Python.DigitChar | numpad.py:180 | the digit character for `d` is a digit whose code is `'0'` plus `d` |
| Python.Decimal | numpad.py:180 | `str(n)` of a natural number is a non-empty run of digits |
| Python.DigitsValueOfDecimal | numpad.py:180 | the digits of `str(n)` denote `n` |
| Python.DecimalInjective | numpad.py:180 | different numbers print differently, so the slot names `*0<i>` are distinct |
| Python.TrimStart | numpadrun.py:142 | dropping leading whitespace leaves a suffix of the text, what was dropped is all whitespace, and the rest does not start with whitespace |
| Python.TrimEnd | numpadrun.py:142 | dropping trailing whitespace leaves a prefix of the text, what was dropped is all whitespace, and the rest does not end with whitespace |
| Python.Strip | numpadrun.py:142 | the stripped text neither starts nor ends with whitespace |
| Python.StripPadded | numpadrun.py:142 | stripping whitespace put around a text without whitespace at its ends gives that text back |
| Python.StripShape | numpadrun.py:142 | every text is its stripped form between leading and trailing whitespace |
| Python.StripAbsorbs | numpadrun.py:142 | stripping a text with extra whitespace around it gives what stripping the text alone gives |
| Python.ParseNumeral | numpadrun.py:142 | a numeral (digits, single underscores between digits), optionally signed, has a value; anything else raises ValueError; a `-` sign gives a value at most 0 and no sign or `+` one at least 0 |
| Python.ParseInt | numpadrun.py:142 | `int(s)` succeeds exactly when the text, stripped of surrounding whitespace, is a signed numeral, and raises ValueError otherwise |
| Python.ParseIgnoresPadding | numpadrun.py:142 | whitespace around a text never changes what `int()` makes of it |
| Python.ParseUnpadded | numpadrun.py:142 | a text without whitespace at its ends is parsed as it stands |
| Python.UnderscoreGrouping | numpadrun.py:142 | underscores group digits: `1_000` is 1000 |
| Python.MisplacedUnderscores | numpadrun.py:142 | a doubled underscore (`1__0`) or a trailing one (`10_`) raises ValueError |
| Python.ParseRender | numpadrun.py:142 | `int(str(n)) == n` for every integer; this ignores the 4300-digit limit on string conversion (see `Python.ParseInt` under "## Left out") |
| Python.ParseDecimal | numpadrun.py:142 | the digits of a natural number parse back to it |
| Python.DecimalNumeral | numpadrun.py:142 | the digits of `str(n)` form a numeral `int()` accepts |
| Python.NegativeNumeral | numpadrun.py:142 | a minus sign before the digits of `m` is a signed numeral of value `-m` |
| Python.ParseNegative | numpadrun.py:142 | a minus sign before the digits of `m` parses to `-m` |
| Python.FloorDivMod | numpad.py:278-279 | Python's `//` and `%`: they rebuild the dividend, and the remainder has the divisor's sign and is smaller in magnitude |
| Python.PyIndex | numpad.py:288 | `s[i]` reads exactly when `-len <= i < len`, at `i` or at `i + len` |
| Python.SliceBound | numpad.py:287 | a slice bound is clamped into `[0, len]`, and a negative one counts from the end |
| Values.PyEqIsEquality | numpad.py:292 | without bools involved, Python `==` on values is structural equality, in both directions |
| Values.PyEqSymmetric | numpad.py:292 | Python `==` on values is symmetric |
| Values.DecimalSteps | numpad.py:260 | the number of scaling steps lies between its start and ten |
| Values.StepsMeaning | numpad.py:260-262 | the step count is the first `k` at which `x * 10^k` is divisible by `y`, or ten when there is none |
| Values.DecimalPairMeaning | numpad.py:243-266 | the decimal pair is exact with the fewest steps when a scaling below ten makes the quotient whole, and is the quotient truncated to ten decimals otherwise |
| Values.DivideIntInt | numpad.py:243-266 | the scaling loop with a ten-step cap computes the decimal pair |
| Values.AsWrittenNeverCapped | numpad.py:260 | for `1 / 3` the guard `dec % 1 and power < 10` holds after every number of steps, so it never caps the loop |
| Values.IntInt | numpad.py:268-280 | the int/int table: comparisons answer 1 exactly when they hold and 0 otherwise; `+ - *` are exact; every division raises ZeroDivisionError exactly when the divisor is 0; `/` gives the decimal pair `[mantissa, power]` with at most ten decimals; `*+` is `x ** y` for a non-negative exponent, and for a negative one raises ZeroDivisionError on a zero base and otherwise ends in a float; `*-` (a float) is never an integer |
| Values.FloorQuotientRemainder | numpad.py:278-279 | `/-` and `/+` never fail for a non-zero divisor; they rebuild the dividend, and the remainder has the divisor's sign |
| Values.ListInt | numpad.py:282-289 | the list/int table: length comparisons as bools; `+` appends; `/` reads exactly the Python-indexable positions, at `y` or, for a negative `y`, at `len + y`, and otherwise raises IndexError; a symbol outside the table raises NumpadError |
| Values.ListRemove | numpad.py:287 | `x[:y] + x[y+1:]` drops index `y` when it exists, keeps the list past the end, drops `len + y` for `y < -1`, for `-1` keeps all but the last and then appends the whole list, and keeps the whole list for `y < -len` |
| Values.AppendRemoveRoundTrip | numpad.py:286-287 | appending `v` and then removing index `len` gives back the list |
| Values.ListListAsWritten | numpad.py:355-364 | the list/list branch as written: a symbol outside the list/int table raises NumpadError, `-` and `/` raise KeyError, and the rest agree with the list/list table |
| Values.ListListTableMismatch | numpad.py:356 | as written, `/+` and `/-` raise NumpadError (corrected: a subset test) and `-` raises KeyError (corrected: NumpadError) |
| Values.ListList | numpad.py:291-298 | the list/list table: fails, with NumpadError, exactly for symbols outside it; `..` is Python `==` on the lists; `.+`/`.-` compare lengths; `+` concatenates; `/+`/`/-` answer a bool |
| Values.SubsetTestsConverse | numpad.py:296-297 | `x /- y` is `y /+ x` |
| Values.SubsetTestMeaning | numpad.py:296 | without bools, `x /+ y` is true exactly when every element of `y` is an element of `x` |
| Values.Dispatch | numpad.py:327-368 | dispatch on the operands' exact types: a call exactly for a function, `-` and a list; the int/int, list/int and list/list tables for their pairs; NumpadError for any other symbol on function and list, and for every other pair (bools included) |
| Values.ComparisonBoolIsNotAnOperand | numpad.py:284 | a list comparison answers a bool, and a bool on either side of an operator raises NumpadError |
| Scopes.SlotInjective | numpad.py:179-181 | distinct slot numbers give distinct slot names |
| Scopes.SlotsDistinct | numpad.py:179-181 | slot names are pairwise distinct |
| Scopes.AccumulatorIsSlotZero | numpadrun.py:142 | parameter 0 is seeded into `*00`, the slot that `run` then resets |
| Scopes.SlotFrame | numpad.py:179-181 | the comprehension binds slot `first + i` to the i-th value |
| Scopes.SlotFrameKeys | numpad.py:179-181 | the comprehension binds nothing but those slots |
| Scopes.Lookup | numpad.py:58-77 | a failed lookup raises the "not defined" NumpadError for that name |
| Scopes.LookupFinds | numpad.py:125-142 | a lookup succeeds exactly when some scope on the chain binds the name, and answers the nearest binding |
| Scopes.LookupAt | numpad.py:75-77 | the nearest scope binding the name supplies its value |
| Scopes.BoundAtUnique | numpad.py:75-77 | at most one scope is the nearest binder of a name |
| Scopes.Shadowing | numpad.py:79-86 | after `set_value` the name reads the new value, every other name reads as before, and the enclosing scopes are untouched |
| Scopes.RebindNearest | numpad.py:178 | replacing the list in the nearest scope that binds a name keeps every scope's names, sets that binding, and changes nothing else |
| Scopes.Scope.Root | numpad.py:121-123 | a `NullScope` is a linked chain of one scope holding the given dict |
| Scopes.Scope.Within | numpad.py:43-56 | a `Scope` is its own dict in front of its parent's chain |
| Scopes.Scope.Evaluate | numpad.py:58-77 | `evaluate` on the object chain is `Lookup` on its dicts |
| Scopes.Scope.SetValue | numpad.py:79-86 | `set_value` writes this scope's dict only: the chain becomes `SetLocal` of the old chain |
| Scopes.Scope.Child | numpad.py:96-107 | `child` makes a fresh scope whose chain is the given dict in front of this one's, and leaves this chain unchanged |
| Scopes.Scope.Rebind | numpad.py:178 | the in-place growth of a list bound up the chain is the same as `RebindNearest` on the dicts |
| Semantics.GrownTrans | numpad.py:178 | growing lists twice is growing them once |
| Semantics.GrownSettled | numpad.py:410-417 | growth followed by a statement's changes is a statement's changes |
| Semantics.SettledTrans | numpad.py:386-389 | two statements in a row change only what one statement may |
| Semantics.RebindGrows | numpad.py:178 | writing the default-filled list back through its variable only grows that list |
| Semantics.RebindFinds | numpad.py:178 | after the write-back, the variable reads the filled list |
| Semantics.Ints | numpadrun.py:142 | the integers as values, position by position |
| Semantics.Fill | numpad.py:178 | `params[len(params):] = self._param[len(params):]` keeps the given arguments as a prefix, takes the defaults for every later position, and has the longer length |
| Semantics.ShareFilled | numpad.py:178 | the fill is seen through the variable the arguments came from, and nowhere else; the chain only grows |
| Semantics.CallFrame | numpad.py:179-182 | a call's scope holds `*00 = 0` and the i-th argument in `*0<i+1>` |
| Semantics.Eval | numpad.py:212-230 | evaluating an expression binds and rebinds nothing; it can only grow a list a call filled in |
| Semantics.Apply | numpad.py:327-368 | applying an operator changes the chain only by growth |
| Semantics.Invocation | numpad.py:339 | a call changes the caller's chain only by growth |
| Semantics.Enter | numpad.py:178-184 | a call with fuel spent changes the caller's chain only by growth |
| Semantics.EvalItems | numpad.py:225 | a list display yields one value per item and changes the chain only by growth |
| Semantics.Call | numpad.py:179-184 | running a body in a child scope changes the caller's chain only by growth |
| Semantics.Exec | numpad.py:410-502 | a statement may add names to the current scope only; enclosing scopes keep their names, and their values only grow |
| Semantics.ExecBlock | numpad.py:386-389 | a block keeps the same discipline as a single statement |
| Semantics.Loop | numpad.py:495-502 | a `While` keeps the same discipline |
| Semantics.Continue | numpad.py:498-502 | the loop after a test keeps the same discipline |
| Semantics.Turn | numpad.py:501-502 | one pass of the loop keeps the same discipline |
| Interpreter.EvaluateExpr | numpad.py:212-230 | `evaluate` on the object chain gives the result and the chain `Eval` prescribes |
| Interpreter.ApplyOperator | numpad.py:321-368 | the dispatch, the division loop and the call case give what `Apply` prescribes |
| Interpreter.DivideOperands | numpad.py:243-266 | dividing two integers with a non-zero divisor gives the int/int table's `/` entry |
| Interpreter.InvokeFunction | numpad.py:171-184 | `val_l.run(scope, val_r)` on objects gives the result and chain of `Invocation` |
| Interpreter.ItemsStep | numpad.py:225 | each item of the comprehension either ends it with its failure or adds its value to the prefix |
| Interpreter.EvaluateItems | numpad.py:225 | the list comprehension on objects is `EvalItems` |
| Interpreter.RunCall | numpad.py:179-184 | the child scope, `*00 = 0`, the body and the read of the child's `*00` give `Call` |
| Interpreter.RunStatement | numpad.py:410-502 | each statement's `run` on objects is `Exec` |
| Interpreter.RunBlock | numpad.py:386-389 | `StatementBlock.run` on objects is `ExecBlock` |
| Interpreter.RunWhile | numpad.py:495-502 | `StatementWhile.run` on objects is `Loop` |
| Interpreter.RunLoop | numpad.py:498-502 | the `while value:` loop on objects is `Continue` |
| Interpreter.LoopTurn | numpad.py:501-502 | one pass (the block, then the new test) on objects is `Turn` |
| Laws.FillIdempotent | numpad.py:178 | filling twice is filling once, and enough arguments are left alone |
| Laws.FillExample | numpad.py:178 | one argument to a two-default function keeps the argument and takes the second default |
| Laws.CallAnswersChildAccumulator | numpad.py:182-184 | a call whose body finishes answers the child's `*00`, which always exists; a failing body passes its failure on; either way the child is dropped |
| Laws.EmptyBodyAnswersZero | numpad.py:182-184 | a function with an empty body answers 0 and leaves the caller's scopes unchanged |
| Laws.SingleStatementBlock | numpad.py:386-389 | a block of one statement is that statement |
| Laws.IdentityFunction | numpad.py:179-184 | `*00 = *01` answers its first argument and leaves the caller's scopes unchanged |
| Laws.FirstArgument | numpad.py:410-417 | in a fresh call scope, `*00 = *01` sets `*00` to the first argument |
| Laws.BlockSequencing | numpad.py:386-389 | running `a + b` is running `a`, then `b` where it left off unless `a` failed |
| Laws.WhileIsIfThenWhile | numpad.py:475-502 | a `While` that finishes gives the same result and scopes as an `If` on the same condition whose block is the loop's block followed by the loop |
| Laws.WhileFalsyRunsZeroTimes | numpad.py:495-502 | a `While` whose condition starts falsy runs its block zero times |
| Laws.WhileUnrolls | numpad.py:495-502 | a truthy `While` runs its block, then behaves as the same loop started from there |
| Laws.EvalFuel | numpad.py:212-230 | more fuel never changes a finished evaluation |
| Laws.ApplyFuel | numpad.py:327-368 | more fuel never changes a finished operator application |
| Laws.InvocationFuel | numpad.py:339 | more fuel never changes a finished call |
| Laws.InvocationEnters | numpad.py:339 | with fuel left, a call spends one unit and enters the body |
| Laws.EnterFuel | numpad.py:178-184 | more fuel never changes a finished call body |
| Laws.EvalItemsFuel | numpad.py:225 | more fuel never changes a finished list display |
| Laws.CallFuel | numpad.py:179-184 | more fuel never changes a finished call in a child scope |
| Laws.ExecFuel | numpad.py:410-502 | more fuel never changes a finished statement |
| Laws.ExecBlockFuel | numpad.py:386-389 | more fuel never changes a finished block |
| Laws.LoopFuel | numpad.py:495-502 | more fuel never changes a finished loop |
| Laws.ContinueFuel | numpad.py:498-502 | more fuel never changes a finished loop after its test |
| Laws.TurnFuel | numpad.py:501-502 | more fuel never changes a finished loop pass |
| Resolver.Zip | numpadrun.py:83-84 | the parallel lists pair up position by position |
| Resolver.MoveToEnd | numpadrun.py:101-104 | `append(s[j]); del s[j]` keeps the length |
| Resolver.MoveToEndEntries | numpadrun.py:101-104 | the entries before `j` stay, the later ones move up, and `s[j]` ends up last |
| Resolver.MoveToEndPermutes | numpadrun.py:101-104 | moving an entry to the end is a permutation |
| Resolver.MoveToEndZip | numpadrun.py:101-104 | moving in both lists moves the pair |
| Resolver.AppendThenDelete | numpadrun.py:101-102 | `s.append(s[j])` then `del s[j]` is the move to the end |
| Resolver.Imports | numpadrun.py:97-98 | an empty header names no unit; otherwise the names are dot-free and join back to the header |
| Resolver.FirstBefore | numpadrun.py:99-100 | found exactly when the name is in `files[:i]`, at its first occurrence, which lies before `i` |
| Resolver.Place | numpadrun.py:99-108 | one dependency is either moved (the list keeps its length, `d_i` drops by one) or appended (one entry longer, `d_i` kept), and the lists stay parallel |
| Resolver.PlaceKeepsPairs | numpadrun.py:99-108 | a moved dependency takes its cached text along: the pairs are permuted and the moved pair is last; otherwise `(name, None)` is appended |
| Resolver.PlaceMoves | numpadrun.py:99-105 | a dependency already in `files[:i]` is moved from its first occurrence |
| Resolver.PlaceFiles | numpadrun.py:99-108 | placing keeps every unit and leaves the dependency in the list |
| Resolver.PlaceAll | numpadrun.py:98-108 | each dependency either lengthens the list or lowers `d_i` by one |
| Resolver.PlaceAllFiles | numpadrun.py:98-108 | after the inner loop every dependency is listed and no unit was dropped |
| Resolver.PlaceAllFirst | numpadrun.py:98 | the inner loop takes the dependencies from the front |
| Resolver.PlaceAllZip | numpadrun.py:98-108 | the inner loop loses no unit-and-text pair |
| Resolver.PlaceAllAppends | numpadrun.py:106-108 | dependencies none of which is before the cursor are appended in order with no text |
| Resolver.PlaceImport | numpadrun.py:99-108 | the append-then-delete on the two lists is `Place` |
| Resolver.PlaceImports | numpadrun.py:98-108 | the inner `for` loop on the two lists is `PlaceAll` |
| Resolver.Fetch | numpadrun.py:88-91 | a truthy cached text is used; otherwise the loader's text, or NumpadError for a unit it cannot find |
| Resolver.FetchText | numpadrun.py:88-91 | the method reads exactly what `Fetch` says |
| Resolver.Settle | numpadrun.py:94-110 | after caching and placing, the cursor moves by one minus the number of moved dependencies |
| Resolver.SettleAs | numpadrun.py:94-110 | a pass settles where its inner loop left the lists, with `i` moved by `d_i` |
| Resolver.Step | numpadrun.py:88-110 | a pass at an out-of-range cursor raises IndexError; a successful pass keeps the lists parallel and moves the cursor at most one forward |
| Resolver.StepCases | numpadrun.py:88-110 | a pass raises the loader's failure, raises ValueError on a text without a newline, or settles the text |
| Resolver.StepAdvance | numpadrun.py:95-110 | the cursor advances by one minus the number of moved dependencies |
| Resolver.StepCaches | numpadrun.py:93-94 | the text a pass reads holds a newline and stays cached in the lists |
| Resolver.CachedTextSkipsLoader | numpadrun.py:88-89 | a unit whose text is cached is not read again: the loader is not consulted |
| Resolver.StepKeepsLoaded | numpadrun.py:93-108 | every unit before the cursor keeps a text with a header line |
| Resolver.PlaceKeepsLoaded | numpadrun.py:99-108 | placing one dependency keeps the loaded prefix loaded, shortened by a move |
| Resolver.PlaceAllKeepsLoaded | numpadrun.py:98-108 | the inner loop keeps the loaded prefix loaded, shortened by the moves |
| Resolver.Pass | numpadrun.py:88-110 | one pass of the loop on the two lists is `Step` |
| Resolver.Resolve | numpadrun.py:87-110 | a finished loop leaves parallel lists with the cursor at the end |
| Resolver.Iterate | numpadrun.py:87 | entering the loop body finishes with the cursor at the end |
| Resolver.Advance | numpadrun.py:88-110 | a pass followed by the rest of the loop finishes with the cursor at the end |
| Resolver.ResolveUnfold | numpadrun.py:87-110 | the loop is one pass followed by the loop with one unit of fuel less |
| Resolver.NextState | numpadrun.py:87-110 | the loop continues from the outcome of its next pass, and the loaded prefix is kept |
| Resolver.PassOn | numpadrun.py:87-110 | the method's pass is the first step of `Resolve` |
| Resolver.PassLeadsTo | numpadrun.py:87-110 | once a pass turns one state into another, the loop goes on from the second |
| Resolver.ResolveLoadsAll | numpadrun.py:87-114 | when the loop finishes every unit holds a text with a header line, so the assembly cannot fail |
| Resolver.ResolveFuel | numpadrun.py:87-110 | more fuel never changes a finished resolution |
| Resolver.Initial | numpadrun.py:83-85 | the loop starts with the program alone, unread, at cursor 0 |
| Resolver.Unread | numpadrun.py:108 | `n` entries with no text |
| Resolver.Body | numpadrun.py:114 | the body is what follows a newline-free header line |
| Resolver.BodyAfter | numpadrun.py:114 | the body of `header + "\n" + body` is `body` |
| Resolver.Assemble | numpadrun.py:112-114 | the assembly succeeds exactly when every text has a header line |
| Resolver.AssembleStacks | numpadrun.py:112-114 | assembly puts the bodies in reverse list order ahead of the initial text |
| Resolver.StackedFront | numpadrun.py:112-114 | the first unit's body ends the stack |
| Resolver.StackedThree | numpadrun.py:112-114 | three texts assemble last body first |
| Resolver.AssembleText | numpadrun.py:112-114 | the assembly loop starting from `"\n"` is `Assemble` |
| Resolver.LoadProgramSpec | numpadrun.py:73-114 | a missing program file raises NumpadError; otherwise the load succeeds exactly when the loop finishes |
| Resolver.LoadProgramStacks | numpadrun.py:62-114 | a finished load is the bodies stacked in reverse list order, then a newline |
| Resolver.LoadProgram | numpadrun.py:62-114 | the imperative `load_program` (up to the parser) is `LoadProgramSpec` |
| Resolver.StepAppends | numpadrun.py:93-110 | a pass over a unit whose dependencies are all new caches its text, queues them and moves on by one |
| Resolver.StepLeaf | numpadrun.py:93-110 | a pass over a unit with an empty header only caches its text |
| Resolver.ResolveAppends | numpadrun.py:87-110 | the loop after such a pass continues from the queued state |
| Resolver.ResolveLeaf | numpadrun.py:87-110 | the loop after a leaf pass continues from the cached state |
| Resolver.ResolveLastLeaf | numpadrun.py:87-110 | a last pass over a leaf ends the loop |
| Resolver.ChainStacksInnermostFirst | numpadrun.py:62-114 | `e` needs `d` needs `c` loads as `c`'s body, then `d`'s, then `e`'s, then a newline |
| Resolver.ChainResolves | numpadrun.py:87-110 | the chain is resolved in three passes, in import order, each unit read once |
| Resolver.ChainResolvesFromD | numpadrun.py:87-110 | the last two passes of the chain |
| Resolver.RepeatedImportRepeatsBody | numpadrun.py:62-114 | a unit named twice on one header is queued twice and its body appears twice |
| Resolver.RepeatedResolves | numpadrun.py:87-110 | both mentions are queued and each is read in its own pass |
| Resolver.RepeatedResolvesFromB | numpadrun.py:87-110 | the two passes over the copies |
| Resolver.SwapStep | numpadrun.py:99-105 | a pass over `b` importing the earlier `a` swaps the two |
| Resolver.MutualSwaps | numpadrun.py:87-110 | two units importing each other swap places at every pass: the loop never finishes |
| Resolver.CycleNeverFinishes | numpadrun.py:87-110 | two unfinished states that each lead to the other exhaust any fuel |
| Resolver.MutualImportNeverFinishes | numpadrun.py:62-110 | `load_program` on mutually importing units never finishes |
| TextLoader.StackSmall | main.py:19 | one import gives its text; two give the second's text before the first's |
| TextLoader.LoadTextSpec | main.py:11-21 | a successful load needs a newline in the text and ends with the text's own body |
| TextLoader.PrependImports | main.py:16-19 | a successful import loop ends with the program it started from, and every named file exists |
| TextLoader.PrependStep | main.py:16-19 | one import: a missing file raises FileNotFoundError, a failing nested load ends the loop, otherwise its text goes in front |
| TextLoader.MainSource | main.py:43 | main's text is `load_text` of the file with one newline added, and fails exactly when it fails |
| TextLoader.HeaderlessText | main.py:13-15 | an empty first line gives the body back; a text without a newline raises ValueError |
| TextLoader.ImportsStackReversed | main.py:16-19 | when every import loads, the loop leaves them in front of the program, last import first |
| TextLoader.HeaderInlinesInReverse | main.py:11-21 | a header `n0/n1/…` gives the inlined texts in reverse order, then the body |
| TextLoader.TwoImports | main.py:11-21 | header `a/b` gives `b`'s text, then `a`'s, then the body |
| TextLoader.TwoImportsJoined | main.py:11-21 | the same, for the header written as the join of `[a, b]` |
| TextLoader.OneLeafImport | main.py:11-21 | a unit with one leaf import loads as the leaf's body, then its own |
| TextLoader.DiamondRepeatsShared | main.py:11-21 | nothing is deduplicated: a unit needed through two imports appears twice |
| TextLoader.SelfImportNeverFinishes | main.py:11-21 | a unit that imports itself never finishes |
| TextLoader.LoadTextFuel | main.py:11-21 | more fuel never changes a finished load |
| TextLoader.PrependFuel | main.py:16-19 | more fuel never changes a finished import loop |
| TextLoader.ChainAgreesWithLoadProgram | main.py:43 | for a chain with no repeated unit, main's `load_text` and `load_program` produce the same text |
| TextLoader.LoadText | main.py:11-21 | the recursive `load_text` with its `for` loop is `LoadTextSpec` |
| TextLoader.PrependAll | main.py:16-19 | the import `for` loop is `PrependImports` |
| TextLoader.LoadMain | main.py:41-43 | `load_text(text) + '\n'` is `MainSource` |
| Entry.ParseAll | numpadrun.py:141-146 | `int(val)` on every piece succeeds exactly when all are integer literals, giving each piece's value, and raises ValueError otherwise |
| Entry.Seed | numpadrun.py:140-150 | a missing or empty parameter string seeds nothing; otherwise seeding succeeds exactly when every piece is an integer, and fails with ValueError |
| Entry.AllIntLiteralsCons | numpadrun.py:141-146 | all pieces are integers exactly when the first one is and all the others are |
| Entry.ParseAllExact | numpadrun.py:141-146 | pieces that parse one by one to some numbers parse all together to those numbers |
| Entry.SeedSlots | numpadrun.py:141-146 | piece `i` lands in `*0<i>` as its integer, and nothing else is bound |
| Entry.RenderHasNoComma | main.py:31 | a printed integer is non-empty and holds no comma |
| Entry.SplitRenders | main.py:31 | the comma-joined text of written-out numbers is non-empty and splits back into exactly those pieces |
| Entry.RendersNoComma | main.py:31 | numbers written out hold no comma, and the first is non-empty |
| Entry.RendersParse | main.py:29 | `int()` gives back each number written out |
| Entry.SeedRoundTrip | main.py:27-33 | numbers written out with commas seed exactly those numbers into `*00`, `*01`, … |
| Entry.SplitSpaced | main.py:31 | the comma-joined text of the spaced numbers is non-empty and splits back into exactly those pieces |
| Entry.SpacedNoComma | main.py:31 | numbers written out with a blank before all but the first hold no comma, and the first is non-empty |
| Entry.SpacedParses | main.py:29 | `int()` gives back each number written out with a blank in front |
| Entry.SeedSpacedRoundTrip | main.py:27-33 | numbers written out with `, ` between them seed exactly those numbers: the blank after each comma is skipped |
| Entry.Start | numpadrun.py:154-155 | the root scope starts with `*00 = 0` and every other parameter slot as seeded |
| Entry.Launch | numpadrun.py:140-157 | a bad parameter raises ValueError; otherwise the run succeeds exactly when the program does, and answers the root's `*00` |
| Entry.FirstParameterDiscarded | numpadrun.py:155 | an empty program answers 0 whatever the parameters: the first parameter sat in `*00` and was overwritten |
| Entry.RunAsWritten | numpadrun.py:159 | `run` as written never succeeds: every finished run ends in AttributeError |
| Entry.GetValueCounterexample | numpadrun.py:159 | the empty program with no parameters answers 0 through `evaluate`, but fails as written |
| Entry.Run | numpadrun.py:138-157 | the imperative `run` with the corrected final read is `Launch` |
| Entry.RunMain | main.py:27-54 | `main` after the parser: parameters split on `,`, the answer read by `evaluate`, is `Launch` |

## Left out

- The lexer and the parser (numpadlex.py, numpadparse.py) are not part of this model. Programs are given as the `Stmt`/`Expr` tree, and `load_program`/`main` end at the assembled text.
- Floating point. `/` on two integers uses exact integer arithmetic: the scaled quotient is exact, and `int(dec)` truncates. The source uses a float quotient that rounds, and raises OverflowError at numpad.py:258 when the quotient lies beyond the float range (`10 ** 400 / 1`, say); the model returns an exact pair there instead. `*-` (a float logarithm) and `*+` with a negative exponent end in `FloatResult`.
- Values.IntInt: `/` stops scaling after ten steps, the corrected guard of Findings row 1. For every quotient that needs more than ten decimals its result differs from the source's, which scales on until the float quotient is whole: `1 / 2048` gives `[4882812, -10]` here and `[48828125, -11]` in the source.
- Values.Dispatch: the list/list case uses the corrected table of Findings row 3. `/+` and `/-` on two lists answer subset tests here, where numpad.py:356 raises NumpadError; `-` and `/` on two lists raise NumpadError here, where numpad.py:360 raises KeyError. `Values.ListListAsWritten` is the branch as written.
- Python.ParseInt: only ASCII is modelled. Python's `int()` also accepts non-ASCII decimal digits (Arabic-Indic digits, full-width digits and the like) and strips non-ASCII whitespace (such as U+00A0 and U+2003). Here those raise ValueError.
- Python.ParseInt: there is no limit on the number of digits. Since Python 3.11 (and the 3.10.7, 3.9.14 and 3.8.14 security releases), `int()` refuses by default a numeral of more than 4300 digits (`sys.get_int_max_str_digits()`) with ValueError, and `str()` refuses such an integer. So the model seeds a value from such a parameter (numpadrun.py:142, main.py:29) where Python raises ValueError. The same holds for `Python.ParseRender`, `Entry.Seed`, `Entry.SeedRoundTrip` and `Entry.SeedSpacedRoundTrip`: they hold for integers of any size, while Python's round trip holds only below `10 ** 4300` in magnitude.
- Entry.Seed: the separator `param_delim` (numpadrun.py:123) is a single character. `str.split` with a longer separator, and the ValueError it raises for an empty one, are not modelled. Both callers use `,`.
- Values.IntInt: `*-` is modelled only as far as its failures (ValueError, ZeroDivisionError). Its float result is not modelled, because floats are not part of the model.
- `import_npd` and the file system are a map from a unit name (or a path) to its text. `load_program`'s two-extension existence check becomes `name in loader`. `import_npd`'s search of the folder is not modelled, because it is I/O.
- `open()` and the file read in `main` are not modelled: the file's text is a parameter. The command line and `argparse` are left out too.
- `VERBOSE` logging and `print` are left out. They have no effect on results.
- Non-termination is bounded by fuel: one unit per loop pass, per call, per `load_program` pass and per `load_text` nesting level. A run that would go on forever, or until Python's recursion limit, ends in `OutOfFuel` instead. More fuel is proved never to change a finished run.
- Aliasing of lists is modelled only for the variable a call's argument list came from: the default fill at numpad.py:178 writes through that variable. Every other shared reference is left out, because lists are values here. After `*02 = *01`, a call with `*01` as its argument fills the list for `*02` too in the source, but only for `*01` here; a list nested inside another list is not filled in its container either.
- Function values compare structurally. Python compares them by identity.
- The assertion in `Scope.evaluate` that a name starts with `*` is left out. Every name the parser produces does, and the slot names are built that way.
- `Scope.__init__` replacing a falsy dict by a fresh `{}` is left out: dictionaries are values here, so the two cannot be told apart.
- `Scope.parent()` is not modelled. The core never calls it.

## Findings

| source | as written | input that shows it | evidently intended | confidence | as-written member | corrected member |
|---|---|---|---|---|---|---|
| numpad.py:260 | `while dec % 1 and power < 10`: `power` starts at 0 and only decreases, so `power < 10` is always true and never caps the scaling | `1 / 3`: the guard holds after every number of steps; only float rounding ends the loop, at more than ten decimals | stop after ten scaling steps (`power > -10`), keeping at most ten decimals | high (not executed) | Values.AsWrittenNeverCapped | Values.DivideIntInt |
| numpadrun.py:159 | `scope.get_value("*00")`: `Scope` has no `get_value`, so every run that finishes raises AttributeError | the empty program with no parameters | read the answer with `scope.evaluate("*00")`, as main.py:54 does | high (not executed) | Entry.GetValueCounterexample | Entry.Run |
| numpad.py:356 | the list/list branch checks the symbol against the list/int table | `[] /+ []` raises NumpadError; `[] - []` raises KeyError | check against the list/list table: `/+` and `/-` are subset tests, and `-` or `/` raise NumpadError | high (not executed) | Values.ListListTableMismatch | Values.ListList |
