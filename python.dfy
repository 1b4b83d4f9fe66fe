/**
 * The pieces of Python's own behaviour that the interpreter and the module
 * loaders lean on: the exceptions they raise, `str.split`, `int()`, integer
 * floor division, truncation of a quotient, and Python's negative indices and
 * clamped slice bounds. Everything here is a pure function over Dafny values.
 */
module Python {

  datatype Option<+T> = None | Some(value: T)

  /** Why a NumpadError was raised; one alternative per `raise NumpadError` in the source. */
  datatype NumpadReason =
    | NotDefined(name: string)   // variable missing in the root scope
    | FuncListOp                 // an operator other than '-' between a function and a list
    | ListIntOp                  // an operator missing from the list/int table
    | ListListOp                 // an operator missing from the list/list table
    | TypesOp                    // any other pair of operand types
    | ImportFailed(unit: string) // no source text for an imported unit
    | Missing(path: string)      // the program file itself does not exist

  /** The exceptions that can end a run. */
  datatype Error =
    | NumpadError(reason: NumpadReason)
    | ZeroDivisionError
    | IndexError
    | KeyError
    | ValueError
    | AttributeError
    | FileNotFoundError(path: string)
    | FloatResult   // Python would produce a float here; floats are not part of this model
    | OutOfFuel     // the model's step bound ran out before the run finished

  datatype Result<+T> = Ok(value: T) | Fail(error: Error) {
    predicate IsFailure() { Fail? }
    function PropagateFailure<U>(): Result<U> requires Fail? { Fail(error) }
    function Extract(): T requires Ok? { value }
    /** The model's step bound ran out: the source would still be running. */
    predicate Exhausted() { Fail? && error == OutOfFuel }
  }

  // ---------------------------------------------------------------------
  // Searching and splitting text

  /** `s.index(x)`: the first position of `x` in `s`. */
  function IndexOf<T(==)>(s: seq<T>, x: T): (k: nat)
    requires x in s
    ensures k < |s| && s[k] == x && x !in s[..k]
  {
    if s[0] == x then 0 else 1 + IndexOf(s[1..], x)
  }

  lemma {:induction false} IndexOfAt<T>(s: seq<T>, x: T, m: nat)
    requires m < |s| && s[m] == x && x !in s[..m]
    ensures IndexOf(s, x) == m
  {
    if m > 0 {
      assert s[0] != x by { assert s[..m][0] == s[0]; }
      assert s[1..][..m - 1] == s[..m][1..];
      IndexOfAt(s[1..], x, m - 1);
    }
  }

  /** The inverse of `Split`: the pieces glued back together with `sep` between them. */
  function Join(parts: seq<string>, sep: char): string
    requires |parts| >= 1
  {
    if |parts| == 1 then parts[0] else parts[0] + [sep] + Join(parts[1..], sep)
  }

  /** `s.split(sep)` for a one-character separator: empty pieces are kept, and "" gives [""]. */
  function Split(s: string, sep: char): (parts: seq<string>)
    ensures |parts| >= 1
    ensures forall p :: p in parts ==> sep !in p
    ensures Join(parts, sep) == s
    decreases |s|
  {
    if sep !in s then [s]
    else
      var k := IndexOf(s, sep);
      var rest := Split(s[k + 1..], sep);
      assert s == s[..k] + [sep] + s[k + 1..];
      [s[..k]] + rest
  }

  /**
   * `a, b = s.split(sep, maxsplit=1)`: the text before the first `sep` and the
   * text after it, or None when `sep` does not occur (Python then has only one
   * piece to unpack).
   */
  function SplitOnce(s: string, sep: char): (r: Option<(string, string)>)
    ensures r.Some? <==> sep in s
    ensures r.Some? ==> sep !in r.value.0 && r.value.0 + [sep] + r.value.1 == s
  {
    if s == [] then None
    else if s[0] == sep then Some(([], s[1..]))
    else match SplitOnce(s[1..], sep)
      case None => None
      case Some((a, b)) => assert s == [s[0]] + s[1..]; Some(([s[0]] + a, b))
  }

  /** Cutting at the first separator gives back the two sides it was glued from. */
  lemma {:induction false} SplitOnceAt(a: string, b: string, sep: char)
    requires sep !in a
    ensures SplitOnce(a + [sep] + b, sep) == Some((a, b))
  {
    if a != [] {
      assert (a + [sep] + b)[1..] == a[1..] + [sep] + b;
      SplitOnceAt(a[1..], b, sep);
      assert [a[0]] + a[1..] == a;
    }
  }

  /** Joining pieces the first of which is not empty gives a non-empty text. */
  lemma {:induction false} JoinNonEmpty(parts: seq<string>, sep: char)
    requires |parts| >= 1 && |parts[0]| >= 1
    ensures Join(parts, sep) != ""
  {
    if |parts| > 1 {
      assert Join(parts, sep)[0] == parts[0][0];
    }
  }

  /** A character other than the separator occurs in the joined text only if it occurs in a piece. */
  lemma {:induction false} JoinAvoids(parts: seq<string>, sep: char, c: char)
    requires |parts| >= 1 && c != sep && forall p :: p in parts ==> c !in p
    ensures c !in Join(parts, sep)
    decreases |parts|
  {
    assert parts[0] in parts;
    if |parts| > 1 {
      forall p | p in parts[1..] ensures c !in p {
        assert p in parts;
      }
      JoinAvoids(parts[1..], sep, c);
    }
  }

  /** There is exactly one way to cut a text into separator-free pieces. */
  lemma {:induction false} SplitUnique(parts: seq<string>, sep: char)
    requires |parts| >= 1
    requires forall p :: p in parts ==> sep !in p
    ensures Split(Join(parts, sep), sep) == parts
    decreases |parts|
  {
    var s := Join(parts, sep);
    if |parts| == 1 {
      assert parts[0] in parts;
    } else {
      assert parts[0] in parts;
      var tail := Join(parts[1..], sep);
      assert s == parts[0] + [sep] + tail;
      assert s[|parts[0]|] == sep;
      var k := |parts[0]|;
      assert s[..k] == parts[0];
      IndexOfAt(s, sep, k);
      assert s[k + 1..] == tail;
      forall p | p in parts[1..] ensures sep !in p {
        assert p in parts;
      }
      SplitUnique(parts[1..], sep);
    }
  }

  // ---------------------------------------------------------------------
  // Decimal digits: `str(n)` and `int(s)`

  predicate IsDigit(c: char) { '0' <= c <= '9' }

  predicate AllDigits(s: string) { forall k :: 0 <= k < |s| ==> IsDigit(s[k]) }

  function DigitChar(d: nat): (c: char)
    requires d < 10
    ensures IsDigit(c) && c as int - '0' as int == d
  {
    ('0' as int + d) as char
  }

  /** `str(n)` for a non-negative integer. */
  function Decimal(n: nat): (s: string)
    ensures |s| >= 1 && AllDigits(s)
    decreases n
  {
    if n < 10 then [DigitChar(n)] else Decimal(n / 10) + [DigitChar(n % 10)]
  }

  /**
   * A run of digits with single underscores between them, as `int()` reads
   * it in base 10: it starts and ends with a digit.
   */
  predicate IsNumeral(s: string)
  {
    && |s| >= 1 && IsDigit(s[0]) && IsDigit(s[|s| - 1]) && Grouped(s)
    && forall k :: 0 <= k < |s| - 1 ==> DigitFollows(s, k)
  }

  /** An underscore at `k` is followed by a digit. */
  predicate DigitFollows(s: string, k: nat)
    requires k + 1 < |s|
  {
    s[k] == '_' ==> IsDigit(s[k + 1])
  }

  /** Only digits and underscores. */
  predicate Grouped(s: string) { forall k :: 0 <= k < |s| ==> IsDigit(s[k]) || s[k] == '_' }

  /** The number a numeral denotes; its underscores add nothing. */
  function DigitsValue(s: string): nat
    requires Grouped(s)
  {
    if s == [] then 0
    else if s[|s| - 1] == '_' then DigitsValue(s[..|s| - 1])
    else DigitsValue(s[..|s| - 1]) * 10 + (s[|s| - 1] as int - '0' as int)
  }

  lemma {:induction false} DigitsValueOfDecimal(n: nat)
    ensures DigitsValue(Decimal(n)) == n
    decreases n
  {
    var s := Decimal(n);
    if n >= 10 {
      assert s[..|s| - 1] == Decimal(n / 10);
      DigitsValueOfDecimal(n / 10);
    }
    assert IsDigit(s[|s| - 1]);
  }

  /** Two different numbers never print the same (so slot names `*0<i>` are distinct). */
  lemma DecimalInjective(a: nat, b: nat)
    requires Decimal(a) == Decimal(b)
    ensures a == b
  {
    DigitsValueOfDecimal(a);
    DigitsValueOfDecimal(b);
  }

  /** `str(n)` for any integer. */
  function Render(n: int): string
  {
    if n < 0 then "-" + Decimal(-n) else Decimal(n)
  }

  /** The whitespace `int()` skips around a numeral, as far as ASCII goes. */
  predicate IsSpace(c: char)
  {
    c == ' ' || 9 <= c as int <= 13 || 28 <= c as int <= 31
  }

  predicate AllSpace(s: string) { forall k :: 0 <= k < |s| ==> IsSpace(s[k]) }

  /** `s.lstrip()`: the suffix of `s` after its leading whitespace. */
  function TrimStart(s: string): (t: string)
    ensures |t| <= |s| && t == s[|s| - |t|..]
    ensures AllSpace(s[..|s| - |t|])
    ensures t == [] || !IsSpace(t[0])
  {
    if s != [] && IsSpace(s[0]) then TrimStart(s[1..]) else s
  }

  /** `s.rstrip()`: the prefix of `s` before its trailing whitespace. */
  function TrimEnd(s: string): (t: string)
    ensures |t| <= |s| && t == s[..|t|]
    ensures AllSpace(s[|t|..])
    ensures t == [] || !IsSpace(t[|t| - 1])
  {
    if s != [] && IsSpace(s[|s| - 1]) then TrimEnd(s[..|s| - 1]) else s
  }

  /** `s.strip()`: neither end of the result is whitespace. */
  function Strip(s: string): (t: string)
    ensures t == [] || (!IsSpace(t[0]) && !IsSpace(t[|t| - 1]))
  {
    TrimEnd(TrimStart(s))
  }

  /** Whitespace around a text that neither starts nor ends with whitespace is exactly what `strip` removes. */
  lemma {:induction false} StripPadded(before: string, s: string, after: string)
    requires AllSpace(before) && AllSpace(after)
    requires s == [] || (!IsSpace(s[0]) && !IsSpace(s[|s| - 1]))
    ensures Strip(before + s + after) == s
  {
    if s == [] {
      assert before + s + after == before + after + s;
      TrimStartPadded(before + after, s);
    } else {
      assert before + s + after == before + (s + after);
      TrimStartPadded(before, s + after);
      TrimEndPadded(s, after);
    }
  }

  lemma {:induction false} TrimStartPadded(before: string, s: string)
    requires AllSpace(before) && (s == [] || !IsSpace(s[0]))
    ensures TrimStart(before + s) == s
    decreases |before|
  {
    if before != [] {
      assert (before + s)[1..] == before[1..] + s;
      TrimStartPadded(before[1..], s);
    } else {
      assert before + s == s;
    }
  }

  lemma {:induction false} TrimEndPadded(s: string, after: string)
    requires AllSpace(after) && (s == [] || !IsSpace(s[|s| - 1]))
    ensures TrimEnd(s + after) == s
    decreases |after|
  {
    if after != [] {
      var last := |after| - 1;
      assert (s + after)[..|s + after| - 1] == s + after[..last];
      TrimEndPadded(s, after[..last]);
    } else {
      assert s + after == s;
    }
  }

  /** An optional sign, then a numeral: what `int()` accepts once the whitespace is gone. */
  predicate IsSignedNumeral(t: string)
  {
    IsNumeral(t) || (|t| >= 2 && (t[0] == '-' || t[0] == '+') && IsNumeral(t[1..]))
  }

  /** The strings `int()` accepts in base 10: a signed numeral between whitespace. */
  predicate IsIntLiteral(s: string)
  {
    IsSignedNumeral(Strip(s))
  }

  /** The value of a signed numeral; ValueError for anything else. */
  function ParseNumeral(t: string): (r: Result<int>)
    ensures r.Ok? <==> IsSignedNumeral(t)
    ensures r.Fail? ==> r.error == ValueError
    ensures r.Ok? && t[0] == '-' ==> r.value <= 0
    ensures r.Ok? && t[0] != '-' ==> r.value >= 0
  {
    if IsNumeral(t) then Ok(DigitsValue(t))
    else if |t| >= 2 && t[0] == '-' && IsNumeral(t[1..]) then Ok(-(DigitsValue(t[1..]) as int))
    else if |t| >= 2 && t[0] == '+' && IsNumeral(t[1..]) then Ok(DigitsValue(t[1..]))
    else Fail(ValueError)
  }

  /** `int(s)`: whitespace around the text is skipped, and what remains must be a signed numeral. */
  function ParseInt(s: string): (r: Result<int>)
    ensures r.Ok? <==> IsIntLiteral(s)
    ensures r.Fail? ==> r.error == ValueError
  {
    ParseNumeral(Strip(s))
  }

  /** Whitespace around the text never changes what `int()` makes of it. */
  lemma ParseIgnoresPadding(before: string, s: string, after: string)
    requires AllSpace(before) && AllSpace(after)
    ensures ParseInt(before + s + after) == ParseInt(s)
  {
    StripAbsorbs(before, s, after);
  }

  /** Stripping a padded text strips the padding too. */
  lemma StripAbsorbs(before: string, s: string, after: string)
    requires AllSpace(before) && AllSpace(after)
    ensures Strip(before + s + after) == Strip(s)
  {
    var lead, t, trail := StripShape(s);
    AllSpaceConcat(before, lead);
    AllSpaceConcat(trail, after);
    Reassociate(before, lead, t, trail, after);
    StripPadded(before + lead, t, trail + after);
  }

  /** Every text is its stripped self between leading and trailing whitespace. */
  lemma StripShape(s: string) returns (lead: string, t: string, trail: string)
    ensures s == lead + (t + trail) && t == Strip(s)
    ensures AllSpace(lead) && AllSpace(trail)
  {
    var mid := TrimStart(s);
    t := TrimEnd(mid);
    lead := s[..|s| - |mid|];
    trail := mid[|t|..];
    CutAt(mid, |t|);
    CutAt(s, |s| - |mid|);
  }

  /** A text is its prefix up to `i` followed by the rest; StripShape cuts the text this way. */
  lemma CutAt(s: string, i: nat)
    requires i <= |s|
    ensures s == s[..i] + s[i..]
  {
  }

  /** Regrouping five pieces, so that StripAbsorbs can hand the padded text to StripPadded. */
  lemma Reassociate(a: string, b: string, c: string, d: string, e: string)
    ensures a + (b + (c + d)) + e == (a + b) + c + (d + e)
  {
  }

  /** Two runs of whitespace make one; StripAbsorbs merges the added padding with the text's own. */
  lemma AllSpaceConcat(a: string, b: string)
    requires AllSpace(a) && AllSpace(b)
    ensures AllSpace(a + b)
  {
    forall k | 0 <= k < |a + b| ensures IsSpace((a + b)[k]) {
      if k < |a| {
        assert (a + b)[k] == a[k];
      } else {
        assert (a + b)[k] == b[k - |a|];
      }
    }
  }

  /** A text with no whitespace at either end is parsed as it stands. */
  lemma ParseUnpadded(s: string)
    requires s == [] || (!IsSpace(s[0]) && !IsSpace(s[|s| - 1]))
    ensures ParseInt(s) == ParseNumeral(s)
  {
    assert TrimStart(s) == s;
    assert TrimEnd(s) == s;
  }

  /** Underscores group digits: `1_000` denotes 1000. */
  lemma UnderscoreGrouping()
    ensures ParseNumeral("1_000") == Ok(1000)
  {
    var g := "1_000";
    assert Grouped(g) by {
      forall k | 0 <= k < |g| ensures IsDigit(g[k]) || g[k] == '_' {
      }
    }
    assert IsNumeral(g);
    assert g[..4][..3] == g[..3] && g[..3][..2] == g[..2] && g[..2][..1] == g[..1] && g[..1][..0] == [];
    assert DigitsValue(g[..1]) == 1;
    assert DigitsValue(g[..2]) == 1;
    assert DigitsValue(g[..3]) == 10;
    assert DigitsValue(g[..4]) == 100;
  }

  /** A doubled or a trailing underscore is refused. */
  lemma MisplacedUnderscores()
    ensures ParseNumeral("1__0") == Fail(ValueError) && ParseNumeral("10_") == Fail(ValueError)
  {
    var h := "1__0";
    assert !IsNumeral(h) by { assert !DigitFollows(h, 1); }
    var e := "10_";
    assert !IsNumeral(e) by { assert !IsDigit(e[2]); }
  }

  /** `int(str(n)) == n`. */
  lemma ParseRender(n: int)
    ensures ParseInt(Render(n)) == Ok(n)
  {
    if n < 0 {
      var m: nat := -n;
      ParseNegative(m);
      assert Render(n) == "-" + Decimal(m);
      assert -(m as int) == n;
    } else {
      ParseDecimal(n);
      assert Render(n) == Decimal(n);
    }
  }

  /** The digits of `n` parse back to `n`. */
  lemma ParseDecimal(n: nat)
    ensures ParseInt(Decimal(n)) == Ok(n)
  {
    var s := Decimal(n);
    assert IsDigit(s[0]) && IsDigit(s[|s| - 1]);
    ParseUnpadded(s);
    DecimalNumeral(n);
    DigitsValueOfDecimal(n);
  }

  /** A minus sign in front of the digits of `m` parses back to `-m`. */
  lemma ParseNegative(m: nat)
    ensures ParseInt("-" + Decimal(m)) == Ok(-(m as int))
  {
    var d := Decimal(m);
    var s := "-" + d;
    assert s[0] == '-' && s[|s| - 1] == d[|d| - 1] && IsDigit(d[|d| - 1]);
    ParseUnpadded(s);
    NegativeNumeral(m);
  }

  /** The digits of `n` form a numeral. */
  lemma DecimalNumeral(n: nat)
    ensures IsNumeral(Decimal(n))
  {
    var s := Decimal(n);
    assert IsDigit(s[0]) && IsDigit(s[|s| - 1]);
  }

  /** A minus sign in front of the digits of `m` is a signed numeral of value `-m`. */
  lemma NegativeNumeral(m: nat)
    ensures ParseNumeral("-" + Decimal(m)) == Ok(-(m as int))
  {
    var d := Decimal(m);
    var s := "-" + d;
    assert s[0] == '-' && |s| >= 2 && s[1..] == d;
    DecimalNumeral(m);
    assert !IsNumeral(s) by { assert !IsDigit(s[0]); }
    DigitsValueOfDecimal(m);
  }

  // ---------------------------------------------------------------------
  // Integer arithmetic as Python does it

  function Pow(x: int, n: nat): int
  {
    if n == 0 then 1 else x * Pow(x, n - 1)
  }

  /**
   * Python's `x // y` and `x % y`: the quotient is rounded towards minus
   * infinity, so the remainder takes the sign of the divisor (Dafny's own `/`
   * and `%` keep the remainder non-negative instead).
   */
  function FloorDivMod(x: int, y: int): (qm: (int, int))
    requires y != 0
    ensures x == y * qm.0 + qm.1
    ensures y > 0 ==> 0 <= qm.1 < y
    ensures y < 0 ==> y < qm.1 <= 0
  {
    if y > 0 then (x / y, x % y)
    else
      var q := (-x) / (-y);
      assert -x == (-y) * q + (-x) % (-y);
      (q, x - y * q)
  }

  /** `int(a / b)`: the quotient rounded towards zero. */
  function TruncDiv(a: int, b: int): int
    requires b != 0
  {
    if (a >= 0) == (b > 0) then Abs(a) / Abs(b) else -(Abs(a) / Abs(b))
  }

  function Abs(x: int): nat { if x < 0 then -x else x }


  // ---------------------------------------------------------------------
  // Indices and slices

  /** Where Python's `s[i]` reads, for a list of length `n`; None means IndexError. */
  function PyIndex(i: int, n: nat): (k: Option<nat>)
    ensures k.Some? <==> -(n as int) <= i < n
    ensures k.Some? ==> k.value < n && (i >= 0 ==> k.value == i) && (i < 0 ==> k.value == i + n)
  {
    if 0 <= i < n then Some(i) else if -(n as int) <= i < 0 then Some(i + n) else None
  }

  /** Where a slice bound `i` lands in a list of length `n` (`s[:i]`, `s[i:]` never fail). */
  function SliceBound(i: int, n: nat): (b: nat)
    ensures b <= n
    ensures 0 <= i <= n ==> b == i
    ensures i > n ==> b == n
    ensures -(n as int) <= i < 0 ==> b == i + n
    ensures i < -(n as int) ==> b == 0
  {
    if i < 0 then (if i + n < 0 then 0 else i + n) else if i > n then n else i
  }
}
