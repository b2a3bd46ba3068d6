/**
 * The CodingBat case parser (coding_bat_exporter/src/case.rs): reads the
 * values of one test case, e.g. `[1, 2], "ab", true`, from a line of text.
 * The functions below define what each step of the parser computes from
 * the characters and the current position; the class `CaseParser` is the
 * parser itself, a cursor over the characters, and each of its methods is
 * proved to do what the function of the same step says. A panic of the
 * parser is the outcome `Panic`; an `Option::None` is `Missing`.
 */
module CodingBatCase {
  import opened Wrappers
  import opened Strings
  import opened Numbers
  import opened CodingBatTypes

  /** The outcome of one step: a value, `None`, or a panic. */
  datatype Step<T> = Got(value: T) | Missing | Panic

  /** `num_char`: a character that may appear in a number. */
  predicate NumChar(c: char) {
    '0' <= c <= '9' || c == '.' || c == '-'
  }

  predicate IsQuote(c: char) {
    c == '"' || c == '\''
  }

  predicate IsSeparator(c: char) {
    c == ' ' || c == ','
  }

  predicate IsOpener(c: char) {
    c == '[' || c == '{'
  }

  predicate IsCloser(c: char) {
    c == ']' || c == '}'
  }

  /** How many characters are left at position `i` (none past the end). */
  function Left(s: seq<char>, i: nat): nat {
    if i < |s| then |s| - i else 0
  }

  // ----- what each step computes -----

  /** `take_separator`: the position after the run of ' ' and ',' at `i`. */
  function SkipSeparators(s: seq<char>, i: nat): (j: nat)
    ensures i <= j && (j <= |s| || j == i)
    ensures forall k :: i <= k < j ==> k < |s| && IsSeparator(s[k])
    ensures j < |s| ==> !IsSeparator(s[j])
    decreases Left(s, i)
  {
    if i < |s| && IsSeparator(s[i]) then SkipSeparators(s, i + 1) else i
  }

  /** The position after the run of number characters at `i`. */
  function NumberEnd(s: seq<char>, i: nat): (j: nat)
    ensures i <= j && (j <= |s| || j == i)
    ensures forall k :: i <= k < j ==> k < |s| && NumChar(s[k])
    ensures j < |s| ==> !NumChar(s[j])
    decreases Left(s, i)
  {
    if i < |s| && NumChar(s[i]) then NumberEnd(s, i + 1) else i
  }

  /** The first position at or after `k` holding `q`. */
  function CloseQuote(s: seq<char>, k: nat, q: char): (r: Option<nat>)
    ensures r.Some? ==> k <= r.value < |s| && s[r.value] == q
    ensures r.Some? ==> forall m :: k <= m < r.value ==> s[m] != q
    ensures r.None? ==> forall m :: k <= m < |s| ==> s[m] != q
    decreases Left(s, k)
  {
    if k >= |s| then None else if s[k] == q then Some(k) else CloseQuote(s, k + 1, q)
  }

  /**
   * `take_number`: the whole run of number characters is consumed; the
   * result is its value, or None when the run is empty or does not parse.
   */
  function TakeNumberAt(s: seq<char>, i: nat): (r: (Option<real>, nat))
    ensures r.1 == NumberEnd(s, i)
    ensures r.0.Some? ==> i < r.1 && ParseFloat(s[i..r.1]) == r.0
  {
    var e := NumberEnd(s, i);
    if e == i then (None, e) else (ParseFloat(s[i..e]), e)
  }

  /**
   * `take_string`: the characters strictly between a quote at `i` and the
   * next identical quote, moving past the closing one; None, without
   * moving, when there is no opening quote or no closing one.
   */
  function TakeStringAt(s: seq<char>, i: nat): (r: (Option<string>, nat))
    ensures r.0.None? ==> r.1 == i
    ensures r.0.Some? ==> i < |s| && IsQuote(s[i]) && r.1 == i + |r.0.value| + 2 <= |s|
    ensures r.0.Some? ==> s[r.1 - 1] == s[i] && r.0.value == s[i + 1..r.1 - 1] && s[i] !in r.0.value
    ensures r.0.None? <==> i >= |s| || !IsQuote(s[i]) || s[i] !in s[i + 1..]
  {
    if i >= |s| || !IsQuote(s[i]) then (None, i)
    else
      match CloseQuote(s, i + 1, s[i])
      case None =>
        assert s[i] !in s[i + 1..] by {
          var rest := s[i + 1..];
          forall m | 0 <= m < |rest| ensures rest[m] != s[i] {
            assert rest[m] == s[i + 1 + m];
          }
        }
        (None, i)
      case Some(e) =>
        assert s[i] in s[i + 1..] by { assert s[i + 1..][e - i - 1] == s[e]; }
        (Some(s[i + 1..e]), e + 1)
  }

  /**
   * `next_type`: reads one value at `i`, choosing the kind by its first
   * character. Every value read moves the position forward.
   */
  function NextAt(s: seq<char>, i: nat): (r: (Step<Value>, nat))
    ensures i <= r.1
    ensures r.0.Got? ==> i < |s| && i < r.1
    decreases Left(s, i), 1
  {
    if i >= |s| then (Missing, i)
    else
      var c := s[i];
      if NumChar(c) then
        var (x, e) := TakeNumberAt(s, i);
        (if x.Some? then Got(Number(x.value)) else Missing, e)
      else if IsQuote(c) then
        var (t, e) := TakeStringAt(s, i);
        (if t.Some? then Got(Str(t.value)) else Missing, e)
      else if AsciiLower(c) == 't' then (Got(Bool(true)), i + 4)
      else if AsciiLower(c) == 'f' then (Got(Bool(false)), i + 5)
      else if c == '[' then
        var (a, e) := TakeArrayAt(s, i);
        (match a case Got(xs) => Got(ArrayList(xs)) case Missing => Missing case Panic => Panic, e)
      else if c == '{' then
        var (a, e) := TakeArrayAt(s, i);
        (match a case Got(xs) => Got(Array(xs)) case Missing => Missing case Panic => Panic, e)
      else (Missing, i)
  }

  /**
   * `take_array`: consumes the opener, then reads elements until a closer
   * (']' and '}' close either kind).
   */
  function TakeArrayAt(s: seq<char>, i: nat): (r: (Step<seq<Value>>, nat))
    ensures i <= r.1
    decreases Left(s, i), 0
  {
    if i >= |s| then (Missing, i)
    else if !IsOpener(s[i]) then (Missing, i + 1)
    else ItemsAt(s, i + 1, [])
  }

  /**
   * The loop of `take_array` at position `j`, with `acc` read so far:
   * separators are skipped, then a closer ends the array, the end of the
   * text panics, and anything else must be an element.
   */
  function ItemsAt(s: seq<char>, j: nat, acc: seq<Value>): (r: (Step<seq<Value>>, nat))
    ensures j <= r.1
    decreases Left(s, j), 2
  {
    var k := SkipSeparators(s, j);
    if k >= |s| then (Panic, k)
    else if IsCloser(s[k]) then (Got(acc), k + 1)
    else
      match NextAt(s, k)
      case (Got(v), m) => ItemsAt(s, m, acc + [v])
      case (Missing, m) => (Missing, m)
      case (Panic, m) => (Panic, m)
  }

  /** The loop of `parse` at position `i`: values, each followed by separators, until one is missing. */
  function ValuesAt(s: seq<char>, i: nat, acc: seq<Value>): (r: (Step<seq<Value>>, nat))
    ensures r.0.Got? ==> |r.0.value| >= |acc|
    decreases Left(s, i)
  {
    match NextAt(s, i)
    case (Got(v), j) => ValuesAt(s, SkipSeparators(s, j), acc + [v])
    case (Missing, j) => (Got(acc), j)
    case (Panic, j) => (Panic, j)
  }

  /** `parse` from position `i`: all values but the last are the arguments, the last is the result. */
  function ParseAt(s: seq<char>, i: nat): (r: (Step<(seq<Value>, Value)>, nat))
  {
    match ValuesAt(s, i, [])
    case (Got(vs), j) => if vs == [] then (Panic, j) else (Got((vs[..|vs| - 1], vs[|vs| - 1])), j)
    case (_, j) => (Panic, j)
  }

  // ----- the parser -----

  /** `CaseParser`: the characters of the line and the position reached. */
  class CaseParser {
    var chars: seq<char>
    var idx: nat

    /** `new`: starts at the first character. */
    constructor(input: string)
      ensures chars == input && idx == 0
    {
      chars := input;
      idx := 0;
    }

    /** `eof`. */
    function AtEnd(): (r: bool)
      reads this
      ensures r <==> Left(chars, idx) == 0
    {
      idx >= |chars|
    }

    method TakeSeparator()
      modifies this
      ensures chars == old(chars) && idx == SkipSeparators(chars, old(idx))
    {
      while !AtEnd() && IsSeparator(chars[idx])
        invariant chars == old(chars) && old(idx) <= idx
        invariant SkipSeparators(chars, idx) == SkipSeparators(chars, old(idx))
        decreases Left(chars, idx)
      {
        idx := idx + 1;
      }
    }

    method TakeNumber() returns (r: Option<real>)
      modifies this
      ensures chars == old(chars) && (r, idx) == TakeNumberAt(chars, old(idx))
    {
      var working: string := [];
      while !AtEnd() && NumChar(chars[idx])
        invariant chars == old(chars) && old(idx) <= idx
        invariant NumberEnd(chars, idx) == NumberEnd(chars, old(idx))
        invariant |working| == idx - old(idx) && (working == [] || idx <= |chars|)
        invariant forall k :: 0 <= k < |working| ==> working[k] == chars[old(idx) + k]
        decreases Left(chars, idx)
      {
        working := working + [chars[idx]];
        idx := idx + 1;
      }
      if working == [] {
        r := None;
      } else {
        assert working == chars[old(idx)..idx];
        r := ParseFloat(working);
      }
    }

    method TakeString() returns (r: Option<string>)
      modifies this
      ensures chars == old(chars) && (r, idx) == TakeStringAt(chars, old(idx))
    {
      if idx >= |chars| {
        return None;
      }
      var first := chars[idx];
      if !IsQuote(first) {
        return None;
      }
      var start := idx + 1;
      var end := start;
      while end < |chars| && chars[end] != first
        invariant start <= end <= |chars|
        invariant CloseQuote(chars, end, first) == CloseQuote(chars, start, first)
      {
        end := end + 1;
      }
      if end >= |chars| {
        return None;
      }
      idx := idx + end - start + 2;
      r := Some(chars[start..end]);
    }

    method NextType() returns (r: Step<Value>)
      modifies this
      ensures chars == old(chars) && (r, idx) == NextAt(chars, old(idx))
      decreases Left(chars, idx), 1
    {
      if idx >= |chars| {
        return Missing;
      }
      var next := chars[idx];
      if NumChar(next) {
        var x := TakeNumber();
        r := if x.Some? then Got(Number(x.value)) else Missing;
      } else if IsQuote(next) {
        var t := TakeString();
        r := if t.Some? then Got(Str(t.value)) else Missing;
      } else if AsciiLower(next) == 't' {
        idx := idx + 4;
        r := Got(Bool(true));
      } else if AsciiLower(next) == 'f' {
        idx := idx + 5;
        r := Got(Bool(false));
      } else if next == '[' {
        var a := TakeArray();
        r := match a case Got(xs) => Got(ArrayList(xs)) case Missing => Missing case Panic => Panic;
      } else if next == '{' {
        var a := TakeArray();
        r := match a case Got(xs) => Got(Array(xs)) case Missing => Missing case Panic => Panic;
      } else {
        r := Missing;
      }
    }

    method TakeArray() returns (r: Step<seq<Value>>)
      modifies this
      ensures chars == old(chars) && (r, idx) == TakeArrayAt(chars, old(idx))
      decreases Left(chars, idx), 0
    {
      if idx >= |chars| {
        return Missing;
      }
      var first := chars[idx];
      idx := idx + 1;
      if !IsOpener(first) {
        return Missing;
      }
      var out: seq<Value> := [];
      while true
        invariant chars == old(chars) && old(idx) < idx && old(idx) < |chars|
        invariant ItemsAt(chars, idx, out) == ItemsAt(chars, old(idx) + 1, [])
        decreases Left(chars, idx)
      {
        TakeSeparator();
        if idx >= |chars| {
          return Panic;
        }
        if IsCloser(chars[idx]) {
          idx := idx + 1;
          return Got(out);
        }
        var next := NextType();
        if next.Missing? {
          return Missing;
        } else if next.Panic? {
          return Panic;
        }
        out := out + [next.value];
      }
    }

    /** `parse`: reads values until one is missing; the last one read is the result. */
    method Parse() returns (r: Step<(seq<Value>, Value)>)
      modifies this
      ensures chars == old(chars) && (r, idx) == ParseAt(chars, old(idx))
    {
      var args: seq<Value> := [];
      while true
        invariant chars == old(chars)
        invariant ValuesAt(chars, idx, args) == ValuesAt(chars, old(idx), [])
        decreases Left(chars, idx)
      {
        var next := NextType();
        if next.Missing? {
          break;
        } else if next.Panic? {
          return Panic;
        }
        args := args + [next.value];
        TakeSeparator();
      }
      if args == [] {
        return Panic;
      }
      r := Got((args[..|args| - 1], args[|args| - 1]));
    }
  }

  // ----- printing a case, and reading it back -----

  /** Values the printer below writes so that they read back: whole numbers, strings without '"'. */
  predicate Printable(v: Value)
    decreases v, 1
  {
    match v
    case Bool(_) => true
    case Number(x) => IsWhole(x)
    case Str(t) => '"' !in t
    case Array(xs) => AllPrintable(xs)
    case ArrayList(xs) => AllPrintable(xs)
  }

  /** Every value of `xs` is printable. */
  predicate AllPrintable(xs: seq<Value>)
    decreases xs, 0
  {
    xs == [] || (Printable(xs[0]) && AllPrintable(xs[1..]))
  }

  /** The text of a value as the CodingBat pages write it. */
  function Show(v: Value): (r: string)
    ensures r != []
    decreases v, 1
  {
    match v
    case Bool(b) => if b then "true" else "false"
    case Number(x) => IntText(x.Floor)
    case Str(t) => "\"" + t + "\""
    case Array(xs) => "{" + ShowItems(xs) + "}"
    case ArrayList(xs) => "[" + ShowItems(xs) + "]"
  }

  /** Values separated by ", ". */
  function ShowItems(xs: seq<Value>): string
    decreases xs, 0
  {
    if xs == [] then ""
    else if |xs| == 1 then Show(xs[0])
    else Show(xs[0]) + ", " + ShowItems(xs[1..])
  }

  /** The text `t` occurs in `s` at position `i`. */
  predicate At(s: seq<char>, i: nat, t: string) {
    i + |t| <= |s| && forall k :: 0 <= k < |t| ==> s[i + k] == t[k]
  }

  /** Position `j` ends a run of number characters. */
  predicate NumberStop(s: seq<char>, j: nat) {
    j >= |s| || !NumChar(s[j])
  }

  /** An integer's text is made of number characters only. */
  lemma IntTextNumChars(n: int)
    ensures forall k :: 0 <= k < |IntText(n)| ==> NumChar(IntText(n)[k])
  {
    var digits := NatToString(if n < 0 then -n else n);
    if n < 0 {
      assert IntText(n) == ['-'] + digits;
    } else {
      assert IntText(n) == digits;
    }
  }

  /** A printed value starts with neither a separator nor a closer. */
  lemma ShowFirst(v: Value)
    ensures !IsSeparator(Show(v)[0]) && !IsCloser(Show(v)[0])
  {
    if v.Number? {
      IntTextNumChars(v.x.Floor);
    }
  }

  /** A run of number characters from `i` to a stop at `e` is the run `NumberEnd` measures. */
  lemma {:induction false} NumberEndRun(s: seq<char>, i: nat, e: nat)
    requires i <= e <= |s| && NumberStop(s, e)
    requires forall k :: i <= k < e ==> NumChar(s[k])
    ensures NumberEnd(s, i) == e
    decreases e - i
  {
    if i < e {
      NumberEndRun(s, i + 1, e);
    }
  }

  /** The first `q` from `k` on is at `e`. */
  lemma {:induction false} CloseQuoteAt(s: seq<char>, k: nat, q: char, e: nat)
    requires k <= e < |s| && s[e] == q
    requires forall m :: k <= m < e ==> s[m] != q
    ensures CloseQuote(s, k, q) == Some(e)
    decreases e - k
  {
    if k < e {
      CloseQuoteAt(s, k + 1, q, e);
    }
  }

  /** The quoted text read at `i` is the one that was printed there. */
  lemma ReadQuoted(s: seq<char>, i: nat, t: string)
    requires '"' !in t && At(s, i, "\"" + t + "\"")
    ensures TakeStringAt(s, i) == (Some(t), i + |t| + 2)
  {
    var shown := "\"" + t + "\"";
    var e := i + 1 + |t|;
    assert s[i] == shown[0] == '"';
    assert s[e] == shown[|t| + 1] == '"';
    forall m | i + 1 <= m < e ensures s[m] == t[m - i - 1] {
      assert s[m] == s[i..i + |shown|][m - i] == shown[m - i];
    }
    CloseQuoteAt(s, i + 1, '"', e);
    assert s[i + 1..e] == t;
  }

  /** The number printed at `i` reads back, up to the stop after it. */
  lemma ReadNumber(s: seq<char>, i: nat, x: real)
    requires IsWhole(x) && At(s, i, IntText(x.Floor)) && NumberStop(s, i + |IntText(x.Floor)|)
    ensures TakeNumberAt(s, i) == (Some(x), i + |IntText(x.Floor)|)
  {
    var shown := IntText(x.Floor);
    var e := i + |shown|;
    IntTextNumChars(x.Floor);
    forall k | i <= k < e ensures NumChar(s[k]) {
      assert s[i + (k - i)] == shown[k - i];
    }
    NumberEndRun(s, i, e);
    assert s[i..e] == shown;
    ParseFloatIntText(x.Floor);
  }

  /** Where `open`, `t` and `close` are printed at `i`, `t` is printed right after `open`. */
  lemma Enclosed(s: seq<char>, i: nat, t: string, open: char, close: char)
    requires At(s, i, [open] + t + [close])
    ensures s[i] == open && At(s, i + 1, t) && i + 1 + |t| < |s| && s[i + 1 + |t|] == close
  {
    var shown := [open] + t + [close];
    AtIndex(s, i, shown, 0);
    AtIndex(s, i, shown, 1 + |t|);
    forall k | 0 <= k < |t| ensures s[i + 1 + k] == t[k] {
      AtIndex(s, i, shown, 1 + k);
    }
  }

  /** An array printed at `i` between `open` and its closer reads back as its elements. */
  lemma {:induction false} ReadBracketed(s: seq<char>, i: nat, xs: seq<Value>, open: char, close: char)
    requires AllPrintable(xs)
    requires IsCloser(close) && At(s, i, [open] + ShowItems(xs) + [close])
    ensures TakeArrayAt(s, i) == (if IsOpener(open) then (Got(xs), i + |ShowItems(xs)| + 2) else (Missing, i + 1))
    decreases xs, 1
  {
    Enclosed(s, i, ShowItems(xs), open, close);
    if IsOpener(open) {
      ReadItems(s, i + 1, xs, []);
      assert [] + xs == xs;
    }
  }

  /** A printed boolean, number or string reads back at `i`. */
  lemma ReadScalar(s: seq<char>, i: nat, v: Value)
    requires !v.Array? && !v.ArrayList?
    requires Printable(v) && At(s, i, Show(v)) && NumberStop(s, i + |Show(v)|)
    ensures NextAt(s, i) == (Got(v), i + |Show(v)|)
  {
    AtIndex(s, i, Show(v), 0);
    match v
    case Bool(b) =>
    case Number(x) =>
      IntTextNumChars(x.Floor);
      ReadNumber(s, i, x);
    case Str(t) =>
      ReadQuoted(s, i, t);
  }

  /** A printed array of either kind reads back at `i`. */
  lemma ReadArray(s: seq<char>, i: nat, v: Value)
    requires v.Array? || v.ArrayList?
    requires Printable(v) && At(s, i, Show(v))
    ensures NextAt(s, i) == (Got(v), i + |Show(v)|)
    decreases v, 1
  {
    AtIndex(s, i, Show(v), 0);
    if v.Array? {
      assert Show(v) == ['{'] + ShowItems(v.items) + ['}'];
      ReadBracketed(s, i, v.items, '{', '}');
    } else {
      assert Show(v) == ['['] + ShowItems(v.items) + [']'];
      ReadBracketed(s, i, v.items, '[', ']');
    }
  }

  /**
   * Reading a printed value back: at a position where `Show(v)` occurs,
   * followed by anything that cannot continue a number, `next_type` gives
   * `v` and stops right after its text.
   */
  lemma ReadShow(s: seq<char>, i: nat, v: Value)
    requires Printable(v) && At(s, i, Show(v)) && NumberStop(s, i + |Show(v)|)
    ensures NextAt(s, i) == (Got(v), i + |Show(v)|)
    decreases v, 2
  {
    if v.Array? || v.ArrayList? {
      ReadArray(s, i, v);
    } else {
      ReadScalar(s, i, v);
    }
  }

  /** `ShowItems` of two or more values: the first, ", ", then the rest. */
  lemma ShowItemsSplit(xs: seq<Value>)
    requires |xs| >= 2
    ensures ShowItems(xs) == Show(xs[0]) + ", " + ShowItems(xs[1..])
  {
  }

  /** A character of text that occurs at `j`. */
  lemma AtIndex(s: seq<char>, j: nat, t: string, k: nat)
    requires At(s, j, t) && k < |t|
    ensures s[j + k] == t[k]
  {
    assert s[j + k] == s[j..j + |t|][k];
  }

  /** Printed values start with neither a separator nor a closer. */
  lemma ShowItemsFirst(ys: seq<Value>)
    requires ys != []
    ensures ShowItems(ys) != [] && !IsSeparator(ShowItems(ys)[0]) && !IsCloser(ShowItems(ys)[0])
  {
    ShowFirst(ys[0]);
    if |ys| >= 2 {
      ShowItemsSplit(ys);
    }
  }

  /** Where `a`, ", " and `b` are printed at `j`, each part is printed in its place. */
  lemma Joined(s: seq<char>, j: nat, a: string, b: string)
    requires At(s, j, a + ", " + b)
    ensures At(s, j, a) && s[j + |a|] == ',' && s[j + |a| + 1] == ' ' && At(s, j + |a| + 2, b)
  {
    var t := a + ", " + b;
    forall k | 0 <= k < |a| ensures s[j + k] == a[k] {
      AtIndex(s, j, t, k);
    }
    AtIndex(s, j, t, |a|);
    AtIndex(s, j, t, |a| + 1);
    forall k | 0 <= k < |b| ensures s[j + |a| + 2 + k] == b[k] {
      AtIndex(s, j, t, |a| + 2 + k);
    }
  }

  /** Where a single value is printed, its text is the whole printed text. */
  lemma PrintedOne(s: seq<char>, j: nat, xs: seq<Value>)
    requires |xs| == 1 && At(s, j, ShowItems(xs))
    ensures At(s, j, Show(xs[0])) && |ShowItems(xs)| == |Show(xs[0])|
  {
    assert ShowItems(xs) == Show(xs[0]);
  }

  /** Where several values are printed at `j`, the first is printed there and ", " follows it up to `m`. */
  lemma PrintedFirst(s: seq<char>, j: nat, xs: seq<Value>, m: nat)
    requires |xs| >= 2 && At(s, j, ShowItems(xs)) && m == j + |Show(xs[0])| + 2
    ensures At(s, j, Show(xs[0])) && m <= |s| && s[m - 2] == ',' && s[m - 1] == ' '
  {
    ShowItemsSplit(xs);
    Joined(s, j, Show(xs[0]), ShowItems(xs[1..]));
  }

  /** Where several values are printed at `j`, the rest are printed at `m`, after the first and ", ". */
  lemma PrintedRest(s: seq<char>, j: nat, xs: seq<Value>, m: nat, rest: seq<Value>)
    requires |xs| >= 2 && At(s, j, ShowItems(xs)) && m == j + |Show(xs[0])| + 2 && rest == xs[1..]
    ensures At(s, m, ShowItems(rest)) && m + |ShowItems(rest)| == j + |ShowItems(xs)|
    ensures m < |s| && !IsSeparator(s[m])
  {
    ShowItemsSplit(xs);
    Joined(s, j, Show(xs[0]), ShowItems(rest));
    ShowItemsFirst(rest);
    AtIndex(s, m, ShowItems(rest), 0);
  }

  /** One element of the `take_array` loop, read at a position holding no separator. */
  lemma ItemsStep(s: seq<char>, j: nat, acc: seq<Value>, v: Value, m: nat)
    requires j < |s| && !IsSeparator(s[j]) && !IsCloser(s[j])
    requires NextAt(s, j) == (Got(v), m)
    ensures ItemsAt(s, j, acc) == ItemsAt(s, m, acc + [v])
  {
    assert SkipSeparators(s, j) == j;
  }

  /** Two separators before `m + 2` are skipped alike from `m` and from `m + 2`. */
  lemma SkipTwo(s: seq<char>, m: nat)
    requires m + 2 <= |s| && s[m] == ',' && s[m + 1] == ' '
    ensures SkipSeparators(s, m) == SkipSeparators(s, m + 2)
  {
  }

  /** The `take_array` loop ends at a closer, with the elements read so far. */
  lemma ItemsClose(s: seq<char>, j: nat, acc: seq<Value>)
    requires j < |s| && IsCloser(s[j])
    ensures ItemsAt(s, j, acc) == (Got(acc), j + 1)
  {
    assert SkipSeparators(s, j) == j;
  }

  /** The `take_array` loop is the same from `m` and from after the ", " at `m`. */
  lemma ItemsAfterComma(s: seq<char>, m: nat, acc: seq<Value>)
    requires m + 2 <= |s| && s[m] == ',' && s[m + 1] == ' '
    ensures ItemsAt(s, m, acc) == ItemsAt(s, m + 2, acc)
  {
    SkipTwo(s, m);
  }

  /** Appending the first element and then the rest appends them all. */
  lemma AppendHead(acc: seq<Value>, xs: seq<Value>, rest: seq<Value>, acc2: seq<Value>)
    requires xs != [] && rest == xs[1..] && acc2 == acc + [xs[0]]
    ensures acc2 + rest == acc + xs
  {
  }

  /**
   * A printed value followed by ", " or a closer is read by `next_type`,
   * and it starts with neither a separator nor a closer.
   */
  lemma ReadFollowed(s: seq<char>, j: nat, v: Value)
    requires Printable(v) && At(s, j, Show(v)) && j + |Show(v)| < |s|
    requires s[j + |Show(v)|] == ',' || IsCloser(s[j + |Show(v)|])
    ensures NextAt(s, j) == (Got(v), j + |Show(v)|)
    ensures !IsSeparator(s[j]) && !IsCloser(s[j])
    decreases v, 3
  {
    ShowFirst(v);
    AtIndex(s, j, Show(v), 0);
    ReadShow(s, j, v);
  }

  /** The elements `xs`, all printable, are printed at `j` inside an array, and a closer follows them. */
  predicate ItemsPrinted(s: seq<char>, j: nat, xs: seq<Value>) {
    && AllPrintable(xs) && At(s, j, ShowItems(xs))
    && j + |ShowItems(xs)| < |s| && IsCloser(s[j + |ShowItems(xs)|])
  }

  /** After the first of several printed elements and its ", ", the rest are printed. */
  lemma ItemsTail(s: seq<char>, j: nat, xs: seq<Value>, m: nat, rest: seq<Value>)
    requires |xs| >= 2 && ItemsPrinted(s, j, xs)
    requires m == j + |Show(xs[0])| + 2 && rest == xs[1..]
    ensures ItemsPrinted(s, m, rest) && m + |ShowItems(rest)| == j + |ShowItems(xs)|
  {
    PrintedRest(s, j, xs, m, rest);
  }

  /** The first of several printed elements inside an array is read. */
  lemma ItemsFirst(s: seq<char>, j: nat, xs: seq<Value>, acc: seq<Value>, m: nat, acc2: seq<Value>)
    requires |xs| >= 2 && ItemsPrinted(s, j, xs)
    requires m == j + |Show(xs[0])| + 2 && acc2 == acc + [xs[0]]
    ensures ItemsAt(s, j, acc) == ItemsAt(s, m, acc2)
    decreases xs[0], 4
  {
    PrintedFirst(s, j, xs, m);
    ReadFollowed(s, j, xs[0]);
    ItemsStep(s, j, acc, xs[0], m - 2);
    ItemsAfterComma(s, m - 2, acc2);
  }

  /**
   * One step of reading printed elements inside an array: the first is
   * read, and the loop goes on at `m` with the rest, which are printed there.
   */
  lemma ItemsHead(s: seq<char>, j: nat, xs: seq<Value>, acc: seq<Value>) returns (m: nat, rest: seq<Value>, acc2: seq<Value>)
    requires |xs| >= 2 && ItemsPrinted(s, j, xs)
    ensures rest == xs[1..] && acc2 + rest == acc + xs
    ensures ItemsAt(s, j, acc) == ItemsAt(s, m, acc2)
    ensures ItemsPrinted(s, m, rest) && m + |ShowItems(rest)| == j + |ShowItems(xs)|
    decreases xs[0], 5
  {
    m, rest, acc2 := j + |Show(xs[0])| + 2, xs[1..], acc + [xs[0]];
    ItemsFirst(s, j, xs, acc, m, acc2);
    ItemsTail(s, j, xs, m, rest);
    AppendHead(acc, xs, rest, acc2);
  }

  /** The last printed element inside an array is read, and the closer after it ends the loop. */
  lemma ItemsLast(s: seq<char>, j: nat, xs: seq<Value>, acc: seq<Value>)
    requires |xs| == 1 && ItemsPrinted(s, j, xs)
    ensures ItemsAt(s, j, acc) == (Got(acc + xs), j + |ShowItems(xs)| + 1)
    decreases xs[0], 4
  {
    var m := j + |Show(xs[0])|;
    PrintedOne(s, j, xs);
    ReadFollowed(s, j, xs[0]);
    ItemsStep(s, j, acc, xs[0], m);
    ItemsClose(s, m, acc + [xs[0]]);
    assert xs == [xs[0]];
  }

  /**
   * Reading printed elements back inside an array: from `j`, where the
   * elements are printed and a closer follows, the loop of `take_array`
   * collects exactly those elements and stops after the closer.
   */
  lemma {:induction false} ReadItems(s: seq<char>, j: nat, xs: seq<Value>, acc: seq<Value>)
    requires ItemsPrinted(s, j, xs)
    ensures ItemsAt(s, j, acc) == (Got(acc + xs), j + |ShowItems(xs)| + 1)
    decreases xs, 0
  {
    if xs == [] {
      ItemsClose(s, j, acc);
      assert acc + xs == acc;
    } else if |xs| == 1 {
      ItemsLast(s, j, xs, acc);
    } else {
      var m, rest, acc2 := ItemsHead(s, j, xs, acc);
      ReadItems(s, m, rest, acc2);
    }
  }

  /** The values `xs`, all printable, are printed at `i` up to the end of the text. */
  predicate ValuesPrinted(s: seq<char>, i: nat, xs: seq<Value>) {
    AllPrintable(xs) && At(s, i, ShowItems(xs)) && i + |ShowItems(xs)| == |s|
  }

  /** After the first of several printed values of a case and its ", ", the rest are printed. */
  lemma ValuesTail(s: seq<char>, i: nat, xs: seq<Value>, m: nat, rest: seq<Value>)
    requires |xs| >= 2 && ValuesPrinted(s, i, xs)
    requires m == i + |Show(xs[0])| + 2 && rest == xs[1..]
    ensures ValuesPrinted(s, m, rest) && rest != []
  {
    PrintedRest(s, i, xs, m, rest);
  }

  /** The first of several printed values of a case is read. */
  lemma ValuesFirst(s: seq<char>, i: nat, xs: seq<Value>, acc: seq<Value>, m: nat, rest: seq<Value>, acc2: seq<Value>)
    requires |xs| >= 2 && ValuesPrinted(s, i, xs)
    requires m == i + |Show(xs[0])| + 2 && rest == xs[1..] && acc2 == acc + [xs[0]]
    ensures ValuesAt(s, i, acc) == ValuesAt(s, m, acc2)
  {
    PrintedFirst(s, i, xs, m);
    PrintedRest(s, i, xs, m, rest);
    ReadFollowed(s, i, xs[0]);
    SkipTwo(s, m - 2);
    assert SkipSeparators(s, m) == m;
  }

  /**
   * One step of reading the printed values of a case: the first is read,
   * and the loop goes on at `m` with the rest, which are printed there.
   */
  lemma ValuesHead(s: seq<char>, i: nat, xs: seq<Value>, acc: seq<Value>) returns (m: nat, rest: seq<Value>, acc2: seq<Value>)
    requires |xs| >= 2 && ValuesPrinted(s, i, xs)
    ensures rest == xs[1..] && rest != [] && acc2 + rest == acc + xs
    ensures ValuesAt(s, i, acc) == ValuesAt(s, m, acc2)
    ensures ValuesPrinted(s, m, rest)
  {
    m, rest, acc2 := i + |Show(xs[0])| + 2, xs[1..], acc + [xs[0]];
    ValuesFirst(s, i, xs, acc, m, rest, acc2);
    ValuesTail(s, i, xs, m, rest);
    AppendHead(acc, xs, rest, acc2);
  }

  /** The last printed value of a case is read, and the end of the text ends the loop. */
  lemma ValuesLast(s: seq<char>, i: nat, xs: seq<Value>, acc: seq<Value>)
    requires |xs| == 1 && ValuesPrinted(s, i, xs)
    ensures ValuesAt(s, i, acc) == (Got(acc + xs), |s|)
  {
    PrintedOne(s, i, xs);
    ReadShow(s, i, xs[0]);
    assert SkipSeparators(s, |s|) == |s|;
    assert xs == [xs[0]];
  }

  /**
   * Reading a printed case back: from `i`, where the rest of the text is
   * the printed values, the loop of `parse` collects exactly those values.
   */
  lemma {:induction false} ReadValues(s: seq<char>, i: nat, xs: seq<Value>, acc: seq<Value>)
    requires xs != [] && ValuesPrinted(s, i, xs)
    ensures ValuesAt(s, i, acc) == (Got(acc + xs), |s|)
    decreases |xs|
  {
    if |xs| == 1 {
      ValuesLast(s, i, xs, acc);
    } else {
      var m, rest, acc2 := ValuesHead(s, i, xs, acc);
      ReadValues(s, m, rest, acc2);
    }
  }

  /** A printable value added at the end of printable values. */
  lemma {:induction false} AllPrintableSnoc(xs: seq<Value>, v: Value)
    requires AllPrintable(xs) && Printable(v)
    ensures AllPrintable(xs + [v])
    decreases |xs|
  {
    if xs != [] {
      AllPrintableSnoc(xs[1..], v);
      assert (xs + [v])[1..] == xs[1..] + [v];
    }
  }

  /**
   * The round trip of `parse`: a case printed as its arguments and result,
   * separated by ", ", parses back to those arguments and that result.
   */
  lemma CaseRoundTrip(args: seq<Value>, result: Value)
    requires AllPrintable(args) && Printable(result)
    ensures ParseAt(ShowItems(args + [result]), 0).0 == Got((args, result))
  {
    var vs := args + [result];
    var s := ShowItems(vs);
    AllPrintableSnoc(args, result);
    assert At(s, 0, s);
    ReadValues(s, 0, vs, []);
    assert [] + vs == vs;
    assert vs[..|vs| - 1] == args;
  }

  /** `parse` panics when the text does not start with a value (`args.pop().unwrap()`). */
  lemma NothingParsedPanics(s: seq<char>, i: nat)
    requires NextAt(s, i).0.Missing?
    ensures ParseAt(s, i).0 == Panic
  {
  }

  /** A closing '}' ends an array opened with '['. */
  lemma BraceClosesList()
    ensures NextAt("[\"a\"}", 0) == (Got(ArrayList([Str("a")])), 5)
  {
    var s := "[\"a\"}";
    assert At(s, 1, "\"a\"");
    ReadQuoted(s, 1, "a");
    ItemsStep(s, 1, [], Str("a"), 4);
    assert [] + [Str("a")] == [Str("a")];
    ItemsClose(s, 4, [Str("a")]);
    assert TakeArrayAt(s, 0) == ItemsAt(s, 1, []);
  }

  /** A closing ']' ends an array opened with '{'. */
  lemma BracketClosesArray()
    ensures NextAt("{\"a\"]", 0) == (Got(Array([Str("a")])), 5)
  {
    var s := "{\"a\"]";
    assert At(s, 1, "\"a\"");
    ReadQuoted(s, 1, "a");
    ItemsStep(s, 1, [], Str("a"), 4);
    assert [] + [Str("a")] == [Str("a")];
    ItemsClose(s, 4, [Str("a")]);
    assert TakeArrayAt(s, 0) == ItemsAt(s, 1, []);
  }

  /** An array still open at the end of the text panics. */
  lemma OpenArrayPanics()
    ensures NextAt("[\"a\", ", 0).0 == Panic
  {
    var s := "[\"a\", ";
    assert At(s, 1, "\"a\"");
    ReadQuoted(s, 1, "a");
    ItemsStep(s, 1, [], Str("a"), 4);
    assert SkipSeparators(s, 4) == 6;
  }
}
