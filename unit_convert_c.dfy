/**
 * The earlier C converter: a read-evaluate loop over lines such as
 * "12 mi => ft". Unit names are looked up case-insensitively in a table of
 * ten units, each with aliases packed into one NUL-separated string; when no
 * unit matches, a metric prefix is stripped (the name tried before the
 * symbol, in table order) and the rest must name a metric unit.
 */
module CConverter {
  import opened Wrappers
  import opened Strings
  import opened CStrings

  /** What a unit measures. */
  datatype Dimension = Length | Mass | Temperature

  /**
   * A unit: its dimension, whether it takes metric prefixes, its name, and its
   * aliases, each followed by a NUL, with one more NUL after the last.
   */
  datatype Unit = Unit(dimension: Dimension, metric: bool, name: string, alias: string)

  /** A metric prefix and the power of ten it stands for. */
  datatype MetricPrefix = MetricPrefix(name: string, symbol: string, power: int)

  /** A resolved unit name: the unit and the prefix in front of it. */
  datatype FoundUnit = NotFound | Found(unit: Unit, prefix: MetricPrefix)

  /** The result of stripping a prefix: where the rest of the name starts, and the prefix. */
  datatype Stripped = Stripped(offset: nat, prefix: MetricPrefix)

  const Meter := Unit(Length, true, "meter", "m\0\0")
  const Mile := Unit(Length, false, "mile", "mi\0\0")
  const Inch := Unit(Length, false, "inch", "in\0\0")
  const Foot := Unit(Length, false, "foot", "ft\0feet\0\0")
  const Yard := Unit(Length, false, "yard", "yd\0\0")
  const Gram := Unit(Mass, true, "gram", "g\0\0")
  const Tonne := Unit(Mass, false, "tonne", "t\0\0")
  const Pound := Unit(Mass, false, "pound", "lb\0lbs\0\0")
  const Celsius := Unit(Temperature, false, "celsius", "c\0\0")
  const Fahrenheit := Unit(Temperature, false, "fahrenheit", "f\0\0")

  /** The unit table, in lookup order. */
  const Units: seq<Unit> := [Meter, Mile, Inch, Foot, Yard, Gram, Tonne, Pound, Celsius, Fahrenheit]

  const Tera := MetricPrefix("tera", "T", 12)
  const Giga := MetricPrefix("giga", "G", 9)
  const Mega := MetricPrefix("mega", "M", 6)
  const Kilo := MetricPrefix("kilo", "k", 3)
  const Hecto := MetricPrefix("hecto", "h", 2)
  const Deca := MetricPrefix("deca", "da", 1)
  const Deci := MetricPrefix("deci", "d", -1)
  const Centi := MetricPrefix("centi", "c", -2)
  const Milli := MetricPrefix("milli", "m", -3)
  const Micro := MetricPrefix("micro", "\U{03BC}", -6)
  const Nano := MetricPrefix("nano", "n", -9)
  const Pico := MetricPrefix("pico", "p", -12)

  /** The prefix table, in the order prefixes are tried. */
  const Prefixes: seq<MetricPrefix> :=
    [Tera, Giga, Mega, Kilo, Hecto, Deca, Deci, Centi, Milli, Micro, Nano, Pico]

  /** The empty prefix of an unprefixed unit. */
  const DummyPrefix := MetricPrefix("", "", 0)

  /** The name `dimention_name` prints for a dimension. */
  function DimensionName(d: Dimension): (r: string)
    ensures r != []
  {
    match d
    case Length => "length"
    case Mass => "mass"
    case Temperature => "tempature"
  }

  /** Different dimensions print differently. */
  lemma DimensionNamesDiffer(a: Dimension, b: Dimension)
    requires a != b
    ensures DimensionName(a) != DimensionName(b)
  {
    assert DimensionName(a)[0] != DimensionName(b)[0] || |DimensionName(a)| != |DimensionName(b)|;
  }

  // ----- The packed alias lists -----

  /** `strlen(alias + j)`: the characters from `j` up to the next NUL or the end. */
  function StrLenAt(s: string, j: nat): (r: nat)
    ensures j + r <= |s| || r == 0
    ensures j <= |s| ==> j + r <= |s|
    ensures forall k :: j <= k < j + r ==> s[k] != '\0'
    ensures j + r < |s| ==> s[j + r] == '\0'
    decreases |s| - j
  {
    if j >= |s| || s[j] == '\0' then 0 else 1 + StrLenAt(s, j + 1)
  }

  /** The aliases packed in `s` from position `j`, up to the first empty one. */
  function AliasesFrom(s: string, j: nat): (r: seq<string>)
    decreases |s| + 1 - j
  {
    var len := StrLenAt(s, j);
    if len == 0 then [] else [s[j..j + len]] + AliasesFrom(s, j + len + 1)
  }

  /** The unit's aliases as a list. */
  function Aliases(u: Unit): seq<string> {
    AliasesFrom(u.alias, 0)
  }

  /** `t` is the unit's name or one of its aliases. */
  predicate Names(u: Unit, t: string) {
    u.name == t || t in Aliases(u)
  }

  /**
   * The inner loop of `find_unit`: walks the packed aliases one NUL-terminated
   * entry at a time until the empty entry, comparing each with `text`.
   */
  method MatchesAlias(alias: string, text: string) returns (found: bool)
    ensures found <==> text in AliasesFrom(alias, 0)
  {
    var j := 0;
    while true
      invariant j <= |alias| + 1
      invariant text in AliasesFrom(alias, 0) <==> text in AliasesFrom(alias, j)
      decreases |alias| + 1 - j
    {
      var length := StrLenAt(alias, j);
      if length == 0 {
        return false;
      }
      if alias[j..j + length] == text {
        return true;
      }
      j := j + length + 1;
    }
  }

  // ----- Unit lookup -----
  // The lookups take the unit and prefix tables as parameters; the program
  // always passes `Units` and `Prefixes`.

  /** The index of the first unit of `table` from `i` on that `t` names, or -1. */
  function UnitIndexFrom(table: seq<Unit>, t: string, i: nat): (r: int)
    requires i <= |table|
    ensures r == -1 || i <= r < |table|
    ensures r == -1 <==> forall k :: i <= k < |table| ==> !Names(table[k], t)
    ensures r != -1 ==> Names(table[r], t) && forall k :: i <= k < r ==> !Names(table[k], t)
    decreases |table| - i
  {
    if i == |table| then -1
    else if Names(table[i], t) then i
    else UnitIndexFrom(table, t, i + 1)
  }

  /** The index of the first unit of `table` that `t` names, or -1. */
  function UnitIndex(table: seq<Unit>, t: string): int {
    UnitIndexFrom(table, t, 0)
  }

  /** The table scan of `find_unit` on an already lower-cased name. */
  method Lookup(table: seq<Unit>, text: string) returns (index: int)
    ensures index == UnitIndex(table, text)
  {
    for i := 0 to |table|
      invariant forall k :: 0 <= k < i ==> !Names(table[k], text)
    {
      var unit := table[i];
      if unit.name == text {
        return i;
      }
      var found := MatchesAlias(unit.alias, text);
      if found {
        return i;
      }
    }
    return -1;
  }

  /**
   * `find_unit(name + from)`: lower-cases the C string at `from` in place, then
   * returns the index of the first unit it names, or -1.
   */
  method FindUnit(table: seq<Unit>, name: array<char>, from: nat) returns (index: int)
    requires '\0' in name[..] && from <= Len(name[..])
    modifies name
    ensures '\0' in name[..] && Len(name[..]) == old(Len(name[..]))
    ensures Text(name[..]) == old(Text(name[..])[..from] + Lower(Text(name[..])[from..]))
    ensures name[Len(name[..])..] == old(name[Len(name[..])..])
    ensures index == UnitIndex(table, Lower(old(Text(name[..])[from..])))
  {
    ghost var s := name[..];
    var n := Len(name[..]);
    var i := from;
    while name[i] != '\0'
      invariant from <= i <= n
      invariant name[..from] == s[..from] && name[i..] == s[i..]
      invariant forall k :: from <= k < i ==> name[k] == AsciiLower(s[k])
      decreases n - i
    {
      name[i] := AsciiLower(name[i]);
      i := i + 1;
    }
    LoweredText(s, name[..], from);
    index := Lookup(table, name[from..n]);
  }

  /** The buffer after the lower-casing loop of `find_unit`. */
  lemma LoweredText(s: seq<char>, t: seq<char>, from: nat)
    requires '\0' in s && from <= Len(s) && |t| == |s|
    requires t[..from] == s[..from] && t[Len(s)..] == s[Len(s)..]
    requires forall k :: from <= k < Len(s) ==> t[k] == AsciiLower(s[k])
    ensures '\0' in t && Len(t) == Len(s)
    ensures Text(t) == Text(s)[..from] + Lower(Text(s)[from..])
    ensures t[from..Len(t)] == Lower(Text(s)[from..])
  {
    var n := Len(s);
    assert t[n] == s[n];
    forall k | 0 <= k < n ensures t[k] != '\0' {
      if k < from { assert t[k] == t[..from][k]; }
    }
    LenAt(t, n);
    assert t[from..n] == Lower(s[..n][from..]);
    assert t[..n] == t[..from] + t[from..n];
  }

  // ----- Prefix stripping -----

  /**
   * The first prefix from entry `i` of `prefixes` whose name, or else whose
   * symbol, starts `s`; the empty prefix when none does.
   */
  function StripFrom(prefixes: seq<MetricPrefix>, s: string, i: nat): (r: Stripped)
    requires i <= |prefixes|
    ensures r.offset <= |s|
    ensures r.prefix == DummyPrefix ==> r.offset == 0
    ensures r.prefix != DummyPrefix ==> r.prefix in prefixes[i..]
    ensures r.prefix != DummyPrefix ==> s[..r.offset] == r.prefix.name || s[..r.offset] == r.prefix.symbol
    decreases |prefixes| - i
  {
    if i == |prefixes| then Stripped(0, DummyPrefix)
    else if StartsWith(s, prefixes[i].name) then Stripped(|prefixes[i].name|, prefixes[i])
    else if StartsWith(s, prefixes[i].symbol) then Stripped(|prefixes[i].symbol|, prefixes[i])
    else StripFrom(prefixes, s, i + 1)
  }

  /** Stripping tries the table in order: the prefix found comes no later than any that starts `s`. */
  lemma {:induction false} StripFirst(prefixes: seq<MetricPrefix>, s: string, i: nat, k: nat)
    requires i <= k < |prefixes|
    requires StartsWith(s, prefixes[k].name) || StartsWith(s, prefixes[k].symbol)
    ensures StripFrom(prefixes, s, i).prefix in prefixes[i..k + 1]
    decreases k - i
  {
    if !StartsWith(s, prefixes[i].name) && !StartsWith(s, prefixes[i].symbol) {
      StripFirst(prefixes, s, i + 1, k);
      assert prefixes[i + 1..k + 1] == prefixes[i..k + 1][1..];
    }
  }

  /** `strip_prefix`: tries each prefix's name, then its symbol, in table order. */
  method StripPrefix(prefixes: seq<MetricPrefix>, name: string) returns (out: Stripped)
    ensures out == StripFrom(prefixes, name, 0)
  {
    for i := 0 to |prefixes|
      invariant StripFrom(prefixes, name, 0) == StripFrom(prefixes, name, i)
    {
      var prefix := prefixes[i];
      if StartsWith(name, prefix.name) {
        return Stripped(|prefix.name|, prefix);
      }
      if StartsWith(name, prefix.symbol) {
        return Stripped(|prefix.symbol|, prefix);
      }
    }
    return Stripped(0, DummyPrefix);
  }

  // ----- Resolving a prefixed unit name -----

  /**
   * What `find_prefixed_unit` resolves `s` to: a unit the lower-cased name
   * names, else the lower-cased name stripped of a prefix, if the rest names
   * a metric unit.
   */
  function ResolveAsWritten(table: seq<Unit>, prefixes: seq<MetricPrefix>, s: string): FoundUnit {
    var l := Lower(s);
    var i := UnitIndex(table, l);
    if i != -1 then Found(table[i], DummyPrefix)
    else
      var st := StripFrom(prefixes, l, 0);
      var k := UnitIndex(table, Lower(l[st.offset..]));
      if k != -1 && table[k].metric then Found(table[k], st.prefix) else NotFound
  }

  /**
   * The lookup with the prefix stripped from the name as typed, so that the
   * upper-case symbols T, G and M can match; units are still compared in
   * lower case.
   */
  function ResolveFixed(table: seq<Unit>, prefixes: seq<MetricPrefix>, s: string): FoundUnit {
    var l := Lower(s);
    var i := UnitIndex(table, l);
    if i != -1 then Found(table[i], DummyPrefix)
    else
      var st := StripFrom(prefixes, s, 0);
      var k := UnitIndex(table, Lower(l[st.offset..]));
      if k != -1 && table[k].metric then Found(table[k], st.prefix) else NotFound
  }

  /** Lower-casing a suffix of a lower-cased text changes nothing. */
  lemma {:induction false} LowerSuffix(s: string, off: nat)
    requires off <= |s|
    ensures Lower(Lower(s)[off..]) == Lower(s)[off..]
    ensures Lower(s)[..off] + Lower(s)[off..] == Lower(s)
  {
    LowerSlice(s, off);
    LowerIdempotent(s[off..]);
  }

  /** Lower-casing commutes with taking a suffix. */
  lemma {:induction false} LowerSlice(s: string, off: nat)
    requires off <= |s|
    ensures Lower(s)[off..] == Lower(s[off..])
  {
    var a, b := Lower(s)[off..], Lower(s[off..]);
    forall k | 0 <= k < |a| ensures a[k] == b[k] {
      assert a[k] == Lower(s)[off + k];
    }
  }

  /**
   * `find_prefixed_unit` as written: the first `find_unit` lower-cases the
   * buffer, and the prefix is stripped from that lower-cased text.
   */
  method FindPrefixedUnit(table: seq<Unit>, prefixes: seq<MetricPrefix>, name: array<char>) returns (out: FoundUnit)
    requires '\0' in name[..]
    modifies name
    ensures '\0' in name[..] && Text(name[..]) == Lower(old(Text(name[..])))
    ensures out == ResolveAsWritten(table, prefixes, old(Text(name[..])))
  {
    ghost var s := Text(name[..]);
    var unit := FindUnit(table, name, 0);
    assert s[..0] == [] && s[0..] == s;
    ghost var l := Text(name[..]);
    assert l == Lower(s);
    if unit != -1 {
      return Found(table[unit], DummyPrefix);
    }
    var strip := StripPrefix(prefixes, Text(name[..]));
    unit := FindUnit(table, name, strip.offset);
    LowerSuffix(s, strip.offset);
    assert Text(name[..]) == l;
    if unit != -1 && table[unit].metric {
      return Found(table[unit], strip.prefix);
    }
    return NotFound;
  }

  /** The corrected lookup: the prefix is stripped from a copy of the name taken before lower-casing. */
  method FindPrefixedUnitFixed(table: seq<Unit>, prefixes: seq<MetricPrefix>, name: array<char>) returns (out: FoundUnit)
    requires '\0' in name[..]
    modifies name
    ensures '\0' in name[..] && Text(name[..]) == Lower(old(Text(name[..])))
    ensures out == ResolveFixed(table, prefixes, old(Text(name[..])))
  {
    var original := Text(name[..]);
    var unit := FindUnit(table, name, 0);
    assert original[..0] == [] && original[0..] == original;
    ghost var l := Text(name[..]);
    assert l == Lower(original);
    if unit != -1 {
      return Found(table[unit], DummyPrefix);
    }
    var strip := StripPrefix(prefixes, original);
    unit := FindUnit(table, name, strip.offset);
    LowerSuffix(original, strip.offset);
    assert Text(name[..]) == l;
    if unit != -1 && table[unit].metric {
      return Found(table[unit], strip.prefix);
    }
    return NotFound;
  }

  /** Only metric units carry a prefix, and a prefix is one of the table's or the empty one. */
  lemma ResolvedPrefix(table: seq<Unit>, prefixes: seq<MetricPrefix>, s: string)
    ensures var r := ResolveAsWritten(table, prefixes, s);
      r.Found? ==> r.unit in table && (r.prefix == DummyPrefix || (r.unit.metric && r.prefix in prefixes))
    ensures var r := ResolveFixed(table, prefixes, s);
      r.Found? ==> r.unit in table && (r.prefix == DummyPrefix || (r.unit.metric && r.prefix in prefixes))
  {
  }

  /** A name some unit answers to is never split into a prefix and a unit. */
  lemma DirectMatchFirst(table: seq<Unit>, prefixes: seq<MetricPrefix>, s: string)
    requires UnitIndex(table, Lower(s)) != -1
    ensures ResolveAsWritten(table, prefixes, s) == Found(table[UnitIndex(table, Lower(s))], DummyPrefix)
    ensures ResolveFixed(table, prefixes, s) == ResolveAsWritten(table, prefixes, s)
  {
  }

  /**
   * As written, a prefix whose symbol is an upper-case letter is found only by
   * its full name: the buffer is already lower-cased when the prefix is stripped.
   */
  lemma UppercaseSymbolsUnreachable(table: seq<Unit>, prefixes: seq<MetricPrefix>, s: string)
    requires ResolveAsWritten(table, prefixes, s).Found?
    requires var p := ResolveAsWritten(table, prefixes, s).prefix;
      p != DummyPrefix && p.symbol != [] && 'A' <= p.symbol[0] <= 'Z'
    ensures StartsWith(Lower(s), ResolveAsWritten(table, prefixes, s).prefix.name)
  {
    var l := Lower(s);
    var st := StripFrom(prefixes, l, 0);
    assert l == [] || !('A' <= l[0] <= 'Z');
    assert l[..st.offset] != st.prefix.symbol by {
      if st.offset > 0 { assert l[..st.offset][0] == l[0]; }
    }
  }

  /** T, G and M are the upper-case symbols of the table. */
  lemma UppercaseSymbols()
    ensures forall p :: p in [Tera, Giga, Mega] ==> p in Prefixes && 'A' <= p.symbol[0] <= 'Z'
  {
  }

  // ----- One line of the read-evaluate loop -----

  /** What `main` does with one line. */
  datatype Outcome =
    | Quit
    | NoSeparator
    | UnknownStart(name: string)
    | UnknownEnd(name: string)
    | Mismatch(startDimension: Dimension, endDimension: Dimension)
    | Converted(number: string, start: FoundUnit, end: FoundUnit, power: int)

  /** Characters `strcspn(line, "\n")` passes over. */
  predicate NotNewline(c: char) {
    c != '\n' && c != '\0'
  }

  /** The text before the first newline. */
  function FirstLine(t: string): (r: string)
    requires '\0' !in t
    ensures |r| <= |t| && r == t[..|r|] && '\n' !in r
    ensures |r| < |t| ==> t[|r|] == '\n'
  {
    var s := t + ['\0'];
    var n := ScanWhile(s, 0, NotNewline);
    assert s[|t|] == '\0';
    assert forall k :: 0 <= k < n ==> t[..n][k] == s[k];
    t[..n]
  }

  /** The text with its leading white space removed, as `trim_front` leaves it. */
  function TrimmedFront(t: string): (r: string)
    requires '\0' !in t
    ensures |r| <= |t| && r == t[|t| - |r|..]
    ensures forall k :: 0 <= k < |t| - |r| ==> IsCSpace(t[k])
    ensures r == [] || !IsCSpace(r[0])
  {
    t[Scan(t, 0, IsCSpace)..]
  }

  /** The word `read_str` takes from `idx` on, after white space, and the index after it. */
  function Word(u: string, idx: nat): (r: (string, nat))
    requires '\0' !in u && idx <= |u|
    ensures idx <= r.1 <= |u| && |r.0| <= r.1 - idx && r.0 == u[r.1 - |r.0|..r.1]
    ensures forall k :: 0 <= k < |r.0| ==> IsWordChar(r.0[k])
    ensures forall k :: idx <= k < r.1 - |r.0| ==> IsCSpace(u[k])
    ensures r.1 == |u| || !IsWordChar(u[r.1])
  {
    var w := Scan(u, idx, IsCSpace);
    var j := Scan(u, w, IsWordChar);
    (u[w..j], j)
  }

  /**
   * The number text `read_float` scans, the start word, and where the white
   * space after it ends.
   */
  function Head(u: string): (r: (string, string, nat))
    requires '\0' !in u
    ensures r.2 <= |u|
  {
    var start := Scan(u, 0, BeforeNumber);
    var numEnd := Scan(u, start, IsFloatChar);
    var word := Word(u, numEnd);
    (u[start..numEnd], word.0, Scan(u, word.1, IsCSpace))
  }

  /**
   * The pieces `main` reads from a trimmed line: the number text, the start
   * word, and the end word after "=>"; None when no "=>" follows the start word.
   */
  function Pieces(u: string): (r: Option<(string, string, string)>)
    requires '\0' !in u
  {
    var head := Head(u);
    if !StartsWith(u[head.2..], "=>") then None
    else Some((head.0, head.1, Word(u, head.2 + 2).0))
  }

  /**
   * The report on two resolved words: an unknown unit (lower-cased, as the
   * lookup leaves the buffer), a dimension mismatch, or the conversion with
   * the difference of the prefix powers.
   */
  function Decide(number: string, startWord: string, endWord: string, from: FoundUnit, to: FoundUnit): Outcome {
    if from.NotFound? then UnknownStart(Lower(startWord))
    else if to.NotFound? then UnknownEnd(Lower(endWord))
    else if from.unit.dimension != to.unit.dimension then Mismatch(from.unit.dimension, to.unit.dimension)
    else Converted(number, from, to, from.prefix.power - to.prefix.power)
  }

  /** What `main` reports for a number text and two unit words, both resolved by `find_prefixed_unit` as written. */
  function Report(table: seq<Unit>, prefixes: seq<MetricPrefix>, number: string, startWord: string, endWord: string): (r: Outcome)
    ensures !r.Quit? && !r.NoSeparator?
    ensures r.UnknownStart? <==> ResolveAsWritten(table, prefixes, startWord).NotFound?
    ensures r.Converted? ==> r.start == ResolveAsWritten(table, prefixes, startWord) && r.end == ResolveAsWritten(table, prefixes, endWord)
  {
    Decide(number, startWord, endWord, ResolveAsWritten(table, prefixes, startWord), ResolveAsWritten(table, prefixes, endWord))
  }

  /** The corrected report: the same decisions over the corrected lookup. */
  function ReportFixed(table: seq<Unit>, prefixes: seq<MetricPrefix>, number: string, startWord: string, endWord: string): (r: Outcome)
    ensures !r.Quit? && !r.NoSeparator?
    ensures r.UnknownStart? <==> ResolveFixed(table, prefixes, startWord).NotFound?
    ensures r.Converted? ==> r.start == ResolveFixed(table, prefixes, startWord) && r.end == ResolveFixed(table, prefixes, endWord)
  {
    Decide(number, startWord, endWord, ResolveFixed(table, prefixes, startWord), ResolveFixed(table, prefixes, endWord))
  }

  /** What `main` does with a line read as `raw`: stop on "quit", reject a line without "=>", or report. */
  function Evaluate(table: seq<Unit>, prefixes: seq<MetricPrefix>, raw: string): (r: Outcome)
    requires '\0' !in raw
    ensures r.Quit? <==> TrimmedFront(FirstLine(raw)) == "quit"
    ensures !r.Quit? && !r.NoSeparator? ==> Contains(TrimmedFront(FirstLine(raw)), "=>")
  {
    var u := TrimmedFront(FirstLine(raw));
    PiecesNeedArrow(u);
    if u == "quit" then Quit
    else match Pieces(u)
      case None => NoSeparator
      case Some((number, startWord, endWord)) => Report(table, prefixes, number, startWord, endWord)
  }

  /** `line[strcspn(line, "\n")] = '\0'`: ends the string at its first newline. */
  method CutNewline(line: array<char>)
    requires '\0' in line[..]
    modifies line
    ensures '\0' in line[..] && Text(line[..]) == FirstLine(old(Text(line[..])))
  {
    ghost var s := line[..];
    var i := 0;
    while NotNewline(line[i])
      invariant 0 <= i <= Len(s)
      invariant forall k :: 0 <= k < i ==> NotNewline(s[k])
      invariant line[..] == s
      decreases Len(s) - i
    {
      i := i + 1;
    }
    ScanStops(s, 0, NotNewline, i);
    ScanText(s, 0, NotNewline);
    line[i] := '\0';
    assert forall k :: 0 <= k < i ==> line[k] == s[k];
    LenAt(line[..], i);
    assert Text(line[..]) == Text(s)[..i];
  }

  /** The newline cut and `trim_front` that start each iteration. */
  method PrepareLine(line: array<char>)
    requires '\0' in line[..]
    modifies line
    ensures '\0' in line[..] && Text(line[..]) == TrimmedFront(FirstLine(old(Text(line[..]))))
  {
    CutNewline(line);
    ghost var cut := line[..];
    TrimFront(line);
    ScanText(cut, 0, IsCSpace);
  }

  /** `read_str` on a line, stated on the line's text. */
  method ReadWord(line: array<char>, idx: nat) returns (word: array<char>, j: nat)
    requires '\0' in line[..] && idx <= Len(line[..])
    ensures '\0' in word[..] && (Text(word[..]), j) == Word(Text(line[..]), idx)
    ensures fresh(word)
  {
    ghost var s := line[..];
    ghost var w := ScanWhile(s, idx, IsCSpace);
    word, j := ReadStr(line, idx);
    ScanText(s, idx, IsCSpace);
    ScanText(s, w, IsWordChar);
    BufferWord(s, w, j);
  }

  /** `read_float`, `read_str` and `skip_whitespace`, stated on the line's text. */
  method ReadHead(line: array<char>) returns (number: string, startWord: array<char>, sep: nat)
    requires '\0' in line[..]
    ensures '\0' in startWord[..] && (number, Text(startWord[..]), sep) == Head(Text(line[..]))
    ensures fresh(startWord)
  {
    ghost var s := line[..];
    var start, numEnd := ReadFloat(line, 0);
    ScanText(s, 0, BeforeNumber);
    ScanText(s, start, IsFloatChar);
    number := Text(line[..])[start..numEnd];
    var w1End;
    startWord, w1End := ReadWord(line, numEnd);
    sep := SkipWhitespace(line, w1End);
    ScanText(s, w1End, IsCSpace);
  }

  /**
   * The pieces of a prepared line: the number text and fresh copies of the
   * two words, or `ok` false when no "=>" follows the start word.
   */
  method ReadPieces(line: array<char>)
    returns (ok: bool, number: string, startWord: array<char>, sep: nat, endWord: array<char>)
    requires '\0' in line[..]
    ensures '\0' in startWord[..] && (number, Text(startWord[..]), sep) == Head(Text(line[..]))
    ensures ok == StartsWith(Text(line[..])[sep..], "=>")
    ensures ok ==> '\0' in endWord[..] && Text(endWord[..]) == Word(Text(line[..]), sep + 2).0
    ensures ok ==> fresh(startWord) && fresh(endWord) && startWord != endWord
  {
    number, startWord, sep := ReadHead(line);
    ok := StartsWith(Text(line[..])[sep..], "=>");
    if !ok {
      return false, number, startWord, sep, startWord;
    }
    var w2End;
    endWord, w2End := ReadWord(line, sep + 2);
  }

  /** A word copied out of the buffer, NUL appended, holds the same characters as the text. */
  lemma BufferWord(s: seq<char>, a: nat, b: nat)
    requires '\0' in s && a <= b <= Len(s)
    requires forall k :: a <= k < b ==> IsWordChar(s[k])
    ensures '\0' in s[a..b] + ['\0'] && Text(s[a..b] + ['\0']) == Text(s)[a..b]
  {
    WordText(s[a..b]);
  }

  /**
   * The end of `main`'s loop body: resolves both words with `find_prefixed_unit`
   * as written, then reports on the start word, the end word, the dimensions.
   */
  method ReportOn(table: seq<Unit>, prefixes: seq<MetricPrefix>, number: string, startWord: array<char>, endWord: array<char>)
    returns (outcome: Outcome)
    requires '\0' in startWord[..] && '\0' in endWord[..] && startWord != endWord
    modifies startWord, endWord
    ensures outcome == Report(table, prefixes, number, old(Text(startWord[..])), old(Text(endWord[..])))
  {
    var from := FindPrefixedUnit(table, prefixes, startWord);
    var to := FindPrefixedUnit(table, prefixes, endWord);
    if from.NotFound? {
      return UnknownStart(Text(startWord[..]));
    }
    if to.NotFound? {
      return UnknownEnd(Text(endWord[..]));
    }
    if from.unit.dimension != to.unit.dimension {
      return Mismatch(from.unit.dimension, to.unit.dimension);
    }
    return Converted(number, from, to, from.prefix.power - to.prefix.power);
  }

  /**
   * The body of `main`'s loop for one line read into `line`: prepares the
   * line, stops on "quit", reads the pieces, and reports.
   */
  method ProcessLine(table: seq<Unit>, prefixes: seq<MetricPrefix>, line: array<char>) returns (outcome: Outcome)
    requires '\0' in line[..]
    modifies line
    ensures outcome == Evaluate(table, prefixes, old(Text(line[..])))
  {
    PrepareLine(line);
    if Text(line[..]) == "quit" {
      return Quit;
    }
    var ok, number, startWord, sep, endWord := ReadPieces(line);
    if !ok {
      return NoSeparator;
    }
    outcome := ReportOn(table, prefixes, number, startWord, endWord);
  }

  // ----- What the outcomes promise -----

  /** Every prefix of the table stands for a power of ten from -12 to 12. */
  lemma PrefixPowers()
    ensures forall p :: p in Prefixes ==> -12 <= p.power <= 12
  {
  }

  /**
   * A conversion is between two resolved units of the table with the same
   * dimension, scaled by the difference of their prefix powers; a mismatch
   * names two different dimensions; an unknown unit is reported lower-cased,
   * the start word first.
   */
  lemma ReportSound(table: seq<Unit>, prefixes: seq<MetricPrefix>, number: string, a: string, b: string)
    requires forall p :: p in prefixes ==> -12 <= p.power <= 12
    ensures var r := Report(table, prefixes, number, a, b);
      r.Converted? ==>
        && r.number == number
        && r.start == ResolveAsWritten(table, prefixes, a) && r.end == ResolveAsWritten(table, prefixes, b)
        && r.start.Found? && r.end.Found? && r.start.unit in table && r.end.unit in table
        && r.start.unit.dimension == r.end.unit.dimension
        && r.power == r.start.prefix.power - r.end.prefix.power && -24 <= r.power <= 24
    ensures var r := Report(table, prefixes, number, a, b);
      r.Mismatch? <==>
        ResolveAsWritten(table, prefixes, a).Found? && ResolveAsWritten(table, prefixes, b).Found? &&
        ResolveAsWritten(table, prefixes, a).unit.dimension != ResolveAsWritten(table, prefixes, b).unit.dimension
    ensures var r := Report(table, prefixes, number, a, b);
      r.Mismatch? ==> r.startDimension != r.endDimension
    ensures var r := Report(table, prefixes, number, a, b);
      (r.UnknownStart? <==> ResolveAsWritten(table, prefixes, a).NotFound?) &&
      (r.UnknownStart? ==> r.name == Lower(a))
    ensures var r := Report(table, prefixes, number, a, b);
      (r.UnknownEnd? <==> ResolveAsWritten(table, prefixes, a).Found? && ResolveAsWritten(table, prefixes, b).NotFound?) &&
      (r.UnknownEnd? ==> r.name == Lower(b))
  {
    ResolvedPrefix(table, prefixes, a);
    ResolvedPrefix(table, prefixes, b);
  }

  /** Words typed in lower case get the same report from both lookups. */
  lemma ReportFixedAgrees(table: seq<Unit>, prefixes: seq<MetricPrefix>, number: string, a: string, b: string)
    requires Lower(a) == a && Lower(b) == b
    ensures ReportFixed(table, prefixes, number, a, b) == Report(table, prefixes, number, a, b)
  {
    FixedAgreesOnLowerCase(table, prefixes, a);
    FixedAgreesOnLowerCase(table, prefixes, b);
  }

  /** Pieces are found only where "=>" occurs in the line. */
  lemma PiecesNeedArrow(u: string)
    requires '\0' !in u
    ensures Pieces(u).Some? ==> Contains(u, "=>")
  {
    var sep := Head(u).2;
    if StartsWith(u[sep..], "=>") {
      assert u[sep..][..2] == u[sep..sep + 2];
      assert OccursAt(u, "=>", sep);
    }
  }

  /** A line that is not "quit" and holds no "=>" is rejected for its missing separator. */
  lemma NoArrowNoConversion(table: seq<Unit>, prefixes: seq<MetricPrefix>, raw: string)
    requires '\0' !in raw
    requires TrimmedFront(FirstLine(raw)) != "quit" && !Contains(TrimmedFront(FirstLine(raw)), "=>")
    ensures Evaluate(table, prefixes, raw) == NoSeparator
  {
    PiecesNeedArrow(TrimmedFront(FirstLine(raw)));
  }

  /** The start word and the end word hold no white space, '=' or NUL. */
  lemma WordsAreWords(u: string)
    requires '\0' !in u && Pieces(u).Some?
    ensures forall k :: 0 <= k < |Pieces(u).value.1| ==> IsWordChar(Pieces(u).value.1[k])
    ensures forall k :: 0 <= k < |Pieces(u).value.2| ==> IsWordChar(Pieces(u).value.2[k])
  {
  }

  // ----- Case and the prefix symbols -----

  /** As written, the case of a name makes no difference: "Mm" is read as "mm". */
  lemma AsWrittenIgnoresCase(table: seq<Unit>, prefixes: seq<MetricPrefix>, s: string)
    ensures ResolveAsWritten(table, prefixes, s) == ResolveAsWritten(table, prefixes, Lower(s))
  {
    LowerIdempotent(s);
  }

  /** On a name already in lower case the corrected lookup agrees with the original. */
  lemma FixedAgreesOnLowerCase(table: seq<Unit>, prefixes: seq<MetricPrefix>, s: string)
    requires Lower(s) == s
    ensures ResolveFixed(table, prefixes, s) == ResolveAsWritten(table, prefixes, s)
  {
  }

  /** "Mm" lower-cases to "mm". */
  lemma LowerMm(s: string)
    requires s == "Mm"
    ensures Lower(s) == "mm"
  {
    assert AsciiLower(s[0]) == 'm' && AsciiLower(s[1]) == 'm';
  }

  /** An alias at `j`, ended by a NUL, heads the list from `j`. */
  lemma AliasAt(packed: string, j: nat, a: string)
    requires a != [] && '\0' !in a && j + |a| < |packed|
    requires packed[j..j + |a|] == a && packed[j + |a|] == '\0'
    ensures AliasesFrom(packed, j) == [a] + AliasesFrom(packed, j + |a| + 1)
  {
    forall k | j <= k < j + |a| ensures packed[k] != '\0' {
      assert packed[k] == a[k - j];
    }
    StrLenUpTo(packed, j, |a|);
  }

  /** An alias list with one entry. */
  lemma OneAlias(packed: string, a: string)
    requires packed == a + ['\0', '\0'] && a != [] && '\0' !in a
    ensures AliasesFrom(packed, 0) == [a]
  {
    assert packed[0..|a|] == a;
    AliasAt(packed, 0, a);
    assert StrLenAt(packed, |a| + 1) == 0;
  }

  /** `strlen` from `j` is `n` when the next NUL is `n` characters on. */
  lemma {:induction false} StrLenUpTo(s: string, j: nat, n: nat)
    requires j + n < |s| && s[j + n] == '\0' && forall k :: j <= k < j + n ==> s[k] != '\0'
    ensures StrLenAt(s, j) == n
    decreases n
  {
    if n > 0 {
      StrLenUpTo(s, j + 1, n - 1);
    }
  }

  /** A unit with one alias does not answer to a name other than its name and alias. */
  lemma NotNamedOne(u: Unit, a: string, t: string)
    requires u.alias == a + ['\0', '\0'] && a != [] && '\0' !in a && u.name != t && t != a
    ensures !Names(u, t)
  {
    OneAlias(u.alias, a);
  }

  /** A unit with two aliases does not answer to a name other than its name and aliases. */
  lemma NotNamedTwo(u: Unit, a: string, b: string, t: string)
    requires u.alias == a + ['\0'] + b + ['\0', '\0'] && a != [] && b != [] && '\0' !in a && '\0' !in b
    requires u.name != t && t != a && t != b
    ensures !Names(u, t)
  {
    TwoAliases(u.alias, a, b);
  }

  /** A table of ten units none of which answers to `t` does not find it. */
  lemma NoneOfTen(t: string, a: Unit, b: Unit, c: Unit, d: Unit, e: Unit, f: Unit, g: Unit, h: Unit, i: Unit, j: Unit)
    requires !Names(a, t) && !Names(b, t) && !Names(c, t) && !Names(d, t) && !Names(e, t)
    requires !Names(f, t) && !Names(g, t) && !Names(h, t) && !Names(i, t) && !Names(j, t)
    ensures UnitIndex([a, b, c, d, e, f, g, h, i, j], t) == -1
  {
    var table := [a, b, c, d, e, f, g, h, i, j];
    forall k | 0 <= k < 10 ensures !Names(table[k], t) {
    }
  }

  // No unit answers to "mm", shown one unit at a time.

  lemma MeterNotMm(t: string)
    requires t == "mm"
    ensures !Names(Meter, t)
  {
    NotNamedOne(Meter, "m", t);
  }

  lemma MileNotMm(t: string)
    requires t == "mm"
    ensures !Names(Mile, t)
  {
    NotNamedOne(Mile, "mi", t);
  }

  lemma InchNotMm(t: string)
    requires t == "mm"
    ensures !Names(Inch, t)
  {
    NotNamedOne(Inch, "in", t);
  }

  lemma FootNotMm(t: string)
    requires t == "mm"
    ensures !Names(Foot, t)
  {
    NotNamedTwo(Foot, "ft", "feet", t);
  }

  lemma YardNotMm(t: string)
    requires t == "mm"
    ensures !Names(Yard, t)
  {
    NotNamedOne(Yard, "yd", t);
  }

  lemma GramNotMm(t: string)
    requires t == "mm"
    ensures !Names(Gram, t)
  {
    NotNamedOne(Gram, "g", t);
  }

  lemma TonneNotMm(t: string)
    requires t == "mm"
    ensures !Names(Tonne, t)
  {
    NotNamedOne(Tonne, "t", t);
  }

  lemma PoundNotMm(t: string)
    requires t == "mm"
    ensures !Names(Pound, t)
  {
    NotNamedTwo(Pound, "lb", "lbs", t);
  }

  lemma CelsiusNotMm(t: string)
    requires t == "mm"
    ensures !Names(Celsius, t)
  {
    NotNamedOne(Celsius, "c", t);
  }

  lemma FahrenheitNotMm(t: string)
    requires t == "mm"
    ensures !Names(Fahrenheit, t)
  {
    NotNamedOne(Fahrenheit, "f", t);
  }

  /** No unit of the table is called "mm". */
  lemma NoUnitMm(t: string)
    requires t == "mm"
    ensures UnitIndex(Units, t) == -1
  {
    MeterNotMm(t);
    MileNotMm(t);
    InchNotMm(t);
    FootNotMm(t);
    YardNotMm(t);
    GramNotMm(t);
    TonneNotMm(t);
    PoundNotMm(t);
    CelsiusNotMm(t);
    FahrenheitNotMm(t);
    NoneOfTen(t, Meter, Mile, Inch, Foot, Yard, Gram, Tonne, Pound, Celsius, Fahrenheit);
  }

  /** An alias list with two entries. */
  lemma TwoAliases(packed: string, a: string, b: string)
    requires packed == a + ['\0'] + b + ['\0', '\0'] && a != [] && b != [] && '\0' !in a && '\0' !in b
    ensures AliasesFrom(packed, 0) == [a, b]
  {
    var j := |a| + 1;
    assert packed[0..|a|] == a;
    assert packed[j..j + |b|] == b;
    AliasAt(packed, 0, a);
    AliasAt(packed, j, b);
    assert StrLenAt(packed, j + |b| + 1) == 0;
  }

  /** "m" is the alias of the meter, the first unit. */
  lemma MeterM(t: string)
    requires t == "m"
    ensures UnitIndex(Units, t) == 0 && Units[0] == Meter && Meter.metric
  {
    OneAlias(Meter.alias, "m");
  }

  /** Neither the name nor the symbol of `p` starts `s`. */
  predicate Misses(s: string, p: MetricPrefix) {
    !StartsWith(s, p.name) && !StartsWith(s, p.symbol)
  }

  /** Stripping passes over prefixes that miss. */
  lemma {:induction false} SkipPrefixes(prefixes: seq<MetricPrefix>, s: string, i: nat, j: nat)
    requires i <= j <= |prefixes| && forall k :: i <= k < j ==> Misses(s, prefixes[k])
    ensures StripFrom(prefixes, s, i) == StripFrom(prefixes, s, j)
    decreases j - i
  {
    if i < j {
      SkipPrefixes(prefixes, s, i + 1, j);
    }
  }

  /** After eight prefixes that miss, a ninth whose symbol (not name) starts `s` is stripped. */
  lemma StripNinth(s: string, a: MetricPrefix, b: MetricPrefix, c: MetricPrefix, d: MetricPrefix,
                   e: MetricPrefix, f: MetricPrefix, g: MetricPrefix, h: MetricPrefix, m: MetricPrefix,
                   rest: seq<MetricPrefix>)
    requires Misses(s, a) && Misses(s, b) && Misses(s, c) && Misses(s, d)
    requires Misses(s, e) && Misses(s, f) && Misses(s, g) && Misses(s, h)
    requires StartsWith(s, m.symbol) && !StartsWith(s, m.name)
    ensures StripFrom([a, b, c, d, e, f, g, h] + [m] + rest, s, 0) == Stripped(|m.symbol|, m)
  {
    var prefixes := [a, b, c, d, e, f, g, h] + [m] + rest;
    assert forall k :: 0 <= k < 8 ==> prefixes[k] in {a, b, c, d, e, f, g, h};
    SkipPrefixes(prefixes, s, 0, 8);
  }

  /** Stripping "mm": no prefix before milli matches, and milli's symbol does. */
  lemma StripMm(t: string)
    requires t == "mm"
    ensures StripFrom(Prefixes, t, 0) == Stripped(1, Milli)
  {
    assert t[..1] == "m" && t[..2] == "mm";
    assert Misses(t, Tera) && Misses(t, Giga) && Misses(t, Mega) && Misses(t, Kilo);
    assert Misses(t, Hecto) && Misses(t, Deca) && Misses(t, Deci) && Misses(t, Centi);
    assert StartsWith(t, Milli.symbol) && !StartsWith(t, Milli.name);
    StripNinth(t, Tera, Giga, Mega, Kilo, Hecto, Deca, Deci, Centi, Milli, [Micro, Nano, Pico]);
    assert Prefixes == [Tera, Giga, Mega, Kilo, Hecto, Deca, Deci, Centi] + [Milli] + [Micro, Nano, Pico];
  }

  /** Stripping "Mm": tera and giga do not match, and mega's symbol does. */
  lemma StripUpperMm(s: string)
    requires s == "Mm"
    ensures StripFrom(Prefixes, s, 0) == Stripped(1, Mega)
  {
    assert s[..1] == "M";
    assert StripFrom(Prefixes, s, 0) == StripFrom(Prefixes, s, 2);
  }

  /** As written, "Mm" (megameter) resolves to the millimeter. */
  lemma MegameterAsWritten(s: string)
    requires s == "Mm"
    ensures ResolveAsWritten(Units, Prefixes, s) == Found(Meter, Milli)
  {
    LowerMm(s);
    NoUnitMm("mm");
    StripMm("mm");
    LowerSuffix("mm", 1);
    assert Lower("mm")[1..] == "m";
    MeterM("m");
  }

  /** With the prefix stripped before lower-casing, "Mm" resolves to the megameter. */
  lemma MegameterFixed(s: string)
    requires s == "Mm"
    ensures ResolveFixed(Units, Prefixes, s) == Found(Meter, Mega)
  {
    LowerMm(s);
    NoUnitMm("mm");
    StripUpperMm(s);
    LowerSuffix("mm", 1);
    assert Lower("mm")[1..] == "m";
    MeterM("m");
  }

  /**
   * As written, "1 Mm => m" is reported as a conversion from millimeters, a
   * factor of 10^-3; the corrected report gives megameters, 10^6.
   */
  lemma MegameterReport(a: string, b: string)
    requires a == "Mm" && b == "m"
    ensures Report(Units, Prefixes, "1", a, b) == Converted("1", Found(Meter, Milli), Found(Meter, DummyPrefix), -3)
    ensures ReportFixed(Units, Prefixes, "1", a, b) == Converted("1", Found(Meter, Mega), Found(Meter, DummyPrefix), 6)
  {
    MegameterAsWritten(a);
    MegameterFixed(a);
    MeterResolves(b);
    var from, to := ResolveAsWritten(Units, Prefixes, a), ResolveAsWritten(Units, Prefixes, b);
    assert Report(Units, Prefixes, "1", a, b) == Decide("1", a, b, from, to);
    var fromFixed, toFixed := ResolveFixed(Units, Prefixes, a), ResolveFixed(Units, Prefixes, b);
    assert ReportFixed(Units, Prefixes, "1", a, b) == Decide("1", a, b, fromFixed, toFixed);
  }

  /** "m" is the unprefixed meter under both lookups. */
  lemma MeterResolves(b: string)
    requires b == "m"
    ensures ResolveAsWritten(Units, Prefixes, b) == Found(Meter, DummyPrefix)
    ensures ResolveFixed(Units, Prefixes, b) == Found(Meter, DummyPrefix)
  {
    assert Lower(b) == b by { assert AsciiLower(b[0]) == 'm'; }
    MeterM(b);
  }
}
