# A verified model of the small programs of `misc`

`misc` is a collection of small, independent programs, mostly in Rust, with
a few in C and Python. This project models the deterministic core of each
one in Dafny and proves what that code promises. Each module follows one
source file. Code that updates state step by step (parsers with a cursor,
buffers, state machines, loops that build collections) is written as
classes and methods with loop invariants. Each such method is proved
against a specification function. Code that only computes is written as
functions, with lemmas about them.

- **Unit converter front end** (`unit_convert`), in four modules:
  - `DimensionalAnalysis`: the tokenizer that expands `u^n`, and the shunting-yard pass into reverse Polish order;
  - `Prefix`: metric prefixes, with the table of the 24 SI prefixes;
  - `Dimension`: dimension maps and their equality;
  - `Input` and `Misc`: splitting a request `<number><unit> => <unit>`, and superscript rendering.

  The unit registry the converter looks names up in is `Units`.
- **The older C converter** (`CConverter`, over `CStrings`): case-insensitive lookup of units and aliases, prefix stripping, and the read-evaluate loop over one line.
- **Badge inventory** (`BadgeMisc`, `BadgeProcess`, `BadgeReport`, `OtherBadgeReport`):
  - whitespace collapsing, bigram (Sørensen–Dice) similarity and best match;
  - the revision-year merge and the up-to-date check;
  - the two versions of the inventory report.
- **CodingBat exporter** (`CodingBatCase`, `CodingBatTypes`): the test-case parser as a cursor class, proved against step functions. It comes with a round trip: printing a case and parsing it back gives the case.
- **Flash cards** (`Study`): card parsing, the loading of sections, and the answer state machine.
- **Markov text generator** (`TextGen`): the tokenizer and the successor-chain construction.
- **PDF splitter** (`PdfObject`, `PdfSplit`, `PdfMain`):
  - outline flattening and section/job planning;
  - the chapter splitter and its file names;
  - the two object cloners, one with a cache and one without, over an acyclic object table;
  - page, Pages, catalog and Info dictionary building.
- **Small pieces**:
  - `DadBot`: the trigger test;
  - `WatchHistory`: a watch entry's identity;
  - `PathNormalizer`: the web server's path normaliser;
  - `BoatInfo`: the registry row mapping;
  - `Video`: the RGB frame buffer;
  - `CVector`: the C growable vector;
  - `Guessing`: the guessing game and its bisection solver;
  - `SoonSafety`: the set-once, same-thread checks behind `Soon`;
  - `DistantLocations`: the line filter and the distance report;
  - `EzHash`: the text side of the hash-table script.

`Wrappers` (Option and Result), `Strings` (Rust and C character classes,
trimming, searching, lines, sorting, `dedup`) and `Numbers` (integer and
decimal parsing) are shared by the modules.

A panic, a failed `assert`, an `unwrap` of nothing and a Python exception
are all modelled as an error result (`None`, `Panic`, or a `false` flag),
never as a precondition. There is one exception: `BadgeReport.IsOutdated`
requires an existing badge, because the source marks the other case
`unreachable!()` and its only caller never reaches it. Otherwise,
preconditions appear only where the code relies on something it does not
check. One example: an acyclic reference graph for the object cloners,
which otherwise never terminate.

## Model

| member | source | states |
|---|---|---|
| DimensionalAnalysis.IntoToken | unit_convert/src/dimensional_analysis.rs:49-57 | converting an operator fails exactly for `Nop` (the panic); `Mul` and `Div` become their tokens |
| DimensionalAnalysis.IntoTokenRoundTrip | unit_convert/src/dimensional_analysis.rs:49-57 | `Into<Token>` and reading the operator back off the token are inverse on `Mul` and `Div` |
| DimensionalAnalysis.Flushed | unit_convert/src/dimensional_analysis.rs:263-270 | flushing appends nothing exactly when the buffer is empty |
| DimensionalAnalysis.RunFromMaximal | unit_convert/src/dimensional_analysis.rs:242-256 | the exponent text is the maximal run of ASCII digits and '-' at the index, and the character after it (if any) is neither |
| DimensionalAnalysis.ExpandShape | unit_convert/src/dimensional_analysis.rs:225-230 | the group of `u^n` holds `2n-1` tokens (one when `n <= 1`): copies of `u` at even positions, `Mul` at odd ones |
| DimensionalAnalysis.Caret | unit_convert/src/dimensional_analysis.rs:220-232 | a '^' that does not panic consumes at least one character and stays within the input |
| DimensionalAnalysis.Tokens | unit_convert/src/dimensional_analysis.rs:203-240 | the tokens of a whole input, or the panic; its properties are the lemmas below |
| DimensionalAnalysis.Tokenizer.constructor | unit_convert/src/dimensional_analysis.rs:203-211 | a new tokenizer holds the characters of the input at index 0 with no tokens and an empty buffer |
| DimensionalAnalysis.Tokenizer.FlushBuffer | unit_convert/src/dimensional_analysis.rs:263-270 | the tokens gain `Flushed(buffer)` (one unit with the buffer's text, or nothing) and the buffer is empty afterwards; nothing else changes |
| DimensionalAnalysis.Tokenizer.AddToken | unit_convert/src/dimensional_analysis.rs:258-261 | the pending identifier is flushed before the operator, so the unit comes first and the buffer is empty |
| DimensionalAnalysis.Tokenizer.TakeInt | unit_convert/src/dimensional_analysis.rs:242-256 | the index advances past exactly the maximal digit/'-' run, and the result is that run parsed as an `i8` (`None` is the `unwrap` panic) |
| DimensionalAnalysis.Tokenizer.Power | unit_convert/src/dimensional_analysis.rs:220-232 | the '^' branch succeeds exactly when `Caret` does and then leaves the index and tokens `Caret` computes with an empty buffer |
| DimensionalAnalysis.Tokenizer.Tokenize | unit_convert/src/dimensional_analysis.rs:213-240 | the loop succeeds exactly when the reference scan `Scan` does, produces its tokens, and ends with an empty buffer at the end of the input |
| DimensionalAnalysis.ExpandGroup | unit_convert/src/dimensional_analysis.rs:225-230 | the `for _ in 1..exp` loop builds exactly `Expand(rep, exp)` |
| DimensionalAnalysis.UnitTextAppend | unit_convert/src/dimensional_analysis.rs:34 | the unit text of a concatenation is the concatenation of the unit texts |
| DimensionalAnalysis.OperatorsAppend | unit_convert/src/dimensional_analysis.rs:35-36 | the operators of a concatenation are the concatenation of the operators |
| DimensionalAnalysis.FlushFacts | unit_convert/src/dimensional_analysis.rs:263-270 | flushing adds the buffer to the unit text and no operator, and keeps a flat list flat |
| DimensionalAnalysis.ScanWithoutCaret | unit_convert/src/dimensional_analysis.rs:213-240 | without '^' the scan never panics and is the plain split at '/' and '*' |
| DimensionalAnalysis.AppendOperator | unit_convert/src/dimensional_analysis.rs:218-219 | an operator token adds itself to the operators and nothing to the unit text |
| DimensionalAnalysis.LexFlat | unit_convert/src/dimensional_analysis.rs:213-240 | the split yields only units with non-empty text, `Div` and `Mul` |
| DimensionalAnalysis.LexOperators | unit_convert/src/dimensional_analysis.rs:218-219 | the operators produced are the input's '/' and '*' characters, in order |
| DimensionalAnalysis.LexUnitText | unit_convert/src/dimensional_analysis.rs:233-239 | the unit texts, concatenated, are the input with '/' and '*' removed |
| DimensionalAnalysis.TokensWithoutCaret | unit_convert/src/dimensional_analysis.rs:213-240 | for a whole input without '^': tokenizing succeeds, the list is flat, the units concatenate to the input minus '/' and '*', and the operators are its '/' and '*' in order |
| DimensionalAnalysis.CaretFirstPanics | unit_convert/src/dimensional_analysis.rs:223 | a '^' with no token before it panics |
| DimensionalAnalysis.SquaredExample | unit_convert/src/dimensional_analysis.rs:213-240 | "m/s^2" tokenizes to `m`, `Div`, and the group `s Mul s` (also lines 277-282) |
| DimensionalAnalysis.Unwind | unit_convert/src/dimensional_analysis.rs:141-148 | popping for an incoming operator never leaves `Nop` on the stack |
| DimensionalAnalysis.UnwindAll | unit_convert/src/dimensional_analysis.rs:60-66 | since `Mul` and `Div` share precedence 2, an incoming operator pops the whole stack in pop order (also lines 141-149) |
| DimensionalAnalysis.Treeifier.constructor | unit_convert/src/dimensional_analysis.rs:83-90 | a new treeifier is at index 0 with empty output and stack |
| DimensionalAnalysis.Treeifier.HandleOp | unit_convert/src/dimensional_analysis.rs:135-150 | the operators that bind at least as tightly are moved to the output in pop order, then the operator is pushed; index and tokens are unchanged |
| DimensionalAnalysis.Treeifier.Rpn | unit_convert/src/dimensional_analysis.rs:92-109 | the loop succeeds exactly when the reference `Shunt` does (no group or tree met), produces its output and leaves the stack empty with every token consumed |
| DimensionalAnalysis.ShuntUnit | unit_convert/src/dimensional_analysis.rs:100 | a unit goes straight to the output |
| DimensionalAnalysis.ShuntOperator | unit_convert/src/dimensional_analysis.rs:98-99 | an operator first sends every stacked operator to the output, then is stacked alone (also lines 135-150) |
| DimensionalAnalysis.ShuntPermutes | unit_convert/src/dimensional_analysis.rs:92-109 | on flat tokens shunting succeeds and its output is, as a multiset, what was output plus the stack plus the remaining tokens |
| DimensionalAnalysis.RpnPermutes | unit_convert/src/dimensional_analysis.rs:92-109 | `rpn` of a flat list succeeds and outputs every token exactly once (same multiset, same length) |
| DimensionalAnalysis.ShuntInfix | unit_convert/src/dimensional_analysis.rs:92-109 | an infix chain `u0 op1 u1 op2 u2 ...` is shunted to `u0 u1 op1 u2 op2 ...` (also lines 135-150) |
| DimensionalAnalysis.RpnLeftAssociative | unit_convert/src/dimensional_analysis.rs:92-109 | '/' and '*' are left-associative: `rpn` of any infix chain is its left-to-right postfix form (also lines 135-150) |
| DimensionalAnalysis.MeterPerSecondSquared | unit_convert/src/dimensional_analysis.rs:164-187 | the source's test: `m / s / s` becomes `m s / s /` |
| Units.FindUnitSpec | unit_convert/src/prefix.rs:61 | the registry lookup finds nothing exactly when no unit has that name or alias, and otherwise finds the first unit that does (also lines 66) |
| Units.FindUnitFirst | unit_convert/src/prefix.rs:61 | whenever entry `k` is the first unit named by the text, the lookup returns it (also lines 66) |
| Prefix.PowersDecrease | unit_convert/src/prefix.rs:4-29 | the table has 24 entries ordered by strictly decreasing power (quetta 30 down to quecto -30) |
| Prefix.StripInSpec | unit_convert/src/prefix.rs:48-58 | stripping fails exactly when the text starts with no prefix name or symbol; otherwise it returns the first matching entry (name tried before symbol) and the text after that spelling, so the text is the spelling followed by the rest |
| Prefix.StripInFirst | unit_convert/src/prefix.rs:48-58 | when entry `k` is the first match, stripping removes exactly its spelling and returns it |
| Prefix.GetSound | unit_convert/src/prefix.rs:60-72 | a direct hit is returned with no prefix (stripping is not tried); any other result is a metric unit named by what follows the first matching prefix; `None` only when no unit is named directly |
| Prefix.GetComplete | unit_convert/src/prefix.rs:65-71 | conversely, a metric unit named after the first matching prefix is returned with that prefix |
| Prefix.GetFirstPrefixOnly | unit_convert/src/prefix.rs:65-69 | when the first matching prefix leaves no metric unit, `get` fails: later prefixes are never tried |
| Prefix.NothingBeforeKilo | unit_convert/src/prefix.rs:5-14 | no entry before kilo is spelled with an initial 'k' |
| Prefix.NothingBeforeDeca | unit_convert/src/prefix.rs:5-16 | no entry before deca is spelled with an initial 'd' |
| Prefix.NoLengthUnitInitial | unit_convert/src/prefix.rs:61 | no length unit of the example registry is named with an initial 'k' or 'd' |
| Prefix.KilometerExample | unit_convert/src/prefix.rs:78-82 | the source's test: "kilometer" is meter with prefix kilo |
| Prefix.KmExample | unit_convert/src/prefix.rs:84-86 | the source's test: "km" is meter with prefix kilo |
| Prefix.DecameterExample | unit_convert/src/prefix.rs:16-17 | "dam" matches deca ("da", entry 11) before deci ("d", entry 12) and is a decameter (also lines 48-58) |
| Prefix.NonMetricRejected | unit_convert/src/prefix.rs:67-69 | a prefix on a non-metric unit is refused: "kilomile" does not resolve |
| Dimension.GetSpace | unit_convert/src/dimension.rs:16-21 | the lookup fails exactly when no dimension has that space; otherwise it is the exponent of the first one that does |
| Dimension.Equal | unit_convert/src/dimension.rs:24-45 | the loop decides exactly `Equivalent` (every dimension of `self` has its exponent in `other` and the lengths match), so it is false on a missing space, a different exponent or a length mismatch, and the `units` field plays no part |
| Dimension.GetSpaceMember | unit_convert/src/dimension.rs:4 | in a list with no space twice, looking up a member's space finds its exponent (also lines 16-21) |
| Dimension.GetSpaceFound | unit_convert/src/dimension.rs:16-21 | a lookup that succeeds names a member of the list |
| Dimension.MembersCount | unit_convert/src/dimension.rs:4 | a list with no space twice has as many distinct members as elements |
| Dimension.EquivalentReflexive | unit_convert/src/dimension.rs:4 | under the documented invariant, equality is reflexive (also lines 24-45) |
| Dimension.EquivalentSymmetric | unit_convert/src/dimension.rs:4 | under the documented invariant, equality is symmetric (also lines 24-45) |
| Dimension.EquivalentTransitive | unit_convert/src/dimension.rs:4 | under the documented invariant, equality is transitive (also lines 24-45) |
| Dimension.OrderIndependent | unit_convert/src/dimension.rs:4 | listing the same dimensions in another order gives an equal map (also lines 24-45) |
| Dimension.AccelerationExample | unit_convert/src/dimension.rs:24-45 | {Length 1, Time -2} equals {Time -2, Length 1} and differs from {Length 1, Time -1} |
| Input.NumberText | unit_convert/src/input.rs:34-37 | the number text is the maximal leading run of '0'-'9', '.' and '-' |
| Input.ParseNumber | unit_convert/src/input.rs:39 | parsing the number text succeeds exactly when it is a float literal, with its value; otherwise the error is the empty-literal message for an empty run and the invalid-literal message for anything else |
| Input.NumberTextEnds | unit_convert/src/input.rs:34-37 | any maximal leading run of number characters is the number text |
| Input.PullNumber | unit_convert/src/input.rs:31-43 | the peek-and-push loop returns exactly `Pulled(raw)`: the parsed value and the characters after the run, or the parse error |
| Input.FromStr | unit_convert/src/input.rs:19-28 | the method returns exactly `Parsed(inp)` |
| Input.PulledSplits | unit_convert/src/input.rs:31-43 | pulling succeeds exactly when the run parses; then the run followed by the rest is the input unchanged and the value is the parsed run |
| Input.PulledNoNumber | unit_convert/src/input.rs:35 | with no leading number character the run is empty and the empty-literal error is returned (also lines 39) |
| Input.MissingSeparator | unit_convert/src/input.rs:20 | a line without "=>" fails with "No => separator found." |
| Input.ParsedSplitsAtFirstArrow | unit_convert/src/input.rs:20-27 | a parsed line was split at the first "=>": the target unit is the trimmed text after it, and the number text followed by the source unit is the trimmed text before it |
| Input.ParsedParts | unit_convert/src/input.rs:20-27 | once split, a pull error is the line's error, and a pulled value and rest become value, `from_unit` (untrimmed) and the trimmed `to_unit` |
| Input.UnitFirstRejected | unit_convert/src/input.rs:21 | "m => ft" fails with the empty-literal error (also lines 39) |
| Input.SpeedExample | unit_convert/src/input.rs:20-27 | "10 m/s => mi/h" gives 10, " m/s" (the space after the number kept) and "mi/h" |
| Misc.MapChar | unit_convert/src/misc.rs:28-41 | a character of the decimal rendering panics exactly when it is not a digit, '.' or '-' |
| Misc.MapAll | unit_convert/src/misc.rs:24-42 | the rendering panics exactly when some character does; otherwise it has one character per character of the decimal text, each the mapped character at the same position |
| Misc.ToStringWithChars | unit_convert/src/misc.rs:13-20 | NaN renders as "NaN" and both infinities as "inf" |
| Misc.UnmapMapChar | unit_convert/src/misc.rs:30-38 | with distinct characters in the set, a mapped character is read back as the original: '.' is position 10, '-' position 11, digit d position d |
| Misc.RenderingReversible | unit_convert/src/misc.rs:24-42 | with distinct characters in the set, the whole rendering can be read back to the decimal text, so nothing is lost or reordered |
| Misc.SuperscriptDistinct | unit_convert/src/misc.rs:5-6 | the superscript set has twelve distinct characters |
| Misc.SuperscriptExample | unit_convert/src/misc.rs:5-6 | with the superscript set "-2.5" renders as ⁻, ², a space for '.', and ⁵ (also lines 24-42) |
| Misc.OtherCharacterPanics | unit_convert/src/misc.rs:35-40 | any other character in the decimal rendering (an exponent 'e', say) panics |
| Numbers.DigitsValue | unit_convert/src/dimensional_analysis.rs:255 | the value of `n` decimal digits is below 10^n |
| Numbers.ParseInt | unit_convert/src/dimensional_analysis.rs:255 | an integer never parses from the empty text or a lone sign |
| Numbers.ParseI8 | unit_convert/src/dimensional_analysis.rs:255 | parsing as `i8` succeeds exactly when the text is an integer in -128..=127, with that value |
| Numbers.ParseFloat | unit_convert/src/input.rs:39 | a float never parses from the empty text, a lone '-', a lone '.' or "-." |
| Numbers.ParseFloatAlphabet | unit_convert/src/input.rs:35-39 | a float never parses from text holding a character other than a digit, a sign or '.' |
| Numbers.ParseIntegerText | unit_convert/src/input.rs:39 | "10" parses to 10 |
| Numbers.ParseSignedDecimal | unit_convert/src/input.rs:39 | "-2.5" parses to -2.5 |
| Numbers.ParseSecondDot | unit_convert/src/input.rs:39 | "1.2.3" does not parse |
| Numbers.ParseI8Range | unit_convert/src/dimensional_analysis.rs:255 | "-3" parses as `i8` to -3; "200" (out of range) and "" do not parse |
| Numbers.DigitsOfNat | coding_bat_exporter/src/case.rs:59-69 | the digits of a natural number's text read back to the number |
| Numbers.ParseFloatIntText | coding_bat_exporter/src/case.rs:59-69 | the text of an integer parses as a float to that integer |
| CStrings.Len | scripts/learning_c/unit_convert.c:88 | `strlen`: the position of the first NUL, with no NUL before it |
| CStrings.LenAt | scripts/learning_c/unit_convert.c:88 | a NUL with none before it is where the string ends |
| CStrings.ScanWhile | scripts/learning_c/unit_convert.c:86-87 | where a `while (p(s[i])) i++;` loop stops: every character passed is in the class, and the one it stops at is not (also lines 93-94, 99-104, 115-116) |
| CStrings.ScanStops | scripts/learning_c/unit_convert.c:86-87 | a loop that stopped at `j` after a run of the class stopped where the scan says (also lines 93-94) |
| CStrings.Scan | scripts/learning_c/unit_convert.c:93-94 | the same scan over a text followed by its NUL (also lines 115-116) |
| CStrings.ScanText | scripts/learning_c/unit_convert.c:93-94 | a scan over a class that excludes the NUL stops in the buffer where it stops in the buffer's text (also lines 115-116) |
| CStrings.TextNul | scripts/learning_c/unit_convert.c:121 | a text followed by a NUL is a C string whose text is that text |
| CStrings.StrNEqualPrefix | scripts/learning_c/unit_convert.c:79-81 | `strncmp` over the prefix's own length is zero exactly when it is a prefix |
| CStrings.StartsWith | scripts/learning_c/unit_convert.c:79-81 | `starts_with(s, p)` holds exactly when `p` is a prefix of `s` |
| CStrings.TrimFront | scripts/learning_c/unit_convert.c:84-89 | the buffer's text becomes its old text from the first non-space character on; the moved characters (NUL included) are exactly those after the leading white space and the rest of the buffer is untouched |
| CStrings.MovedText | scripts/learning_c/unit_convert.c:88 | moving a string's characters from `i` on, NUL included, to the front drops its first `i` characters |
| CStrings.MoveDown | scripts/learning_c/unit_convert.c:88 | `memmove` to the front: the first `count` cells take the moved characters and the cells after them keep theirs |
| CStrings.SkipWhitespace | scripts/learning_c/unit_convert.c:92-95 | the index ends at the first non-white-space position at or after its start, inside the string |
| CStrings.ReadFloat | scripts/learning_c/unit_convert.c:98-107 | the number starts at the first digit (or NUL) at or after the index and ends after the run of digits and '.' that follows |
| CStrings.ReadStr | scripts/learning_c/unit_convert.c:111-124 | after skipping white space, the result is a fresh NUL-terminated copy of the run up to a NUL, '=' or white space, and the index stops at that terminator |
| CStrings.CopyWord | scripts/learning_c/unit_convert.c:119-121 | `malloc` + `strncpy` + NUL: a fresh buffer holding the word and a NUL |
| CStrings.WordText | scripts/learning_c/unit_convert.c:119-121 | the text of the copy is the whole word |
| CConverter.DimensionName | scripts/learning_c/unit_convert.c:201-213 | every dimension has a non-empty printed name |
| CConverter.DimensionNamesDiffer | scripts/learning_c/unit_convert.c:201-213 | different dimensions print differently |
| CConverter.StrLenAt | scripts/learning_c/unit_convert.c:138 | `strlen(alias + j)` counts the characters up to the next NUL |
| CConverter.MatchesAlias | scripts/learning_c/unit_convert.c:137-146 | the alias walk finds the name exactly when it is one of the packed aliases before the empty entry |
| CConverter.UnitIndexFrom | scripts/learning_c/unit_convert.c:131-149 | the result is -1 exactly when no unit from `i` on has the text as name or alias; otherwise it is the first such unit |
| CConverter.Lookup | scripts/learning_c/unit_convert.c:131-149 | the table loop returns the index of the first unit named by the text, or -1 |
| CConverter.FindUnit | scripts/learning_c/unit_convert.c:127-150 | `find_unit` lower-cases the C string in place (same length, bytes after the NUL untouched) and returns the first unit the lower-cased text names, or -1 |
| CConverter.LoweredText | scripts/learning_c/unit_convert.c:128-129 | after the lower-casing loop the string's text is the lower-cased text and its length is unchanged |
| CConverter.StripFrom | scripts/learning_c/unit_convert.c:152-176 | stripping returns a table prefix whose name or symbol starts the name, with the offset after that spelling, or the dummy prefix with offset 0 |
| CConverter.StripFirst | scripts/learning_c/unit_convert.c:155-171 | stripping tries the table in order: the prefix found comes no later than any prefix that starts the name |
| CConverter.StripPrefix | scripts/learning_c/unit_convert.c:152-176 | the loop (name before symbol, table order) returns exactly `StripFrom` |
| CConverter.LowerSuffix | scripts/learning_c/unit_convert.c:128-129 | lower-casing a suffix of a lower-cased text changes nothing (also lines 189-190) |
| CConverter.LowerSlice | scripts/learning_c/unit_convert.c:128-129 | lower-casing commutes with taking a suffix (also lines 189-190) |
| CConverter.FindPrefixedUnit | scripts/learning_c/unit_convert.c:178-199 | as written: the buffer is lower-cased and the result is `ResolveAsWritten`, which strips the prefix from the lower-cased text |
| CConverter.FindPrefixedUnitFixed | scripts/learning_c/unit_convert.c:178-199 | corrected: the same, with the prefix stripped from the name as typed (`ResolveFixed`) |
| CConverter.ResolvedPrefix | scripts/learning_c/unit_convert.c:178-199 | a resolved unit is in the table, and it carries a table prefix only if it is metric; otherwise the prefix is the dummy one |
| CConverter.DirectMatchFirst | scripts/learning_c/unit_convert.c:181-187 | a name some unit answers to is returned with the dummy prefix and never split, by both lookups |
| CConverter.UppercaseSymbolsUnreachable | scripts/learning_c/unit_convert.c:65-66 | as written, a prefix with an upper-case symbol (T, G, M) is only ever found by its full name (also lines 128-129, 189) |
| CConverter.UppercaseSymbols | scripts/learning_c/unit_convert.c:65-66 | tera, giga and mega are the table's upper-case symbols |
| CConverter.FirstLine | scripts/learning_c/unit_convert.c:244 | the text up to the first newline, which it does not contain |
| CConverter.TrimmedFront | scripts/learning_c/unit_convert.c:84-89 | the text with its leading white space removed, starting at a non-space character (also lines 245) |
| CConverter.Word | scripts/learning_c/unit_convert.c:111-124 | the word after the white space at the index: word characters only, ended by a non-word character or the end |
| CConverter.Head | scripts/learning_c/unit_convert.c:250-254 | the index where the separator is looked for stays within the line |
| CConverter.CutNewline | scripts/learning_c/unit_convert.c:244 | the string is cut at its first newline |
| CConverter.PrepareLine | scripts/learning_c/unit_convert.c:244-245 | the newline cut and `trim_front` leave the trimmed first line |
| CConverter.ReadWord | scripts/learning_c/unit_convert.c:111-124 | `read_str` returns a fresh copy of `Word` of the line and the index after it |
| CConverter.ReadHead | scripts/learning_c/unit_convert.c:250-254 | `read_float`, `read_str` and `skip_whitespace` give the number text, a fresh start word and the separator position of `Head` |
| CConverter.ReadPieces | scripts/learning_c/unit_convert.c:250-263 | the pieces succeed exactly when "=>" follows the start word, and then the end word is a fresh copy of the word after it |
| CConverter.BufferWord | scripts/learning_c/unit_convert.c:119-121 | a word copied out of the buffer, NUL appended, has the same text |
| CConverter.Report | scripts/learning_c/unit_convert.c:265-289 | `main`'s report on two words never quits or rejects the line; the start word is unknown exactly when the as-written lookup fails on it, and a conversion carries both as-written resolutions |
| CConverter.ReportFixed | scripts/learning_c/unit_convert.c:178-199 | corrected: the same report over the corrected lookup, whose conversion carries the corrected resolutions |
| CConverter.Evaluate | scripts/learning_c/unit_convert.c:243-263 | a line stops the loop exactly when, cut at its newline and trimmed at the front, it reads "quit"; a report needs a "=>" in that text |
| CConverter.ReportOn | scripts/learning_c/unit_convert.c:265-289 | resolving both words with `find_prefixed_unit` as written (the buffer lower-cased before the prefix is stripped) and reporting gives exactly `Report` on the words as typed |
| CConverter.ProcessLine | scripts/learning_c/unit_convert.c:240-292 | one loop iteration gives exactly `Evaluate` of the line read, whose reports resolve both words with the as-written lookup |
| CConverter.PrefixPowers | scripts/learning_c/unit_convert.c:64-71 | every table prefix stands for a power of ten from -12 to 12 |
| CConverter.ReportSound | scripts/learning_c/unit_convert.c:265-280 | over the as-written lookup: a conversion carries the number text and two resolved table units of the same dimension, with power = start power − end power (within ±24); a mismatch happens exactly when both resolve to different dimensions; the start unit is reported unknown exactly when it does not resolve, the end unit exactly when only it does not, each lower-cased |
| CConverter.ReportFixedAgrees | scripts/learning_c/unit_convert.c:129 | words typed in lower case get the same report from the as-written and the corrected lookup |
| CConverter.PiecesNeedArrow | scripts/learning_c/unit_convert.c:254-259 | pieces are found only when "=>" occurs in the line |
| CConverter.NoArrowNoConversion | scripts/learning_c/unit_convert.c:247-259 | a line that is not "quit" and holds no "=>" is rejected for its missing separator |
| CConverter.WordsAreWords | scripts/learning_c/unit_convert.c:115-116 | the start and end words hold no white space, '=' or NUL |
| CConverter.AsWrittenIgnoresCase | scripts/learning_c/unit_convert.c:128-129 | as written, the case of a name makes no difference: it resolves as its lower-case form (also lines 181-191) |
| CConverter.FixedAgreesOnLowerCase | scripts/learning_c/unit_convert.c:178-199 | on a lower-case name the corrected lookup agrees with the original |
| CConverter.NoUnitMm | scripts/learning_c/unit_convert.c:49-62 | no unit of the table is named "mm" |
| CConverter.MeterM | scripts/learning_c/unit_convert.c:50 | "m" names the meter, the first unit, which is metric |
| CConverter.StripMm | scripts/learning_c/unit_convert.c:64-69 | stripping "mm" finds milli by its symbol, leaving "m" (also lines 152-176) |
| CConverter.StripUpperMm | scripts/learning_c/unit_convert.c:64-66 | stripping "Mm" finds mega by its symbol, leaving "m" (also lines 152-176) |
| CConverter.MegameterAsWritten | scripts/learning_c/unit_convert.c:178-199 | as written, "Mm" (megameter) resolves to meter with prefix milli |
| CConverter.MegameterFixed | scripts/learning_c/unit_convert.c:178-199 | with the prefix stripped before lower-casing, "Mm" resolves to meter with prefix mega |
| CConverter.MegameterReport | scripts/learning_c/unit_convert.c:265-284 | "1 Mm => m" is reported as written as a conversion from the millimeter (power −3), and as a conversion from the megameter (power 6) by the corrected report |
| BadgeMisc.RunLen | badge_inventory/src/misc.rs:4 | the length of the leading run of non-whitespace: everything before it is non-whitespace and it is ended by whitespace or the end |
| BadgeMisc.WordsAreWords | badge_inventory/src/misc.rs:4 | every piece `split_whitespace` yields is non-empty and free of whitespace |
| BadgeMisc.JoinShape | badge_inventory/src/misc.rs:4 | words joined with single spaces leave no leading, trailing or doubled whitespace |
| BadgeMisc.WordsAfterSpace | badge_inventory/src/misc.rs:4 | leading whitespace does not change the words |
| BadgeMisc.WordsJoin | badge_inventory/src/misc.rs:4 | splitting words joined by single spaces gives the same words back (the round trip) |
| BadgeMisc.CollapseWhitespaceSpec | badge_inventory/src/misc.rs:3-5 | `collapse_whitespace` keeps exactly the words of its input, in order, leaves no stray whitespace, and is empty exactly when the input has no words |
| BadgeMisc.CollapseIdempotent | badge_inventory/src/misc.rs:3-5 | collapsing twice is collapsing once |
| BadgeMisc.Bigrams | badge_inventory/src/misc.rs:33-37 | the bigrams of a string are its consecutive two-character slices, one per position but the last (also lines 39-41) |
| BadgeMisc.Score | badge_inventory/src/misc.rs:22-48 | the similarity is 1 when the names agree once spaces are removed, 0 when they differ and one is shorter than two characters, and always between 0 and 1 |
| BadgeMisc.SharedBound | badge_inventory/src/misc.rs:38-47 | twice the shared bigram count never exceeds the divisor, so the ratio is at most 1 |
| BadgeMisc.ScoreSymmetric | badge_inventory/src/misc.rs:22-48 | the similarity of two names does not depend on their order |
| BadgeMisc.CountBigrams | badge_inventory/src/misc.rs:32-37 | the counting map built by the first loop is the multiset of the first string's bigrams |
| BadgeMisc.MatchBigrams | badge_inventory/src/misc.rs:38-46 | the second loop, decrementing each matched count, counts the multiset intersection of the two strings' bigrams |
| BadgeMisc.Similarity | badge_inventory/src/misc.rs:22-48 | `similarity` computes exactly the Dice score `Score` |
| BadgeMisc.BestUnique | badge_inventory/src/misc.rs:7-20 | at most one candidate is the best match |
| BadgeMisc.Best | badge_inventory/src/misc.rs:7-20 | `best` returns nothing exactly when no candidate scores above 0, and otherwise the first candidate with the highest score |
| BadgeMisc.Pick | badge_inventory/src/misc.rs:50-56 | `t` returns its first value when the condition holds and its second otherwise |
| BadgeProcess.BestBadge | src/process.rs:128-141 | `best` over names returns nothing exactly when no name scores above 0, and otherwise the first name with the highest score |
| BadgeProcess.Squeeze | src/process.rs:148-149 | removing the skipped characters leaves no whitespace, ',' or ':' (also lines 152) |
| BadgeProcess.AnyEquals | src/process.rs:150-153 | true exactly when some squeezed badge equals the key |
| BadgeProcess.IsBadge | src/process.rs:147-154 | `is_badge` holds exactly when some squeezed badge equals the squeezed, lower-cased name |
| BadgeProcess.SqueezeLower | src/process.rs:148-149 | squeezing and lower-casing commute |
| BadgeProcess.IsBadgeIgnoresCase | src/process.rs:147-154 | whether a name is a badge does not depend on its case |
| BadgeProcess.UppercaseBadgeUnmatched | src/process.rs:149-153 | a badge that keeps an upper-case letter after squeezing matches no name, since only the name is lower-cased |
| BadgeProcess.Pairs | src/process.rs:43-49 | each badge of a revision paired with the revision's year, in order |
| BadgeProcess.Names | src/process.rs:44 | the names of the pairs, in order, as `all_badges.push` collects them |
| BadgeProcess.MaxMergeSpec | src/process.rs:45-48 | after the entry/and_modify/or_insert updates a name is a key exactly when some pair names it; its value is at least every year paired with it and is one of those years |
| BadgeProcess.EntriesSpec | src/process.rs:38-49 | a (name, year) pair is collected exactly when a revision of that year, from 2002 on, lists the name |
| BadgeProcess.LastUpdateSpec | src/process.rs:36-50 | a badge has a last-update year exactly when some revision from 2002 on lists it, and that year is the latest such revision's year |
| BadgeProcess.NamesHaveDates | src/process.rs:43-49 | every name pushed to `all_badges` has a last-update year |
| BadgeProcess.PairsStep | src/process.rs:43-49 | handling one more badge of a revision appends one pair |
| BadgeProcess.MergeStep | src/process.rs:43-49 | one more pair max-merges its year into the map and appends its name |
| BadgeProcess.MergeRevision | src/process.rs:43-49 | the inner loop over one revision's badges leaves the map and the name list exactly as merging that revision's pairs specifies |
| BadgeProcess.LoadRevisions | src/process.rs:36-50 | the revision loop (years from 2002 on) yields exactly the last-update map and the collected names |
| BadgeProcess.CandidatesHaveDates | src/process.rs:53-54 | every sorted, deduplicated candidate has a last-update year, so the `unwrap` cannot fail (also lines 64) |
| BadgeProcess.Judge | src/process.rs:64-70 | a book is up to date exactly when its year is at least the last update; an outdated verdict reports both years |
| BadgeProcess.CheckOne | src/process.rs:59-70 | a row is skipped exactly when no candidate scores above 0; otherwise it is judged against the best candidate's last update |
| BadgeProcess.Check | src/process.rs:36-71 | one decision per owned row, each against the sorted, deduplicated badges and their last-update years |
| BadgeReport.IsOutdated | badge_inventory/src/report.rs:150-155 | a still-offered badge is outdated for a book exactly when the book's year is before the badge's update year |
| BadgeReport.Classify | badge_inventory/src/report.rs:35-54 | a report keeps the badge's name and is Removed exactly for a discontinued badge, Outdated exactly when the book predates the update, Current otherwise |
| BadgeReport.ClassifyAll | badge_inventory/src/report.rs:29-55 | the loop fails (the `unwrap` panic) exactly when some book's lower-cased name matches no badge; otherwise one report per book, in order, classifying the best-matching badge |
| BadgeReport.FilterType | badge_inventory/src/report.rs:95-97 | the filtered reports are exactly those with the status |
| BadgeReport.FilterPartition | badge_inventory/src/report.rs:58-60 | the three filtered lists together hold every report exactly once |
| BadgeReport.FilterAppend | badge_inventory/src/report.rs:95-97 | filtering keeps the original order: it distributes over concatenation |
| BadgeReport.NamesOf | badge_inventory/src/report.rs:102-103 | the names of the reports, in order |
| BadgeReport.Distinct | badge_inventory/src/report.rs:103 | the keys of the counting map: the same names, each once (also lines 108) |
| BadgeReport.CountNames | badge_inventory/src/report.rs:100-105 | the entry/or_insert loop counts how many reports carry each name, with one key per distinct name |
| BadgeReport.BookList | badge_inventory/src/report.rs:99-123 | `book_list` writes exactly one "* name" line per distinct name, in sorted order, with " xN" only for a count above one |
| BadgeReport.BookListNames | badge_inventory/src/report.rs:108-111 | the listed names are sorted, distinct, exactly the reports' names, and each has a count of at least one |
| BadgeReport.NoRepeatPermutation | badge_inventory/src/report.rs:108-109 | sorting distinct keys keeps them distinct |
| BadgeReport.DistinctOnce | badge_inventory/src/report.rs:108-109 | a distinct key occurs once among the keys |
| BadgeReport.DedupIgnoreCase | badge_inventory/src/report.rs:61-62 | `dedup_by(eq_ignore_ascii_case)` never grows the list, keeps its first name and leaves no two neighbours equal ignoring case |
| BadgeReport.DedupOnlyAdjacent | badge_inventory/src/report.rs:61-62 | only neighbours merge: the same badge owned twice, apart, counts twice in the badge total (also lines 65) |
| BadgeReport.OwnedNames | badge_inventory/src/report.rs:61-62 | the owned books' names, in order |
| BadgeReport.Summarize | badge_inventory/src/report.rs:58-88 | the template values: the badge and book totals, the three book counts (which add up to the number of reports) and the three lists, each from its filtered reports |
| OtherBadgeReport.ClassifyData | Other/badge_inventory/src/report.rs:26-43 | a book as new as the badge's update is Current; an older one is Removed exactly when the badge is on the discontinued list and Outdated otherwise; the report keeps the badge's name |
| OtherBadgeReport.DiscontinuedCanBeCurrent | Other/badge_inventory/src/report.rs:26-38 | the date test comes first, so a discontinued badge still reports Current for a recent enough book |
| OtherBadgeReport.ClassifyOwned | Other/badge_inventory/src/report.rs:21-44 | the loop fails (the `unwrap` panic) exactly when some book's lower-cased name matches no badge; otherwise one report per book, in order, classifying the best-matching badge |
| OtherBadgeReport.OrderedBookList | Other/badge_inventory/src/report.rs:83-108 | `book_list` writes one line per distinct name, in the map's iteration order, each with its count |
| OtherBadgeReport.EveryLineCounted | Other/badge_inventory/src/report.rs:97-101 | every written count is positive, so every line carries " xN", even a count of one |
| OtherBadgeReport.SummarizeOwned | Other/badge_inventory/src/report.rs:46-69 | the template values: the book total, the discontinued and outdated counts and the three lists, each from its filtered reports |
| PathNormalizer.TrimSlashes | world_wide_west/src/path_normalizer.rs:7 | `trim_end_matches('/')` keeps a prefix of the path, removes only slashes, and leaves no slash at the end |
| PathNormalizer.TrimIdempotent | world_wide_west/src/path_normalizer.rs:7 | normalising a normalised path changes nothing |
| PathNormalizer.RootBecomesEmpty | world_wide_west/src/path_normalizer.rs:7 | "/" becomes the empty path and "/a//" becomes "/a" |
| PathNormalizer.TrimUnique | world_wide_west/src/path_normalizer.rs:7 | the trimmed path is the only prefix with those three properties |
| PathNormalizer.Request.constructor | world_wide_west/src/path_normalizer.rs:6 | a request with the given verb and path and nothing else |
| PathNormalizer.Pre | world_wide_west/src/path_normalizer.rs:6-9 | the middleware replaces only the request's path by its trimmed form and always continues |
| BoatInfo.Get | boatinfo_downloader/src/boat_info.rs:23-33 | `raw.get(k).cloned()` is present exactly when the row has a cell `k` |
| BoatInfo.FromRaw | boatinfo_downloader/src/boat_info.rs:20-35 | the record keeps the state, and its k-th optional field holds the k-th cell when the row has one and is empty otherwise |
| BoatInfo.ExtraCellsIgnored | boatinfo_downloader/src/boat_info.rs:20-35 | cells after the eleventh do not change the record |
| BoatInfo.EmptyRow | boatinfo_downloader/src/boat_info.rs:20-35 | an empty row leaves every optional field empty |
| BoatInfo.FieldsRoundTrip | boatinfo_downloader/src/boat_info.rs:20-35 | a row of at most eleven cells is given back by the record's fields, the rest empty |
| DadBot.AnyContainedSpec | dad_bot/src/misc.rs:6-7 | the `any` scan finds a pattern exactly when some pattern of the list occurs in the message |
| DadBot.DadableSpec | dad_bot/src/misc.rs:1-8 | a message qualifies exactly when, lower-cased, it contains some trigger and no opt-out marker |
| DadBot.AntiTriggerWins | dad_bot/src/misc.rs:7 | any opt-out marker vetoes the message, whatever triggers it holds |
| DadBot.DadableIgnoresCase | dad_bot/src/misc.rs:5 | the test does not depend on the message's case |
| DadBot.AbsentFirst | dad_bot/src/misc.rs:6-7 | a pattern whose first character is absent from the message does not occur in it |
| DadBot.SwimmingQualifies | dad_bot/src/misc.rs:2 | triggers are plain substrings: "im" inside "Swimming" qualifies it (also lines 6) |
| SoonSafety.SoonSafety.constructor | soon/src/safety.rs:32-43 | a new guard has no value and remembers the creating thread |
| SoonSafety.SoonSafety.OnReplace | soon/src/safety.rs:13-23 | the thread check comes first, then the already-set check; only a call from the creating thread on an empty guard passes and sets the flag, and the value is given at most once |
| SoonSafety.SoonSafety.OnDeref | soon/src/safety.rs:25-29 | dereferencing passes exactly when a value has been set |
| SoonSafety.ReplaceTwice | soon/src/safety.rs:13-23 | a second replacement on the right thread panics as already set |
| Guessing.Game.Init | Scripts/learning_c/guessing.c:7-12 | the secret is the random value reduced into 1..max, and no guess has been made |
| Guessing.Game.Guess | Scripts/learning_c/guessing.c:14-23 | each guess is counted; the answer is 1, -1 or 0 exactly when the guess is above, below or equal to the secret |
| Guessing.Pow2Grows | Scripts/learning_c/guess_solver.c:8-17 | ten halvings cover the 1001 values of the range |
| Guessing.HalvedWidth | Scripts/learning_c/guess_solver.c:24-38 | a miss at least halves the interval still open around the secret |
| Guessing.Solve | Scripts/learning_c/guess_solver.c:15-39 | the bisection loop ends with the secret as its guess, after one to ten guesses |
| Guessing.SolverMain | Scripts/learning_c/guess_solver.c:10-40 | the solver program finds the game's secret in one to ten guesses |
| WatchHistory.LastSegment | youtube_stats/src/history.rs:24-29 | the id is a suffix of the URL with no '=' in it, preceded by '=' unless it is the whole URL: the last split piece |
| WatchHistory.IdWithoutEquals | youtube_stats/src/history.rs:24-29 | a URL without '=' is its own id |
| WatchHistory.IdOfQuery | youtube_stats/src/history.rs:24-29 | the id of "base=v" is v when v holds no '=' |
| WatchHistory.NoEqualsAt | youtube_stats/src/history.rs:26 | no character of a text without '=' is '=' |
| WatchHistory.SameIsEquivalence | youtube_stats/src/history.rs:46-51 | equality by id is reflexive, symmetric and transitive, as `Eq` demands |
| WatchHistory.HashAgreesWithEq | youtube_stats/src/history.rs:46-57 | equal entries feed the hasher the same id, and entries with the same URL are equal |
| WatchHistory.Default | youtube_stats/src/history.rs:32-44 | the default entry has every field empty, and so an empty id |
| CodingBatCase.SkipSeparators | coding_bat_exporter/src/case.rs:53-57 | the position reached is past a run made only of ' ' and ',', and the character there (if any) is neither |
| CodingBatCase.NumberEnd | coding_bat_exporter/src/case.rs:59-64 | the run of digits, '.' and '-' consumed by `take_number` is maximal: every character in it is a number character and the next one is not |
| CodingBatCase.CloseQuote | coding_bat_exporter/src/case.rs:77-81 | the closing position found is the first one holding the opening quote; none is found exactly when the quote does not occur again |
| CodingBatCase.TakeNumberAt | coding_bat_exporter/src/case.rs:59-69 | the whole run is consumed, and a value is returned only for a non-empty run that parses as a number |
| CodingBatCase.TakeStringAt | coding_bat_exporter/src/case.rs:71-85 | a string is read exactly when the position holds a quote that occurs again; it is the text strictly between the two identical quotes, holds no such quote, and the position moves past the closing one; otherwise nothing moves |
| CodingBatCase.NextAt | coding_bat_exporter/src/case.rs:32-51 | reading a value never moves backwards, and a value is only read at a position inside the text, moving strictly forward |
| CodingBatCase.TakeArrayAt | coding_bat_exporter/src/case.rs:87-106 | the position never moves backwards, whichever way the array ends |
| CodingBatCase.ItemsAt | coding_bat_exporter/src/case.rs:96-103 | the element loop never moves backwards |
| CodingBatCase.ValuesAt | coding_bat_exporter/src/case.rs:16-21 | the value loop keeps every value already read |
| CodingBatCase.CaseParser.constructor | coding_bat_exporter/src/case.rs:9-14 | a parser starts at the first character of its input |
| CodingBatCase.CaseParser.AtEnd | coding_bat_exporter/src/case.rs:28-30 | `eof` holds exactly when no character is left |
| CodingBatCase.CaseParser.TakeSeparator | coding_bat_exporter/src/case.rs:53-57 | the cursor moves to where `SkipSeparators` says, the characters unchanged |
| CodingBatCase.CaseParser.TakeNumber | coding_bat_exporter/src/case.rs:59-69 | the result and the new cursor are those of `TakeNumberAt` |
| CodingBatCase.CaseParser.TakeString | coding_bat_exporter/src/case.rs:71-85 | the result and the new cursor are those of `TakeStringAt`, including the early returns that leave the cursor in place |
| CodingBatCase.CaseParser.NextType | coding_bat_exporter/src/case.rs:32-51 | the value (or None, or panic) and the new cursor are those of `NextAt` |
| CodingBatCase.CaseParser.TakeArray | coding_bat_exporter/src/case.rs:87-106 | the elements and the new cursor are those of `TakeArrayAt`; indexing past the end inside the loop is the panic outcome |
| CodingBatCase.CaseParser.Parse | coding_bat_exporter/src/case.rs:16-26 | the arguments and result are those of `ParseAt`; no value at all is the panic of `args.pop().unwrap()` |
| CodingBatCase.ReadQuoted | coding_bat_exporter/src/case.rs:71-85 | a string written between double quotes without a double quote inside reads back as itself, moving past both quotes |
| CodingBatCase.ReadNumber | coding_bat_exporter/src/case.rs:59-69 | a whole number written in decimal reads back as its own value when what follows cannot continue the number |
| CodingBatCase.ReadBracketed | coding_bat_exporter/src/case.rs:87-106 | an array written between an opener and a closer reads back as its elements, after the closer; a non-opener fails after moving one character |
| CodingBatCase.ReadShow | coding_bat_exporter/src/case.rs:32-51 | every printable value, nested arrays included, reads back as itself, and `next_type` stops right after its text |
| CodingBatCase.ReadItems | coding_bat_exporter/src/case.rs:96-103 | the array loop over printed elements followed by a closer collects exactly those elements, in order, and stops after the closer |
| CodingBatCase.ReadValues | coding_bat_exporter/src/case.rs:16-21 | the loop of `parse` over printed values running to the end of the text collects exactly those values, in order |
| CodingBatCase.CaseRoundTrip | coding_bat_exporter/src/case.rs:16-26 | a case printed as its arguments and result separated by ", " parses back to exactly those arguments and that result |
| CodingBatCase.NothingParsedPanics | coding_bat_exporter/src/case.rs:16-26 | a line that does not start with a value makes `parse` panic, as `args.pop().unwrap()` does on an empty list |
| CodingBatCase.BraceClosesList | coding_bat_exporter/src/case.rs:96-101 | ']' and '}' both close an array: a list opened with '[' is closed by '}' |
| CodingBatCase.BracketClosesArray | coding_bat_exporter/src/case.rs:96-101 | an array opened with '{' is closed by ']' |
| CodingBatCase.OpenArrayPanics | coding_bat_exporter/src/case.rs:96-98 | an array left open at the end of the text panics (the unchecked `self.chars[self.idx]`) |
| CodingBatTypes.AsTypes | coding_bat_exporter/src/types.rs:22-30 | each value maps to the type tag of the same name, and only that one |
| CodingBatTypes.AsU32 | coding_bat_exporter/src/types.rs:44 | Rust's float-to-u32 cast: at most u32::MAX, 0 below 1, and otherwise the whole part of the number |
| CodingBatTypes.NumberJson | coding_bat_exporter/src/types.rs:40-46 | a number with a fractional part is written as an f32, a whole number through the u32 cast |
| CodingBatTypes.NumberJsonFixed | coding_bat_exporter/src/types.rs:40-46 | corrected: a whole number is written as the integer equal to it |
| CodingBatTypes.JsonNumber | coding_bat_exporter/src/types.rs:39-47 | the number a serialised scalar denotes; defined exactly for the numeric encodings |
| CodingBatTypes.NumberJsonFixedExact | coding_bat_exporter/src/types.rs:40-46 | the corrected encoding denotes exactly the number it was given |
| CodingBatTypes.NegativeWholeAsWritten | coding_bat_exporter/src/types.rs:44 | as written, -3 is serialised as the u32 0, which does not denote -3 |
| CodingBatTypes.NumberJsonExactWhen | coding_bat_exporter/src/types.rs:40-46 | as written, a number survives exactly when it has a fraction or is a whole number between 0 and u32::MAX |
| CodingBatTypes.SerializeWith | coding_bat_exporter/src/types.rs:33-57 | bools, strings and arrays keep their shape: a bool becomes a JSON bool, a string a JSON string, both array kinds a JSON sequence, and only those, under either number encoding |
| CodingBatTypes.SerializeAll | coding_bat_exporter/src/types.rs:48-54 | one serialised element per item |
| CodingBatTypes.SerializeArrays | coding_bat_exporter/src/types.rs:48-54 | `Array` and `ArrayList` serialise alike, as each element serialised in order |
| CodingBatTypes.SerializeAllItems | coding_bat_exporter/src/types.rs:50-52 | element i of the serialised sequence is item i serialised |
| CodingBatTypes.SerializeScalars | coding_bat_exporter/src/types.rs:39-47 | a bool and a string serialise to themselves; as written, a number keeps its value exactly when it has a fractional part or is a whole number in 0..u32::MAX, and a negative whole number becomes 0; the corrected serializer (`SerializeFixed`) keeps every number |
| Study.ParseCard | src/card.rs:20-30 | a line parses exactly when it contains a tab |
| Study.ParseCardSpec | src/card.rs:21-28 | a parsed card is the line cut at its first tab: answer, tab and question give back the line, the answer holds no tab, and the status is New |
| Study.SplitAtFirstTab | src/card.rs:21-23 | given the position of the first tab, the answer is the text before it and the question everything after it |
| Study.ParseCardExample | src/card.rs:21-23 | further tabs stay in the question: "chien\tdog\tanimal" gives answer "chien" and question "dog\tanimal" |
| Study.NoTabExample | src/card.rs:22-23 | a line with no tab is rejected |
| Study.StatusText | src/card.rs:33-41 | every status has a non-empty name |
| Study.StatusTextInjective | src/card.rs:35-38 | the three names differ, so the text determines the status |
| Study.LoadCards | study/src/set.rs:22-42 | loading succeeds exactly when every line is a card, and then card i is line i parsed |
| Study.ChunkSections | study/src/set.rs:45-50 | there are `len / C` sections and section i is cards `i·C` up to `(i+1)·C` |
| Study.SectionsCoverPrefix | study/src/set.rs:46-49 | every section holds C cards, and fewer than C cards are left over |
| Study.SmallDeckNoSections | study/src/set.rs:46-50 | a deck with fewer cards than one section gets no section, so the first `get_current_card` or `answer` panics |
| Study.StudySet.constructor | study/src/set.rs:52-58 | a valid set named "Default" at section 0, card 0 |
| Study.StudySet.CurrentCard | study/src/set.rs:61-63 | the card at the current position, which belongs to the current section; the indexing panic (None) exactly when there is no section left, which happens only for a deck without a full section |
| Study.StudySet.Answer | study/src/set.rs:85-104 | panics (None), changing nothing, exactly when there is no current section; otherwise returns whether the answer matches, marks that card Mastered or Learning and nothing else, advances and wraps the position on a correct answer, keeps it on a wrong one, and finishes exactly after the last card of the last section; the loaded cards are untouched |
| Study.Load | study/src/set.rs:20-59 | succeeds exactly when every line of the text is a card; then the set has one card per line, chunked sections and position 0, 0 |
| TextGen.RunsAreTokens | text_gen/src/main.rs:41-61 | every word `tokenize` yields is non-empty and holds no space or newline |
| TextGen.RunsConcat | text_gen/src/main.rs:41-61 | the words written together are the input with its spaces and newlines removed |
| TextGen.RunsOfWord | text_gen/src/main.rs:45-58 | a non-empty text without separators is a single word |
| TextGen.TokenizeStep | text_gen/src/main.rs:46-54 | one more character either closes the pending word (separator) or grows it |
| TextGen.Tokenize | text_gen/src/main.rs:41-61 | the loop over the characters, with the final pending word pushed, yields exactly the maximal separator-free runs of the input |
| TextGen.TokenizeSpec | text_gen/src/main.rs:41-61 | the words are non-empty, separator-free, and together the input without separators |
| TextGen.TwoWordsExample | text_gen/src/main.rs:41-61 | "to be\n" gives the words "to" and "be" |
| TextGen.SeenStep | text_gen/src/main.rs:16-20 | after one more token the chain's keys are the old ones plus the word it follows |
| TextGen.ChainStep | text_gen/src/main.rs:17-19 | pushing a token onto the list of the current word extends the chain by exactly that token |
| TextGen.BuildChain | text_gen/src/main.rs:10-20 | no chain without tokens; otherwise the keys are exactly the words some token follows (the first token follows itself) and each key's list is its successors in order |
| TextGen.TotalStep | text_gen/src/main.rs:17-18 | each token lengthens exactly one successor list, by one |
| TextGen.ChainHoldsEveryToken | text_gen/src/main.rs:16-20 | the successor lists together hold one entry per token |
| TextGen.ZeroTotal | text_gen/src/main.rs:10 | the chain starts with no entries |
| DistantLocations.BlankIffTrimEmpty | distant_locations/src/main.rs:27 | a line is dropped exactly when trimming its whitespace leaves nothing |
| DistantLocations.KeepNonBlank | distant_locations/src/main.rs:26-28 | filtering never adds lines |
| DistantLocations.KeepNonBlankSpec | distant_locations/src/main.rs:26-28 | the kept lines are exactly the non-blank lines of the input |
| DistantLocations.ToLines | distant_locations/src/main.rs:25-29 | `to_lines` yields exactly the non-blank lines of the text |
| DistantLocations.KeepNonBlankAppend | distant_locations/src/main.rs:26-28 | the filter works line by line: filtering a concatenation concatenates the filtered parts, in order |
| DistantLocations.KeepNonBlankIdempotent | distant_locations/src/main.rs:26-28 | filtering twice is filtering once |
| DistantLocations.KeepAllNonBlank | distant_locations/src/main.rs:26-28 | lines that are all non-blank are kept unchanged |
| DistantLocations.Report | distant_locations/src/main.rs:49-74 | as written: exits when any location of either layer was not geocoded; otherwise prints every `b` location's name, whatever the distances |
| DistantLocations.FarNames | distant_locations/src/main.rs:58-74 | the intended report lists at most the `b` locations |
| DistantLocations.ReportFar | distant_locations/src/main.rs:49-74 | corrected: exits on the same condition; otherwise prints exactly the names of the `b` locations at least the limit away from every `a` location, in order |
| DistantLocations.FarNamesSpec | distant_locations/src/main.rs:58-73 | a `b` location is listed exactly when it is not within the limit of any `a` location |
| DistantLocations.FarNamesFrom | distant_locations/src/main.rs:59-73 | every listed name belongs to a `b` location |
| DistantLocations.NearbyStillReported | distant_locations/src/main.rs:62-67 | a location one mile from the only `a` location, with a 30-mile limit, is printed as written and not by the corrected report |
| PdfObject.Get | pdf_splitter/src/pdf.rs:25 | a lookup fails exactly when no entry has the key, and otherwise yields the value of an entry with that key |
| PdfObject.Set | pdf_splitter/src/pdf.rs:36 | after `set` the key maps to the new value and every other key to what it did; a present key keeps its place, a new one is appended at the end |
| PdfObject.GetSnoc | pdf_splitter/src/pdf.rs:98-104 | an appended entry is seen by a lookup only when no earlier entry has its key |
| PdfObject.NewStream | pdf_splitter/src/pdf.rs:17 | `Stream::new` keeps the content, allows compression and records the content's length under Length |
| PdfObject.Document.constructor | pdf_splitter/src/pdf.rs:9 | an empty document: no objects, no trailer entries, no number handed out |
| PdfObject.Document.NewObjectId | pdf_splitter/src/pdf.rs:10 | the next object number, generation 0, not used by any object |
| PdfObject.Document.SetRootAndInfo | pdf_splitter/src/pdf.rs:112-113 | the trailer's Root and Info refer to the given objects |
| PdfObject.Document.InsertObject | pdf_splitter/src/pdf.rs:60-67 | the object is stored under the given number and nothing else changes |
| PdfObject.Document.AddObject | pdf_splitter/src/pdf.rs:17 | the object is stored under the next number, which was unused, and nothing else changes |
| PdfObject.ShallowGrows | pdf_splitter/src/pdf.rs:164-180 | a copy stays a copy when more copies are recorded |
| PdfObject.CopiesStep | pdf_splitter/src/pdf.rs:176-178 | adding a copy of a source object under a fresh number and recording it keeps every recorded object a copy of its original |
| PdfObject.CopiesAdd | pdf_splitter/src/pdf.rs:60-67 | adding an object that is not a copy keeps every recorded copy a copy |
| PdfSplit.ObjectCache.constructor | pdf_splitter/src/pdf.rs:8 | the cache starts empty |
| PdfSplit.GrowthTrans | pdf_splitter/src/pdf.rs:122-188 | growth of the document and the cache composes across successive steps |
| PdfSplit.CloneObj | pdf_splitter/src/pdf.rs:122-188 | the result is a copy of the object with references pointing into the new document; scalars come back unchanged and add nothing; a cached reference is answered from the cache; an unresolvable reference becomes Null; any other reference is copied, added under the next number and cached; nothing recorded is lost |
| PdfSplit.AddCopy | pdf_splitter/src/pdf.rs:176-179 | the copy is added under the next number and the source number is cached as that number |
| PdfSplit.GrowthAdd | pdf_splitter/src/pdf.rs:177-178 | adding one copy and caching it is growth |
| PdfSplit.CloneReference | pdf_splitter/src/pdf.rs:164-180 | a reference is answered from the cache when cached, becomes Null when it does not resolve, and is otherwise copied once, added and cached |
| PdfSplit.CloneItems | pdf_splitter/src/pdf.rs:129-135 | an array is copied element by element, in order |
| PdfSplit.CloneEntries | pdf_splitter/src/pdf.rs:136-163 | a dictionary or stream dictionary is copied entry by entry, keys in order, each value a copy |
| PdfSplit.EntriesGrow | pdf_splitter/src/pdf.rs:138-146 | copied entries stay copies as more copies are recorded |
| PdfSplit.CopiedEntriesGrow | pdf_splitter/src/pdf.rs:39-54 | the copied page entries stay copies as more copies are recorded |
| PdfSplit.PageEntriesGrow | pdf_splitter/src/pdf.rs:13-58 | a page's entries stay right as objects are added |
| PdfSplit.PageOkGrows | pdf_splitter/src/pdf.rs:13-58 | a finished page stays finished as objects are added |
| PdfSplit.GetBelow | pdf_splitter/src/pdf.rs:25 | a value looked up in an acyclic dictionary is itself acyclic below the same bound |
| PdfSplit.GetPrefix | pdf_splitter/src/pdf.rs:39 | looking up one more old entry sees it only when its key is new |
| PdfSplit.PageHead | pdf_splitter/src/pdf.rs:18-22 | a new page starts with Type Page, its Parent and its Contents, and no other key |
| PdfSplit.SkipEntry | pdf_splitter/src/pdf.rs:40-42 | an old entry whose key the page already has is skipped |
| PdfSplit.NotFixed | pdf_splitter/src/pdf.rs:40 | an old key not yet on the page is not one the page sets itself |
| PdfSplit.SetEntryFixed | pdf_splitter/src/pdf.rs:53 | setting an old entry leaves the page's own entries as they were |
| PdfSplit.SetOther | pdf_splitter/src/pdf.rs:53 | setting one key leaves the others' lookups unchanged |
| PdfSplit.SetEntry | pdf_splitter/src/pdf.rs:44-53 | an old entry whose key is new to the page is set to a copy of its value |
| PdfSplit.ExtendsTrans | pdf_splitter/src/pdf.rs:122-188 | keeping every entry composes |
| PdfSplit.CopyEntry | pdf_splitter/src/pdf.rs:39-54 | one step of the old-entry loop: the page's own entries stay, and one more old entry is accounted for |
| PdfSplit.CopyEntries | pdf_splitter/src/pdf.rs:39-54 | after the loop the page's own entries are unchanged and every other old key is present with a copy of its value, and no other key |
| PdfSplit.PageFromHead | pdf_splitter/src/pdf.rs:18-54 | the head, the Resources and the copied entries together make the page's entries |
| PdfSplit.FixedEntriesGrow | pdf_splitter/src/pdf.rs:17-37 | Contents and Resources stay right as objects are added |
| PdfSplit.AddNew | pdf_splitter/src/pdf.rs:35 | `add_object` of an object that is not a copy: stored under a new number, copies and cache unchanged |
| PdfSplit.AddResources | pdf_splitter/src/pdf.rs:24-37 | when the old page has Resources, a copy of them is added as an object and the page refers to it; otherwise the page has none |
| PdfSplit.BuildPage | pdf_splitter/src/pdf.rs:13-57 | the new page has Type Page, the Pages node as Parent, a stream with the page content as Contents, copied Resources, and a copy of every other old entry; it is a new object |
| PdfSplit.PagesDict | pdf_splitter/src/pdf.rs:62-66 | the Pages node has Type Pages, the kids and their count |
| PdfSplit.MergeInfo | pdf_splitter/src/pdf.rs:92-109 | the Info has Type Info, the producer string, and every other old entry unchanged |
| PdfSplit.PageDict | pdf_splitter/src/pdf.rs:14-24 | a page is found exactly when its number is in range and names a dictionary, which is returned |
| PdfSplit.MetadataOf | pdf_splitter/src/pdf.rs:69-84 | the metadata, when found, is an object of the source |
| PdfSplit.InfoOf | pdf_splitter/src/pdf.rs:95-97 | no Info in the trailer means nothing to merge; a found Info is a dictionary of the source |
| PdfSplit.KidsGrow | pdf_splitter/src/pdf.rs:13-58 | finished pages stay finished as objects are added |
| PdfSplit.KidsSnoc | pdf_splitter/src/pdf.rs:56-57 | one more finished page, distinct from the others, extends the kids |
| PdfSplit.KidsStep | pdf_splitter/src/pdf.rs:13-58 | one more iteration of the page loop extends the finished kids by its page |
| PdfSplit.SplitPages | pdf_splitter/src/pdf.rs:12-58 | fails exactly when some job page does not exist; otherwise one new, distinct page per job page, in order, each made from its source page |
| PdfSplit.CatalogDict | pdf_splitter/src/pdf.rs:86-90 | the catalog has Type Catalog and refers to the Pages node and the metadata |
| PdfSplit.Split | pdf_splitter/src/pdf.rs:7-114 | fails exactly when a page, the metadata or the Info cannot be found; otherwise the trailer's Root is a catalog over a Pages node holding the job's pages and the source metadata, the Info is merged, and every recorded copy is a copy of its original |
| PdfSplit.Finish | pdf_splitter/src/pdf.rs:85-113 | the metadata, the catalog and the merged Info are added and the trailer refers to them |
| PdfSplit.FinishOk | pdf_splitter/src/pdf.rs:60-113 | these pieces make the document described |
| PdfSplit.AddPagesNode | pdf_splitter/src/pdf.rs:60-67 | the Pages node over the finished kids is stored under the number taken first |
| PdfSplit.PagesNode | pdf_splitter/src/pdf.rs:60-67 | inserting the Pages node over finished kids gives a finished Pages node |
| PdfSplit.PagesGrow | pdf_splitter/src/pdf.rs:85-110 | a finished Pages node stays finished as objects are added |
| PdfSplit.CloneTwice | pdf_splitter/src/pdf.rs:165-169 | an object referenced twice is copied once: both references come back as the same new one and one object is added |
| PdfMain.GetOutlines | pdf_splitter/src/main.rs:199-210 | appends the outline's entries in pre-order: a destination at the current depth, the children of a sub-outline one level deeper |
| PdfMain.CollectOutlines | pdf_splitter/src/main.rs:53-56 | the collected outlines are every bookmark flattened in order, from depth 0 |
| PdfMain.FlattenDepth | pdf_splitter/src/main.rs:199-210 | every entry of a flattened outline is at least as deep as where flattening started |
| PdfMain.FlattenAllDepth | pdf_splitter/src/main.rs:204-207 | the same for a list of outlines |
| PdfMain.TopLevelAppend | pdf_splitter/src/main.rs:58 | the depth-0 filter works piece by piece: it distributes over concatenation |
| PdfMain.TopLevelDeep | pdf_splitter/src/main.rs:58 | entries below depth 0 never become sections |
| PdfMain.TopLevelOfBookmarks | pdf_splitter/src/main.rs:53-58 | the sections are exactly the bookmarks' own destinations, in order; nested entries are ignored |
| PdfMain.TestSplitter.constructor | pdf_splitter/src/main.rs:265-268 | a splitter that has seen no section |
| PdfMain.TestSplitter.ShouldSplit | pdf_splitter/src/main.rs:284-299 | true exactly when the section's name or the name seen before starts with "Ch "; the section's name is remembered either way |
| PdfMain.DigitRun | pdf_splitter/src/main.rs:272 | the length of the leading run of ASCII digits: all digits before it, none at it |
| PdfMain.FirstChapter | pdf_splitter/src/main.rs:272-274 | the leftmost position at or after the start where `Ch <digits>: ` matches, and no match before it |
| PdfMain.LineEnd | pdf_splitter/src/main.rs:272 | `(.*)` runs to the first line break or the end, and holds no line break |
| PdfMain.ReplaceChar | pdf_splitter/src/main.rs:281 | `replace` of one character by another: same length, each occurrence replaced, nothing else changed, none left |
| PdfMain.DigitRunOf | pdf_splitter/src/main.rs:272 | the digit run of digits followed by a non-digit is exactly those digits |
| PdfMain.NameOfChapter | pdf_splitter/src/main.rs:274-278 | "Ch <digits>: <title>" is named "Ch<digits>-<title>" |
| PdfMain.PlainName | pdf_splitter/src/main.rs:281 | a name without "Ch " has its spaces turned into '-' and keeps its length |
| PdfMain.UnnumberedChapter | pdf_splitter/src/main.rs:271-282 | "Ch Review" does not match the pattern and is named "Ch-Review" |
| PdfMain.HyphenateReview | pdf_splitter/src/main.rs:281 | "Ch Review" with spaces replaced is "Ch-Review" |
| PdfMain.NoChapterInReview | pdf_splitter/src/main.rs:272-274 | the pattern matches nowhere in "Ch Review" |
| PdfMain.IndexOf | pdf_splitter/src/main.rs:61-64 | the position of the first page with that id, or none exactly when no page has it |
| PdfMain.Selected | pdf_splitter/src/main.rs:58-87 | the entries that start a job, increasing, and every such entry among them |
| PdfMain.ChainedSnoc | pdf_splitter/src/main.rs:66-68 | a job starting where the last one ends keeps the jobs chained |
| PdfMain.ChapterStartsJob | pdf_splitter/src/main.rs:77-86 | a chapter starts a job named after it at its page, and so does the entry right after it |
| PdfMain.NoChapterNoJobs | pdf_splitter/src/main.rs:77-86 | without a chapter among the sections nothing is split out |
| PdfMain.SelectedNone | pdf_splitter/src/main.rs:77 | with no chapter no entry is selected |
| PdfMain.PatchOnlyEnd | pdf_splitter/src/main.rs:66-68 | patching the last job changes only its end |
| PdfMain.PatchStarted | pdf_splitter/src/main.rs:66-68 | patching the last job keeps the jobs' names and starts |
| PdfMain.PushStarted | pdf_splitter/src/main.rs:77-86 | pushing the job of a splitting entry adds it after the others |
| PdfMain.PlanSplit | pdf_splitter/src/main.rs:66-86 | one iteration for an entry that splits keeps the plan right |
| PdfMain.PlanSkip | pdf_splitter/src/main.rs:66-86 | one iteration for an entry that does not split keeps the plan right |
| PdfMain.PlanStep | pdf_splitter/src/main.rs:58-87 | one iteration of the section loop keeps the plan right |
| PdfMain.PlanDone | pdf_splitter/src/main.rs:89-91 | setting the last job's end to the page count finishes the plan |
| PdfMain.PlanJobs | pdf_splitter/src/main.rs:58-91 | fails exactly when some section's page is not found; otherwise one job per section that is a chapter or follows one, named after it, starting at its page, each ending where the next starts and the last at the page count |
| PdfMain.CloneObj | pdf_splitter/src/main.rs:212-263 | the uncached cloner: scalars unchanged and nothing added, arrays and dictionaries copied in order, an unresolvable reference becomes Null, a resolvable one is copied and added as a new object every time |
| PdfMain.AddCopy | pdf_splitter/src/main.rs:252-254 | the copy is added under the next number |
| PdfMain.CloneItems | pdf_splitter/src/main.rs:218-224 | an array is copied element by element, in order |
| PdfMain.CloneEntries | pdf_splitter/src/main.rs:225-242 | a dictionary or stream dictionary is copied entry by entry, keys in order |
| PdfMain.CloneTwiceUncached | pdf_splitter/src/main.rs:243-254 | an object referenced twice is copied twice, as two new objects |
| Video.ColorConstants | wave_sim/src/video.rs:96-100 | white is 255 on every channel, black 0, blue and red the pure primaries |
| Video.Paint | wave_sim/src/video.rs:87-92 | the bytes of a pixel write: only the three bytes at the offset change, and when all three are in range they hold the colour's red, green and blue in that order; at an offset past the end nothing changes |
| Video.ImageBuffer.constructor | wave_sim/src/video.rs:80-85 | `width·height·3` zero bytes and the given width |
| Video.ImageBuffer.SetPixel | wave_sim/src/video.rs:87-92 | the buffer becomes the old bytes painted at `(y·width + x)·3`; the call succeeds exactly when the whole triple is in range |
| Video.PixelInFrame | wave_sim/src/video.rs:80-92 | every pixel inside the frame lies inside the buffer `new` allocates |
| Video.DisjointPixels | wave_sim/src/video.rs:88 | two different pixels of a row own disjoint byte triples |
| Video.PaintCommutes | wave_sim/src/video.rs:87-92 | writing two different pixels gives the same bytes in either order |
| Video.PaintOverwrites | wave_sim/src/video.rs:87-92 | writing a pixel twice keeps only the second colour |
| Video.TwoPixels | wave_sim/src/video.rs:28-55 | in a fresh frame two different pixels set one after the other each keep their own colour |
| Video.PaintBoth | wave_sim/src/video.rs:87-92 | after two writes to disjoint in-range triples each holds its own colour |
| CVector.Overwrite | Scripts/vector.c:33-34 | `memcpy` of an item into a byte block: the item lands at the offset and the bytes before and after are kept |
| CVector.HoldsPush | Scripts/vector.c:33-35 | writing an element right after the stored ones stores the old elements plus that one |
| CVector.SliceKept | Scripts/vector.c:33-34 | bytes before the write offset are untouched |
| CVector.HoldsExtend | Scripts/vector.c:26-31 | bytes added after the stored elements do not disturb them |
| CVector.CopyInto | Scripts/vector.c:26-31 | the start of the new block is a copy of the old one, the rest unchanged |
| CVector.Vector.Init | Scripts/vector.c:14-20 | room for 20 elements of the given size, none stored |
| CVector.Vector.Push | Scripts/vector.c:22-36 | corrected: the elements become the old ones plus the item and the length grows by one; a full vector doubles its capacity in elements and keeps its elements |
| CVector.Vector.Grow | Scripts/vector.c:26-31 | corrected growth: twice the capacity, in elements, with every stored element kept |
| CVector.Vector.WriteAt | Scripts/vector.c:34 | the block becomes its old bytes with the item copied over from the offset |
| CVector.Vector.PushAsWritten | Scripts/vector.c:22-36 | as written: a full vector gets a new block of `length·2` bytes; the copy stays in bounds exactly when the vector had room or `(length+1)·elementLength ≤ 2·length`; when in bounds the item is at its slot |
| CVector.Vector.Get | Scripts/vector.c:38-44 | fails exactly when the index is not below the length; otherwise the byte offset `index·elementLength`, where element `index` is stored |
| CVector.PushAndGetTen | Scripts/vector.c:46-65 | ten 8-byte elements pushed into a fresh vector are read back unchanged |
| CVector.TwentyOnePushesAsWritten | Scripts/vector.c:26-34 | as written, the twenty-first push of `e`-byte elements stays in bounds exactly when `e ≤ 1` |
| CVector.TwentyOnePushes | Scripts/vector.c:22-36 | corrected, twenty-one pushes give length 21, capacity 40, and the last element reads back |
| EzHash.Colored | Github/ezHash.py:23-27 | without colour the text comes back unchanged; with colour it is known exactly when the lower-cased name is a colour code, and the text then sits between an escape sequence starting `ESC [` with the weight `1;` or `0;` and the reset sequence |
| EzHash.ColoredIgnoresCase | Github/ezHash.py:27 | the colour name is looked up after lower-casing, so its case does not matter |
| EzHash.ScriptColorsKnown | Github/ezHash.py:31-80 | every colour name the script uses is in the table, so none of its calls fails |
| EzHash.Basename | Github/ezHash.py:35-36 | the part after the last '/': a suffix of the path with no '/', preceded by a '/' when shorter than the path |
| EzHash.FileNameFromPath | Github/ezHash.py:34-37 | the path comes back as given |
| EzHash.DirectoryKept | Github/ezHash.py:34-37 | a path with a directory is not shortened to its file name |
| EzHash.SeparatorRow | Github/ezHash.py:65 | the separator line is as long as the header line |
| EzHash.Table | Github/ezHash.py:63-67 | the text built before the cut ends with a newline |
| EzHash.MarkdownTable | Github/ezHash.py:62-68 | fails exactly when fewer than two names are given; otherwise heading, header, separator and one row per entry in order, without the final newline |
| EzHash.CountAppend | Github/ezHash.py:63-67 | line breaks of a concatenation add up |
| EzHash.CountAbsent | Github/ezHash.py:67 | text without a line break counts none |
| EzHash.RowNewlines | Github/ezHash.py:67 | a row whose cells hold no line break holds exactly one |
| EzHash.RowsNewlines | Github/ezHash.py:66-67 | the rows hold one line break per entry |
| EzHash.TableLines | Github/ezHash.py:62-68 | with no line break in the path, names or entries, the table has `2 + entries` line breaks and its last line is unterminated |
| EzHash.TableStartsWithHeading | Github/ezHash.py:63 | the table opens with the heading line |
| Strings.SortSpec | src/process.rs:53 | `sort` on the badge names yields a sorted permutation of them |
| Strings.InsertSorted | src/process.rs:53 | inserting a name into a sorted list keeps it sorted |
| Strings.InsertPermutes | src/process.rs:53 | inserting adds exactly that name |
| Strings.StrLeTotal | src/process.rs:53 | any two names are ordered one way or the other |
| Strings.StrLeTransitive | src/process.rs:53 | the order of names is transitive |
| Strings.StrLeAntisymmetric | src/process.rs:53 | names ordered both ways are equal |
| Strings.Dedup | src/process.rs:54 | `dedup` keeps the first element and exactly the same names, with no two neighbours equal |
| Strings.SplitOnce | unit_convert/src/input.rs:20 | `split_once` fails exactly when the separator does not occur; otherwise the parts around its first occurrence give back the text |
| Strings.FindSpec | unit_convert/src/input.rs:20 | the position found is the first occurrence, and none is found exactly when there is none |
| Strings.TrimStart | unit_convert/src/input.rs:21 | removes exactly the leading whitespace: a suffix that does not start with whitespace, only whitespace dropped |
| Strings.TrimEnd | unit_convert/src/input.rs:21 | removes exactly the trailing whitespace: a prefix that does not end with whitespace, only whitespace dropped |
| Strings.BareCrKept | study/src/set.rs:25 | `lines()` drops the '\r' of a "\r\n" ending but keeps a bare '\r' at the end of the text: "a\r\nb\r" is "a" and "b\r" |
| Strings.Lower | src/process.rs:149 | lower-casing keeps the length and maps each character by itself |
| Strings.LowerIdempotent | src/process.rs:149 | lower-casing twice is lower-casing once |

## Left out

- Reading and writing files, standard input, `println!`/`eprintln!` output and process exit are not modelled. Their inputs are parameters (the file text, a line, the answer typed). `Study.StudySet`'s `finished` flag stands for the exit after the last section.
- Randomness is left out:
  - the choice of answer options in `study` (`get_options`);
  - the random walk of the Markov generator (its `dbg!` output too);
  - `rand()` in the C guessing game, whose target is a parameter of `Guessing`.
- Iteration order of `HashMap` and `HashSet` is unspecified in Rust. The models keep key order as a parameter (`OtherBadgeReport.OrderedBookList`) or use sequences in first-seen order (`TextGen`).
- The `lopdf` library is foreign code: loading, saving, compressing and `get_page_content`. Page ids, page contents and the object table are parameters. The regular-expression engine is modelled only as far as the two patterns need it (`PdfMain.FirstChapter`, `PdfMain.DigitRun`).
- The per-job document-building loop of `pdf_splitter/src/main.rs` (lines 96-194) is not modelled. It repeats what `PdfSplit` does, adds a MediaBox and exits after the first job; only its uncached cloner (`PdfMain.CloneObj`) is modelled.
- Object graphs with cycles are left out: both cloners require an acyclic table (a rank on references). On a cyclic table the source never terminates.
- Geocoding and geodesic distance in `distant_locations` are foreign calls. The distance is the parameter `miles`.
- Hashing, `DebugPrint` and the clock of `ezHash.py` are left out. Only the text handling and the table's insert and lookup are modelled.
- Video encoding (`render_video` and the encoder process) is left out. Only the RGB frame buffer is modelled.
- The serde serializer is a library. `CodingBatTypes` models its output as a JSON-like tree of values.
- `Treeifier::tree`/`handle_tree`, and the `todo!()` for groups in the unit converter, are not modelled: the first is debug output, the second panics.
- Memory ordering of the atomics behind `Soon` is left out. Thread ids are plain values, and each check is one atomic step.
- Unit registry data (`find_unit`, `is_metric`, the space of a unit) comes from a list of units, not from the source's generated tables.
- Overflow of `usize` and `i32` arithmetic is not modelled, except for the `i8` exponent parse (`Numbers.ParseI8`), where it decides the result.
- Numbers.ParseFloat: exact rational value; the rounding of `f64`/`f32` and the exponent, `inf` and `NaN` forms are not modelled, because they need binary floating point.
- CodingBatTypes.SerializeWith: numbers are exact rationals; the `f32` rounding of the source is not modelled.
- CConverter.ProcessLine: the converted value is not computed. A conversion (`Converted`) carries the number text, the two resolved units and the power of ten. The units' `to_base` and `offset` factors are not part of `Unit`, and `strtof`, `pow` and the printed float are left out, because they are C floating-point arithmetic (`strtof` also reads exponent and hexadecimal forms past the scanned digits).
- CConverter.FindPrefixedUnit: the uninitialised `found` (lines 178-199, where a failed lookup returns without setting it) is modelled as not-found, because the C value is undefined.
- PdfMain.DigitRun: accepts ASCII digits only. The `\d` of `Ch (\d+): (.*)` in the regex crate matches every Unicode decimal digit (category Nd), so a title such as "Ch ٣: Intro" is a chapter in the source and not in the model (`PdfMain.FirstChapter` inherits this).
- Strings.Lower: lower-cases ASCII letters only; Rust's `to_lowercase` and Python's `lower()` also map other Unicode letters, which the model leaves unchanged.
- BadgeMisc.Similarity: works on characters. The source slices UTF-8 bytes (`&a[i..i + 2]`), which panics when a slice boundary falls inside a multi-byte character, so for text outside ASCII the model gives a score where the source panics.
- CodingBatCase.CaseRoundTrip: holds only for printable values (whole numbers and strings without '"'), because the printer writes numbers in decimal form and does not escape quotes.
- CVector.Vector.PushAsWritten: after an out-of-bounds write the C behaviour is undefined; the model only reports that the write went out of bounds.

## Findings

| source | as written | input that shows it | evidently intended | confidence | as-written member | corrected member |
|---|---|---|---|---|---|---|
| scripts/learning_c/unit_convert.c:129 | the unit name is lower-cased in place before `find_prefixed_unit` strips the prefix (line 189), so an upper-case prefix symbol is read as a lower-case one | "Mm" is read as milli-meter, not mega-meter | strip the case-sensitive prefix symbol first, then compare the unit name without case | high; not executed | CConverter.MegameterAsWritten | CConverter.MegameterFixed |
| Scripts/vector.c:26-31 | a full vector gets a new block of `length*2` bytes, not elements, and the old contents are not copied | 21 pushes of 2-byte elements: the 21st writes past the 40-byte block | a block of `2*capacity*size` bytes, with the stored elements copied over | high; not executed | CVector.TwentyOnePushesAsWritten | CVector.TwentyOnePushes |
| distant_locations/src/main.rs:62-67 | the `continue` inside the inner loop only moves to the next `a`, so every `b` location is printed | one `a` and one `b` location 1 mile apart, limit 30: the `b` location is still reported | skip a `b` location that lies within the limit of any `a` location | high; not executed | DistantLocations.NearbyStillReported | DistantLocations.ReportFar |
| coding_bat_exporter/src/types.rs:44 | a whole number is written as `*x as u32`, which saturates negative values to 0 | -3.0 is serialised as 0 | write whole numbers as signed integers | high; not executed | CodingBatTypes.NegativeWholeAsWritten | CodingBatTypes.NumberJsonFixedExact |
