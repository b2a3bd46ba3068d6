/**
 * The command line of the converter, `<number><unit> => <unit>`: the text
 * is split at the first "=>", the number is pulled off the front of the
 * trimmed left side, and what follows it is the unit to convert from.
 */
module Input {
  import opened Wrappers
  import opened Strings
  import opened Numbers

  /** A parsed request: the value and the two unit expressions. */
  datatype Input = Input(value: real, fromUnit: string, toUnit: string)

  const NoSeparator := "No => separator found."
  const EmptyNumber := "cannot parse float from empty string"
  const InvalidNumber := "invalid float literal"

  /** Characters that may belong to the leading number. */
  predicate IsNumberChar(c: char) {
    IsAsciiDigit(c) || c == '.' || c == '-'
  }

  /** The longest prefix of `raw` made of number characters. */
  function NumberText(raw: string): (t: string)
    ensures |t| <= |raw| && t == raw[..|t|]
    ensures forall i :: 0 <= i < |t| ==> IsNumberChar(t[i])
    ensures |t| == |raw| || !IsNumberChar(raw[|t|])
  {
    if raw != [] && IsNumberChar(raw[0]) then [raw[0]] + NumberText(raw[1..]) else []
  }

  /**
   * The number parser applied to the number text: the value, or the message
   * the parser gives for an empty or malformed literal.
   */
  function ParseNumber(text: string): (r: Result<real, string>)
    ensures r.Err? ==> r.error == (if text == [] then EmptyNumber else InvalidNumber)
    ensures r.Ok? <==> ParseFloat(text).Some?
    ensures r.Ok? ==> r.value == ParseFloat(text).value
  {
    if text == [] then Err(EmptyNumber)
    else match ParseFloat(text)
      case None => Err(InvalidNumber)
      case Some(v) => Ok(v)
  }

  /** A maximal run of number characters at the front is the number text. */
  lemma {:induction false} NumberTextEnds(raw: string, i: nat)
    requires i <= |raw| && forall j :: 0 <= j < i ==> IsNumberChar(raw[j])
    requires i == |raw| || !IsNumberChar(raw[i])
    ensures NumberText(raw) == raw[..i]
  {
    if i > 0 {
      NumberTextEnds(raw[1..], i - 1);
      assert raw[..i] == [raw[0]] + raw[1..][..i - 1];
    }
  }

  /** What pulling the number off `raw` yields: the value and the rest. */
  function Pulled(raw: string): Result<(real, string), string> {
    var t := NumberText(raw);
    match ParseNumber(t)
    case Err(e) => Err(e)
    case Ok(v) => Ok((v, raw[|t|..]))
  }

  /** What parsing a whole line yields. */
  function Parsed(inp: string): Result<Input, string> {
    match SplitOnce(inp, "=>")
    case None => Err(NoSeparator)
    case Some((from, to)) =>
      match Pulled(Trim(from))
      case Err(e) => Err(e)
      case Ok((num, rest)) => Ok(Input(num, rest, Trim(to)))
  }

  /**
   * Collects the leading number characters one by one, parses them, and
   * returns the value with the characters that follow.
   */
  method PullNumber(raw: string) returns (r: Result<(real, string), string>)
    ensures r == Pulled(raw)
  {
    var num := "";
    var i := 0;
    while i < |raw| && IsNumberChar(raw[i])
      invariant i <= |raw| && num == raw[..i]
      invariant forall j :: 0 <= j < i ==> IsNumberChar(raw[j])
    {
      num := num + [raw[i]];
      i := i + 1;
    }
    NumberTextEnds(raw, i);
    match ParseNumber(num)
    case Err(e) =>
      r := Err(e);
    case Ok(v) =>
      r := Ok((v, raw[i..]));
  }

  /** Splits the line at "=>" and pulls the number off the trimmed left side. */
  method FromStr(inp: string) returns (r: Result<Input, string>)
    ensures r == Parsed(inp)
  {
    match SplitOnce(inp, "=>")
    case None =>
      return Err(NoSeparator);
    case Some((from, to)) =>
      var pulled := PullNumber(Trim(from));
      match pulled
      case Err(e) =>
        return Err(e);
      case Ok((num, rest)) =>
        return Ok(Input(num, rest, Trim(to)));
  }

  /** Pulling the number splits `raw` into the number text and the rest, unchanged. */
  lemma PulledSplits(raw: string)
    ensures Pulled(raw).Ok? <==> ParseFloat(NumberText(raw)).Some?
    ensures Pulled(raw).Ok? ==> NumberText(raw) + Pulled(raw).value.1 == raw
    ensures Pulled(raw).Ok? ==> Some(Pulled(raw).value.0) == ParseFloat(NumberText(raw))
  {
    var t := NumberText(raw);
    assert t + raw[|t|..] == raw by {
      assert raw == raw[..|t|] + raw[|t|..];
    }
  }

  /** Without a leading number character the number text is empty and rejected. */
  lemma PulledNoNumber(raw: string)
    requires raw == [] || !IsNumberChar(raw[0])
    ensures Pulled(raw) == Err(EmptyNumber)
  {
    assert NumberText(raw) == [];
  }

  /** A line without "=>" is rejected with the separator message. */
  lemma MissingSeparator(inp: string)
    requires !Contains(inp, "=>")
    ensures Parsed(inp) == Err(NoSeparator)
  {
    FindNoneNotContains(inp, "=>");
  }

  /**
   * A parsed line was split at the first "=>": the target unit is the trimmed
   * text after it, and the number text followed by the source unit is the
   * trimmed text before it.
   */
  lemma ParsedSplitsAtFirstArrow(inp: string)
    requires Parsed(inp).Ok?
    ensures Find(inp, "=>").Some?
    ensures var i := Find(inp, "=>").value;
      var from := Trim(inp[..i]);
      && Parsed(inp).value.toUnit == Trim(inp[i + 2..])
      && NumberText(from) + Parsed(inp).value.fromUnit == from
      && Some(Parsed(inp).value.value) == ParseFloat(NumberText(from))
  {
    var i := Find(inp, "=>").value;
    var parts := SplitOnce(inp, "=>").value;
    assert parts.0 == inp[..i] && parts.1 == inp[i + 2..] by {
      assert inp == parts.0 + "=>" + parts.1;
      assert inp[i + 2..] == (parts.0 + "=>" + parts.1)[|parts.0| + 2..];
    }
    PulledSplits(Trim(parts.0));
  }

  /** "=>" occurs at `k` and no '=' comes before it, so the line splits at `k`. */
  lemma ArrowAt(inp: string, k: nat)
    requires k + 2 <= |inp| && inp[k..k + 2] == "=>"
    requires forall j :: 0 <= j < k ==> inp[j] != '='
    ensures Find(inp, "=>") == Some(k)
  {
    forall j | 0 <= j < k ensures !OccursAt(inp, "=>", j) {
      if j + 2 <= |inp| {
        assert inp[j..j + 2][0] == inp[j];
      }
    }
    FindFirst(inp, "=>", k);
  }

  /** The line splits at the arrow at `k` into the text before and after it. */
  lemma SplitAt(inp: string, k: nat)
    requires k + 2 <= |inp| && inp[k..k + 2] == "=>"
    requires forall j :: 0 <= j < k ==> inp[j] != '='
    ensures SplitOnce(inp, "=>") == Some((inp[..k], inp[k + 2..]))
  {
    ArrowAt(inp, k);
  }

  /** Once the line is split, the outcome depends only on the two sides. */
  lemma ParsedParts(inp: string, from: string, to: string)
    requires SplitOnce(inp, "=>") == Some((from, to))
    ensures Pulled(Trim(from)).Err? ==> Parsed(inp) == Err(Pulled(Trim(from)).error)
    ensures Pulled(Trim(from)).Ok? ==>
      Parsed(inp) == Ok(Input(Pulled(Trim(from)).value.0, Pulled(Trim(from)).value.1, Trim(to)))
  {
  }

  /** "m => ft" splits into "m " and " ft". */
  lemma UnitFirstSplit(inp: string)
    requires inp == "m => ft"
    ensures SplitOnce(inp, "=>") == Some(("m ", " ft"))
  {
    SplitAt(inp, 2);
    assert inp[..2] == "m " && inp[4..] == " ft";
  }

  /** "m " trims to "m", which has no leading number. */
  lemma UnitFirstPulled(from: string)
    requires from == "m "
    ensures Pulled(Trim(from)) == Err(EmptyNumber)
  {
    var m := from[..1];
    assert from[0] == 'm' && from[1] == ' ' && m[0] == 'm';
    assert !IsWhitespace(from[0]);
    assert TrimStart(from) == from;
    assert IsWhitespace(from[|from| - 1]);
    assert TrimEnd(from) == TrimEnd(m);
    assert !IsWhitespace(m[|m| - 1]);
    assert TrimEnd(m) == m;
    PulledNoNumber(m);
  }

  /** A left side that does not start with a number gives the empty-literal error. */
  lemma UnitFirstRejected(inp: string)
    requires inp == "m => ft"
    ensures Parsed(inp) == Err(EmptyNumber)
  {
    UnitFirstSplit(inp);
    UnitFirstPulled("m ");
    ParsedParts(inp, "m ", " ft");
  }

  /** "10 m/s => mi/h" splits into "10 m/s " and " mi/h". */
  lemma SpeedSplit(inp: string)
    requires inp == "10 m/s => mi/h"
    ensures SplitOnce(inp, "=>") == Some(("10 m/s ", " mi/h"))
  {
    SplitAt(inp, 7);
    assert inp[..7] == "10 m/s " && inp[9..] == " mi/h";
  }

  /** " mi/h" trims to "mi/h". */
  lemma SpeedTarget(to: string)
    requires to == " mi/h"
    ensures Trim(to) == "mi/h"
  {
    var rest := to[1..];
    assert IsWhitespace(to[0]) && !IsWhitespace(rest[0]) && !IsWhitespace(rest[|rest| - 1]);
    assert TrimStart(to) == TrimStart(rest) == rest;
    assert TrimEnd(rest) == rest;
  }

  /** "10 m/s " trims to "10 m/s", which gives 10 and " m/s". */
  lemma SpeedPulled(from: string)
    requires from == "10 m/s "
    ensures Pulled(Trim(from)) == Ok((10.0, " m/s"))
  {
    var raw := from[..6];
    assert TrimStart(from) == from;
    assert TrimEnd(from) == TrimEnd(raw);
    assert TrimEnd(raw) == raw;
    NumberTextEnds(raw, 2);
    assert raw[..2] == "10" && raw[2..] == " m/s";
    ParseIntegerText();
  }

  /** The source unit keeps the space that separated it from the number. */
  lemma SpeedExample(inp: string)
    requires inp == "10 m/s => mi/h"
    ensures Parsed(inp) == Ok(Input(10.0, " m/s", "mi/h"))
  {
    SpeedSplit(inp);
    SpeedPulled("10 m/s ");
    SpeedTarget(" mi/h");
    ParsedParts(inp, "10 m/s ", " mi/h");
  }
}
