/**
 * Rendering a number with a substitute character set, used to print
 * exponents as superscripts: each digit of the decimal rendering becomes
 * the character at that digit's position in the set, '.' the eleventh and
 * '-' the twelfth. Not-a-number and the infinities have fixed texts.
 */
module Misc {
  import opened Wrappers

  /**
   * A number as the renderer sees it: not-a-number, an infinity, or a finite
   * value given by its decimal rendering.
   */
  datatype Num = NaN | Infinite(negative: bool) | Finite(decimal: string)

  /** ⁰ ¹ ² ³ ⁴ ⁵ ⁶ ⁷ ⁸ ⁹, a space for '.', and ⁻. */
  const SuperscriptCharset: seq<char> :=
    ['\U{2070}', '\U{00B9}', '\U{00B2}', '\U{00B3}', '\U{2074}', '\U{2075}',
     '\U{2076}', '\U{2077}', '\U{2078}', '\U{2079}', ' ', '\U{207B}']

  /** The character one character of the decimal rendering becomes; None where it panics. */
  function MapChar(c: char, chars: seq<char>): (r: Option<char>)
    requires |chars| == 12
    ensures r.None? <==> !('0' <= c <= '9' || c == '.' || c == '-')
  {
    if c == '.' then Some(chars[10])
    else if c == '-' then Some(chars[11])
    else if '0' <= c <= '9' then Some(chars[c as int - '0' as int])
    else None
  }

  /** The rendering of `decimal` character by character; None if any character panics. */
  function MapAll(decimal: string, chars: seq<char>): (r: Option<string>)
    requires |chars| == 12
    ensures r.None? <==> exists i :: 0 <= i < |decimal| && MapChar(decimal[i], chars).None?
    ensures r.Some? ==> |r.value| == |decimal|
    ensures r.Some? ==> forall i :: 0 <= i < |decimal| ==> MapChar(decimal[i], chars) == Some(r.value[i])
  {
    if decimal == [] then Some([])
    else
      match MapChar(decimal[0], chars)
      case None => None
      case Some(c) =>
        var rest := MapAll(decimal[1..], chars);
        assert rest.None? ==> exists i :: 0 <= i < |decimal| && MapChar(decimal[i], chars).None? by {
          if rest.None? {
            var i :| 0 <= i < |decimal[1..]| && MapChar(decimal[1..][i], chars).None?;
            assert decimal[i + 1] == decimal[1..][i];
          }
        }
        assert rest.Some? ==> forall i :: 0 <= i < |decimal| ==> MapChar(decimal[i], chars).Some? by {
          if rest.Some? {
            forall i | 0 <= i < |decimal| ensures MapChar(decimal[i], chars).Some? {
              if i > 0 { assert decimal[i] == decimal[1..][i - 1]; }
            }
          }
        }
        match rest
        case None => None
        case Some(s) =>
          assert forall i :: 1 <= i < |decimal| ==> decimal[i] == decimal[1..][i - 1];
          Some([c] + s)
  }

  /** The text a number renders to with `chars`; None where the renderer panics. */
  function ToStringWithChars(n: Num, chars: seq<char>): (r: Option<string>)
    requires |chars| == 12
    ensures n.NaN? ==> r == Some("NaN")
    ensures n.Infinite? ==> r == Some("inf")
  {
    match n
    case NaN => Some("NaN")
    case Infinite(_) => Some("inf")
    case Finite(decimal) => MapAll(decimal, chars)
  }

  /** No character appears twice in `chars`. */
  predicate Distinct(chars: seq<char>) {
    forall i, j :: 0 <= i < j < |chars| ==> chars[i] != chars[j]
  }

  /** The decimal character a rendered character stands for, by its position in `chars`. */
  function UnmapChar(c: char, chars: seq<char>): (r: Option<char>)
    requires |chars| == 12
  {
    if c == chars[0] then Some('0') else if c == chars[1] then Some('1')
    else if c == chars[2] then Some('2') else if c == chars[3] then Some('3')
    else if c == chars[4] then Some('4') else if c == chars[5] then Some('5')
    else if c == chars[6] then Some('6') else if c == chars[7] then Some('7')
    else if c == chars[8] then Some('8') else if c == chars[9] then Some('9')
    else if c == chars[10] then Some('.') else if c == chars[11] then Some('-')
    else None
  }

  /** Reads a rendered text back, character by character. */
  function UnmapAll(s: string, chars: seq<char>): (r: Option<string>)
    requires |chars| == 12
  {
    if s == [] then Some([])
    else match (UnmapChar(s[0], chars), UnmapAll(s[1..], chars))
      case (Some(c), Some(rest)) => Some([c] + rest)
      case _ => None
  }

  /** With distinct characters, one rendered character is read back as the original. */
  lemma UnmapMapChar(c: char, chars: seq<char>)
    requires |chars| == 12 && Distinct(chars) && MapChar(c, chars).Some?
    ensures UnmapChar(MapChar(c, chars).value, chars) == Some(c)
  {
    var k := if c == '.' then 10 else if c == '-' then 11 else c as int - '0' as int;
    assert MapChar(c, chars).value == chars[k];
    assert forall j :: 0 <= j < 12 && j != k ==> chars[j] != chars[k];
  }

  /** With distinct characters the rendering can be read back: nothing is lost. */
  lemma {:induction false} RenderingReversible(decimal: string, chars: seq<char>)
    requires |chars| == 12 && Distinct(chars) && MapAll(decimal, chars).Some?
    ensures UnmapAll(MapAll(decimal, chars).value, chars) == Some(decimal)
  {
    if decimal != [] {
      var s := MapAll(decimal, chars).value;
      UnmapMapChar(decimal[0], chars);
      RenderingReversible(decimal[1..], chars);
      assert s == [MapChar(decimal[0], chars).value] + MapAll(decimal[1..], chars).value;
      assert s[1..] == MapAll(decimal[1..], chars).value;
      assert decimal == [decimal[0]] + decimal[1..];
    }
  }

  /** The superscript characters are distinct, so superscript renderings can be read back. */
  lemma SuperscriptDistinct()
    ensures |SuperscriptCharset| == 12 && Distinct(SuperscriptCharset)
  {
  }

  /** With the superscript set '.' becomes a space and '-' becomes ⁻. */
  lemma SuperscriptExample(n: Num)
    requires n == Finite("-2.5")
    ensures ToStringWithChars(n, SuperscriptCharset) == Some("\U{207B}\U{00B2} \U{2075}")
  {
    var d := n.decimal;
    var r := MapAll(d, SuperscriptCharset).value;
    assert MapChar(d[0], SuperscriptCharset) == Some('\U{207B}');
    assert MapChar(d[1], SuperscriptCharset) == Some('\U{00B2}');
    assert MapChar(d[2], SuperscriptCharset) == Some(' ');
    assert MapChar(d[3], SuperscriptCharset) == Some('\U{2075}');
    assert r == [r[0], r[1], r[2], r[3]];
  }

  /** A character outside digits, '.' and '-' (an exponent 'e', say) makes the renderer panic. */
  lemma OtherCharacterPanics(decimal: string, chars: seq<char>, i: int)
    requires |chars| == 12 && 0 <= i < |decimal|
    requires !('0' <= decimal[i] <= '9' || decimal[i] == '.' || decimal[i] == '-')
    ensures ToStringWithChars(Finite(decimal), chars).None?
  {
  }
}
