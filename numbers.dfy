/**
 * Number parsing as the modelled programs use it: Rust's `str::parse` for
 * `i8` and for `f64`/`f32`. Values are exact: an integer as `int`, a
 * decimal as the exact `real` it denotes (rounding to the nearest float is
 * not modelled).
 */
module Numbers {
  import opened Wrappers
  import opened Strings

  predicate AllDigits(s: string) {
    forall i :: 0 <= i < |s| ==> IsAsciiDigit(s[i])
  }

  function Pow10(n: nat): (r: nat)
    ensures r >= 1
  {
    if n == 0 then 1 else 10 * Pow10(n - 1)
  }

  /** The value of a run of decimal digits, most significant first. */
  function DigitsValue(s: string): (r: nat)
    requires AllDigits(s)
    ensures r < Pow10(|s|)
  {
    if s == [] then 0
    else DigitsValue(s[..|s| - 1]) * 10 + (s[|s| - 1] as int - '0' as int)
  }

  /** Splits off one leading '+' or '-'; the flag says whether it was '-'. */
  function Sign(s: string): (r: (bool, string))
    ensures |r.1| <= |s|
  {
    if s != [] && (s[0] == '-' || s[0] == '+') then (s[0] == '-', s[1..]) else (false, s)
  }

  /**
   * Rust's `FromStr` for a signed integer, before the range check: an
   * optional sign and at least one decimal digit, nothing else.
   */
  function ParseInt(s: string): (r: Option<int>)
    ensures r.Some? ==> s != [] && s != "-" && s != "+"
  {
    var (negative, digits) := Sign(s);
    if digits != [] && AllDigits(digits) then
      var v: int := DigitsValue(digits);
      Some(if negative then -v else v)
    else None
  }

  /** `str::parse::<i8>()`: `ParseInt` restricted to -128 ..= 127. */
  function ParseI8(s: string): (r: Option<int>)
    ensures r.Some? ==> -128 <= r.value <= 127 && ParseInt(s) == r
    ensures r.None? ==> ParseInt(s).None? || ParseInt(s).value < -128 || ParseInt(s).value > 127
  {
    match ParseInt(s)
    case Some(v) => if -128 <= v <= 127 then Some(v) else None
    case None => None
  }

  /**
   * Rust's `FromStr` for `f64` and `f32` on text without letters: an
   * optional sign, then digits with at most one '.', with at least one
   * digit on either side of it. The exponent, "inf" and "NaN" forms need
   * letters and are not modelled.
   */
  function ParseFloat(s: string): (r: Option<real>)
    ensures r.Some? ==> s != [] && s != "-" && s != "." && s != "-."
  {
    var (negative, body) := Sign(s);
    var magnitude: Option<real> :=
      match Find(body, ".")
      case None =>
        if body != [] && AllDigits(body) then Some(DigitsValue(body) as real) else None
      case Some(i) =>
        var whole, fraction := body[..i], body[i + 1..];
        if |whole| + |fraction| >= 1 && AllDigits(whole) && AllDigits(fraction) then
          Some(DigitsValue(whole) as real + DigitsValue(fraction) as real / Pow10(|fraction|) as real)
        else None;
    match magnitude
    case None => None
    case Some(m) => Some(if negative then -m else m)
  }

  /** A float never parses from text holding a character other than a digit, a sign or '.'. */
  lemma ParseFloatAlphabet(s: string, i: int)
    requires 0 <= i < |s| && !IsAsciiDigit(s[i]) && s[i] != '.' && s[i] != '-' && s[i] != '+'
    ensures ParseFloat(s) == None
  {
    var (negative, body) := Sign(s);
    var j := if |body| < |s| then i - 1 else i;
    if j >= 0 {
      assert body[j] == s[i];
      FindSpec(body, ".");
      match Find(body, ".")
      case None =>
        assert !AllDigits(body);
      case Some(d) =>
        assert body[d] == '.' by { assert OccursAt(body, ".", d); }
        if j < d {
          assert body[..d][j] == body[j];
        } else {
          assert body[d + 1..][j - d - 1] == body[j];
        }
    }
  }

  lemma ParseIntegerText()
    ensures ParseFloat("10") == Some(10.0)
  {
    assert Find("10", ".") == None by {
      assert "10"[..1] == "1" && "10"[1..] == "0" && "0"[..1] == "0" && "0"[1..] == "";
    }
  }

  lemma ParseSignedDecimal()
    ensures ParseFloat("-2.5") == Some(-2.5)
  {
    assert Sign("-2.5") == (true, "2.5");
    assert Find("2.5", ".") == Some(1) by {
      assert "2.5"[0..1] == "2";
      FindFirst("2.5", ".", 1);
    }
    assert "2.5"[..1] == "2" && "2.5"[2..] == "5";
    assert DigitsValue("2") == 2 && DigitsValue("5") == 5 && Pow10(1) == 10;
  }

  lemma ParseSecondDot()
    ensures ParseFloat("1.2.3") == None
  {
    assert Find("1.2.3", ".") == Some(1) by {
      assert "1.2.3"[0..1] == "1";
      FindFirst("1.2.3", ".", 1);
    }
    assert !AllDigits("1.2.3"[2..]) by { assert "1.2.3"[2..][1] == '.'; }
  }

  lemma ParseI8Range()
    ensures ParseI8("-3") == Some(-3)
    ensures ParseI8("200") == None
    ensures ParseI8("") == None
  {
    assert Sign("-3") == (true, "3");
    assert DigitsValue("200") == 200 by {
      assert "200"[..2] == "20" && "20"[..1] == "2";
    }
  }

  /** The decimal text of an integer, with a leading '-' when it is negative. */
  function IntText(n: int): (r: string)
    ensures r != []
  {
    (if n < 0 then "-" else "") + NatToString(if n < 0 then -n else n)
  }

  /** Reading back the digits of `NatToString(n)` gives `n`. */
  lemma {:induction false} DigitsOfNat(n: nat)
    ensures AllDigits(NatToString(n)) && DigitsValue(NatToString(n)) == n
  {
    if n >= 10 {
      DigitsOfNat(n / 10);
      var s := NatToString(n);
      assert s[..|s| - 1] == NatToString(n / 10);
    }
  }

  /** The sign of an integer's text is its own, and the rest is its magnitude's digits. */
  lemma SignIntText(n: int)
    ensures Sign(IntText(n)) == (n < 0, NatToString(if n < 0 then -n else n))
  {
    var digits := NatToString(if n < 0 then -n else n);
    assert IsAsciiDigit(digits[0]);
    if n < 0 {
      assert IntText(n) == ['-'] + digits;
      assert IntText(n)[0] == '-' && IntText(n)[1..] == digits;
    } else {
      assert IntText(n) == digits;
    }
  }

  /** A run of digits holds no '.'. */
  lemma NoDotInDigits(digits: string)
    requires AllDigits(digits)
    ensures Find(digits, ".") == None
  {
    forall j ensures !OccursAt(digits, ".", j) {
      if 0 <= j && j + 1 <= |digits| {
        assert digits[j..j + 1][0] == digits[j];
      }
    }
    FindSpec(digits, ".");
  }

  /** The text of an integer parses as a float to that integer. */
  lemma ParseFloatIntText(n: int)
    ensures ParseFloat(IntText(n)) == Some(n as real)
  {
    var m: nat := if n < 0 then -n else n;
    DigitsOfNat(m);
    SignIntText(n);
    NoDotInDigits(NatToString(m));
  }
}
