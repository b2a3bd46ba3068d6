/**
 * NUL-terminated character buffers as the C converter scans them: the text
 * of a buffer is everything before its first NUL, and the scanners move an
 * index over runs of characters of one class.
 */
module CStrings {
  import opened Strings

  /** C's `isdigit` in the "C" locale. */
  predicate IsCDigit(c: char) {
    '0' <= c <= '9'
  }

  /** Characters `read_float` skips before the number: anything but a digit or the NUL. */
  predicate BeforeNumber(c: char) {
    !IsCDigit(c) && c != '\0'
  }

  /** Characters `read_float` takes as the number. */
  predicate IsFloatChar(c: char) {
    IsCDigit(c) || c == '.'
  }

  /** Characters of a word: anything but the NUL, '=' and white space. */
  predicate IsWordChar(c: char) {
    c != '\0' && c != '=' && !IsCSpace(c)
  }

  /** The position of the first NUL: the length of the C string in `s`. */
  function Len(s: seq<char>): (n: nat)
    requires '\0' in s
    ensures n < |s| && s[n] == '\0'
    ensures forall k :: 0 <= k < n ==> s[k] != '\0'
  {
    if s[0] == '\0' then 0
    else
      assert '\0' in s[1..] by {
        var k :| 0 <= k < |s| && s[k] == '\0';
        assert s[1..][k - 1] == '\0';
      }
      var n := Len(s[1..]);
      assert forall k :: 1 <= k < n + 1 ==> s[k] == s[1..][k - 1];
      n + 1
  }

  /** A NUL at `m` with none before it is where the C string ends. */
  lemma LenAt(s: seq<char>, m: nat)
    requires m < |s| && s[m] == '\0' && forall k :: 0 <= k < m ==> s[k] != '\0'
    ensures Len(s) == m
  {
  }

  /** The text of a C string: the characters before its NUL. */
  function Text(s: seq<char>): (t: string)
    requires '\0' in s
    ensures '\0' !in t && |t| < |s|
  {
    s[..Len(s)]
  }

  /**
   * The first position at or after `k` whose character is not in the class
   * `p`, or the end of `s`: where a `while (p(s[i])) i++;` loop stops.
   */
  function ScanWhile(s: seq<char>, k: nat, p: char -> bool): (r: nat)
    requires k <= |s|
    ensures k <= r <= |s|
    ensures forall i :: k <= i < r ==> p(s[i])
    ensures r < |s| ==> !p(s[r])
    decreases |s| - k
  {
    if k == |s| || !p(s[k]) then k else ScanWhile(s, k + 1, p)
  }

  /** A loop that stopped at `j` after a run of the class stopped where `ScanWhile` says. */
  lemma ScanStops(s: seq<char>, k: nat, p: char -> bool, j: nat)
    requires k <= j < |s| && !p(s[j]) && forall i :: k <= i < j ==> p(s[i])
    ensures ScanWhile(s, k, p) == j
  {
  }

  /** `ScanWhile` over a text as over the C string holding it: the text and its NUL. */
  function Scan(t: string, k: nat, p: char -> bool): (r: nat)
    requires '\0' !in t && k <= |t| && !p('\0')
    ensures k <= r <= |t|
    ensures forall i :: k <= i < r ==> p(t[i])
    ensures r == |t| || !p(t[r])
  {
    var s := t + ['\0'];
    assert s[|t|] == '\0';
    assert forall i :: 0 <= i < |t| ==> s[i] == t[i];
    ScanWhile(s, k, p)
  }

  /**
   * A scan over a class that excludes the NUL stops in the buffer where it
   * stops in the buffer's text.
   */
  lemma {:induction false} ScanText(s: seq<char>, k: nat, p: char -> bool)
    requires '\0' in s && k <= Len(s) && !p('\0')
    ensures k <= |Text(s)| && ScanWhile(s, k, p) == Scan(Text(s), k, p)
    decreases Len(s) - k
  {
    var t := Text(s) + ['\0'];
    assert t[k] == s[k];
    if p(s[k]) {
      ScanText(s, k + 1, p);
    }
  }

  /** A text followed by a NUL is a C string whose text is that text. */
  lemma TextNul(t: string)
    requires '\0' !in t
    ensures '\0' in t + ['\0'] && Len(t + ['\0']) == |t| && Text(t + ['\0']) == t
  {
    LenAt(t + ['\0'], |t|);
  }

  /** `strncmp(a, b, n) == 0` for two C texts: the first `n` characters agree, end included. */
  function StrNEqual(a: string, b: string, n: nat): bool {
    if n == 0 then true
    else if a == [] || b == [] then a == b
    else a[0] == b[0] && StrNEqual(a[1..], b[1..], n - 1)
  }

  /** Comparing a text's own length of characters decides whether it is a prefix. */
  lemma {:induction false} StrNEqualPrefix(p: string, s: string)
    ensures StrNEqual(p, s, |p|) <==> |p| <= |s| && s[..|p|] == p
  {
    if p != [] && s != [] {
      StrNEqualPrefix(p[1..], s[1..]);
      if |p| <= |s| {
        assert s[..|p|] == [s[0]] + s[1..][..|p| - 1];
        assert p == [p[0]] + p[1..];
      }
    }
  }

  /** `starts_with(string, prefix)`: compares the prefix's length of characters. */
  function StartsWith(s: string, prefix: string): (r: bool)
    ensures r <==> |prefix| <= |s| && s[..|prefix|] == prefix
  {
    StrNEqualPrefix(prefix, s);
    StrNEqual(prefix, s, |prefix|)
  }

  /**
   * `trim_front`: counts the leading white space and moves the rest of the
   * string, NUL included, to the front of the buffer.
   */
  method TrimFront(str: array<char>)
    requires '\0' in str[..]
    modifies str
    ensures '\0' in str[..]
    ensures Text(str[..]) == old(Text(str[..])[ScanWhile(str[..], 0, IsCSpace)..])
    ensures var moved := old(Len(str[..]) - ScanWhile(str[..], 0, IsCSpace)) + 1;
      str[moved..] == old(str[moved..])
  {
    ghost var s := str[..];
    var n := Len(str[..]);
    var i := 0;
    while IsCSpace(str[i])
      invariant 0 <= i <= n
      invariant forall k :: 0 <= k < i ==> IsCSpace(s[k])
      modifies {}
      decreases n - i
    {
      i := i + 1;
    }
    ScanStops(s, 0, IsCSpace, i);
    MoveDown(str, i, n - i + 1);
    MovedText(s, str[..], i);
  }

  /** Moving a string's characters from `i` on, NUL included, to the front drops its first `i`. */
  lemma MovedText(s: seq<char>, t: seq<char>, i: nat)
    requires '\0' in s && i <= Len(s)
    requires |t| >= Len(s) - i + 1 && t[..Len(s) - i + 1] == s[i..Len(s) + 1]
    ensures '\0' in t && Text(t) == Text(s)[i..]
  {
    var n := Len(s);
    var m := n - i;
    forall k | 0 <= k <= m ensures t[k] == s[i + k] {
      assert t[k] == t[..m + 1][k];
    }
    LenAt(t, m);
    assert Text(t) == Text(s)[i..] by {
      forall k | 0 <= k < m ensures Text(t)[k] == Text(s)[i..][k] {
      }
    }
  }

  /** `memmove(str, str + from, count)`: moves `count` characters down to the front. */
  method MoveDown(str: array<char>, from: nat, count: nat)
    requires from + count <= str.Length
    modifies str
    ensures str[..count] == old(str[from..from + count])
    ensures str[count..] == old(str[count..])
  {
    ghost var s := str[..];
    var k := 0;
    while k < count
      invariant 0 <= k <= count
      invariant str[..k] == s[from..from + k]
      invariant str[k..] == s[k..]
    {
      str[k] := str[k + from];
      k := k + 1;
    }
  }

  /** `skip_whitespace`: moves the index past the white space at it. */
  method SkipWhitespace(str: array<char>, idx: nat) returns (j: nat)
    requires '\0' in str[..] && idx <= Len(str[..])
    ensures j == ScanWhile(str[..], idx, IsCSpace)
    ensures idx <= j <= Len(str[..])
  {
    j := idx;
    while IsCSpace(str[j])
      invariant idx <= j <= Len(str[..])
      invariant forall k :: idx <= k < j ==> IsCSpace(str[k])
      decreases Len(str[..]) - j
    {
      j := j + 1;
    }
    ScanStops(str[..], idx, IsCSpace, j);
  }

  /**
   * `read_float`, the scanning part: skips to the first digit (or the end),
   * then over the digits and dots. Returns where the number starts and the
   * index after it.
   */
  method ReadFloat(str: array<char>, idx: nat) returns (start: nat, j: nat)
    requires '\0' in str[..] && idx <= Len(str[..])
    ensures start == ScanWhile(str[..], idx, BeforeNumber)
    ensures j == ScanWhile(str[..], start, IsFloatChar)
    ensures idx <= start <= j <= Len(str[..])
  {
    j := idx;
    while BeforeNumber(str[j])
      invariant idx <= j <= Len(str[..])
      invariant forall k :: idx <= k < j ==> BeforeNumber(str[k])
      decreases Len(str[..]) - j
    {
      j := j + 1;
    }
    ScanStops(str[..], idx, BeforeNumber, j);
    start := j;
    while IsFloatChar(str[j])
      invariant start <= j <= Len(str[..])
      invariant forall k :: start <= k < j ==> IsFloatChar(str[k])
      decreases Len(str[..]) - j
    {
      j := j + 1;
    }
    ScanStops(str[..], start, IsFloatChar, j);
  }

  /**
   * `read_str`: skips white space, takes the word up to the NUL, '=' or white
   * space, and returns a fresh NUL-terminated copy of it with the index after it.
   */
  method ReadStr(str: array<char>, idx: nat) returns (out: array<char>, j: nat)
    requires '\0' in str[..] && idx <= Len(str[..])
    ensures var start := ScanWhile(str[..], idx, IsCSpace);
      && j == ScanWhile(str[..], start, IsWordChar)
      && start <= j <= Len(str[..])
      && out[..] == str[start..j] + ['\0']
    ensures fresh(out)
  {
    var start := SkipWhitespace(str, idx);
    j := start;
    while IsWordChar(str[j])
      invariant start <= j <= Len(str[..])
      invariant forall k :: start <= k < j ==> IsWordChar(str[k])
      decreases Len(str[..]) - j
    {
      j := j + 1;
    }
    ScanStops(str[..], start, IsWordChar, j);
    out := CopyWord(str, start, j);
  }

  /** `malloc` and `strncpy` of `read_str`: a fresh NUL-terminated copy of `str[start..end]`. */
  method CopyWord(str: array<char>, start: nat, end: nat) returns (out: array<char>)
    requires start <= end <= str.Length
    ensures fresh(out) && out[..] == str[start..end] + ['\0']
  {
    out := new char[end - start + 1];
    for k := 0 to end - start
      invariant out[..k] == str[start..start + k]
    {
      out[k] := str[start + k];
    }
    out[end - start] := '\0';
    assert out[..] == out[..end - start] + [out[end - start]];
  }

  /** The word `read_str` copies is the whole text of the copy. */
  lemma WordText(word: seq<char>)
    requires forall k :: 0 <= k < |word| ==> IsWordChar(word[k])
    ensures '\0' in word + ['\0'] && Text(word + ['\0']) == word
  {
    var s := word + ['\0'];
    LenAt(s, |word|);
  }
}
