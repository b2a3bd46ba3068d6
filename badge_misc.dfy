/**
 * The fuzzy name matching of the badge inventory (badge_inventory/src/misc.rs):
 * whitespace collapsing, the bigram (Sørensen–Dice) similarity of two
 * names, and the choice of the best-matching candidate.
 *
 * Rust measures `str::len` in UTF-8 bytes; here a name is a sequence of
 * characters, so lengths and bigrams agree with the source on ASCII names.
 */
module BadgeMisc {
  import opened Wrappers
  import opened Strings

  // ----- collapse_whitespace -----

  /** A word of `str::split_whitespace`: non-empty, no whitespace in it. */
  predicate IsWord(w: string) {
    w != [] && forall k :: 0 <= k < |w| ==> !IsWhitespace(w[k])
  }

  /** The length of the run of non-whitespace characters `t` starts with. */
  function RunLen(t: string): (n: nat)
    ensures n <= |t|
    ensures forall k :: 0 <= k < n ==> !IsWhitespace(t[k])
    ensures n == |t| || IsWhitespace(t[n])
  {
    if t == [] || IsWhitespace(t[0]) then 0 else 1 + RunLen(t[1..])
  }

  /** A run of non-whitespace ended by whitespace or the end has length `m`. */
  lemma {:induction false} RunLenIs(t: string, m: nat)
    requires m <= |t| && (forall k :: 0 <= k < m ==> !IsWhitespace(t[k]))
    requires m == |t| || IsWhitespace(t[m])
    ensures RunLen(t) == m
  {
    if m > 0 {
      RunLenIs(t[1..], m - 1);
    }
  }

  /** `s.split_whitespace()`: the maximal runs of non-whitespace characters, in order. */
  function Words(s: string): (r: seq<string>)
    decreases |s|
  {
    if s == [] then []
    else if IsWhitespace(s[0]) then Words(s[1..])
    else
      var n := RunLen(s);
      [s[..n]] + Words(s[n..])
  }

  /** Every piece `split_whitespace` yields is a word. */
  lemma {:induction false} WordsAreWords(s: string)
    ensures forall i :: 0 <= i < |Words(s)| ==> IsWord(Words(s)[i])
    decreases |s|
  {
    if s != [] && IsWhitespace(s[0]) {
      WordsAreWords(s[1..]);
    } else if s != [] {
      var n := RunLen(s);
      var w, rest := s[..n], Words(s[n..]);
      assert IsWord(w) by {
        forall k | 0 <= k < |w| ensures !IsWhitespace(w[k]) {
          assert w[k] == s[k];
        }
      }
      assert Words(s) == [w] + rest;
      WordsAreWords(s[n..]);
      forall i | 0 <= i < |Words(s)| ensures IsWord(Words(s)[i]) {
        if i > 0 {
          assert Words(s)[i] == rest[i - 1];
        }
      }
    }
  }

  /** `join(" ")`. */
  function Join(ws: seq<string>): string {
    if ws == [] then []
    else if |ws| == 1 then ws[0]
    else ws[0] + " " + Join(ws[1..])
  }

  /** The words of `s` joined by single spaces (`collapse_whitespace`). */
  function CollapseWhitespace(s: string): string {
    Join(Words(s))
  }

  /**
   * Every whitespace character of `r` is a single ' ' with a non-whitespace
   * character on both sides: no leading, trailing or doubled whitespace.
   */
  predicate Collapsed(r: string) {
    forall i :: 0 <= i < |r| && IsWhitespace(r[i]) ==>
      r[i] == ' ' && 0 < i < |r| - 1 && !IsWhitespace(r[i - 1]) && !IsWhitespace(r[i + 1])
  }

  /** Joined words start and end with their first and last word, and are collapsed. */
  lemma {:induction false} JoinShape(ws: seq<string>)
    requires forall i :: 0 <= i < |ws| ==> IsWord(ws[i])
    ensures var r := Join(ws);
      && (r == [] <==> ws == [])
      && (ws != [] ==> !IsWhitespace(r[0]) && !IsWhitespace(r[|r| - 1]))
      && Collapsed(r)
    decreases |ws|
  {
    if |ws| >= 2 {
      var w, j := ws[0], Join(ws[1..]);
      JoinShape(ws[1..]);
      var r := w + " " + j;
      assert Join(ws) == r;
      forall i | 0 <= i < |w| ensures !IsWhitespace(r[i]) {
        assert r[i] == w[i];
      }
      forall i | 0 <= i < |r| && IsWhitespace(r[i])
        ensures r[i] == ' ' && 0 < i < |r| - 1 && !IsWhitespace(r[i - 1]) && !IsWhitespace(r[i + 1])
      {
        if i == |w| {
          assert r[i - 1] == w[|w| - 1] && r[i + 1] == j[0];
        } else {
          var k := i - |w| - 1;
          assert r[i] == j[k] && r[i - 1] == (if k == 0 then ' ' else j[k - 1]);
          assert r[i + 1] == j[k + 1];
        }
      }
    }
  }

  /** Leading whitespace does not change the words. */
  lemma {:induction false} WordsAfterSpace(x: string, t: string)
    requires forall k :: 0 <= k < |x| ==> IsWhitespace(x[k])
    ensures Words(x + t) == Words(t)
    decreases |x|
  {
    if x != [] {
      assert (x + t)[1..] == x[1..] + t;
      assert (x + t)[0] == x[0];
      WordsAfterSpace(x[1..], t);
    } else {
      assert x + t == t;
    }
  }

  /** A word followed by whitespace or the end is the first word. */
  lemma WordThenRest(w: string, rest: string)
    requires IsWord(w) && (rest == [] || IsWhitespace(rest[0]))
    ensures Words(w + rest) == [w] + Words(rest)
  {
    var s := w + rest;
    assert s[..|w|] == w && s[|w|..] == rest;
    assert s[0] == w[0];
    assert RunLen(s) == |w| by {
      assert forall k :: 0 <= k < |w| ==> s[k] == w[k];
      RunLenIs(s, |w|);
    }
  }

  /** Splitting joined words gives the words back: `split_whitespace` undoes `join(" ")`. */
  lemma {:induction false} WordsJoin(ws: seq<string>)
    requires forall i :: 0 <= i < |ws| ==> IsWord(ws[i])
    ensures Words(Join(ws)) == ws
    decreases |ws|
  {
    if |ws| == 1 {
      WordThenRest(ws[0], []);
      assert ws[0] + [] == ws[0];
    } else if |ws| >= 2 {
      var w, j := ws[0], Join(ws[1..]);
      calc {
        Words(Join(ws));
        { assert Join(ws) == w + (" " + j); }
        Words(w + (" " + j));
        { WordThenRest(w, " " + j); }
        [w] + Words(" " + j);
        { WordsAfterSpace(" ", j); }
        [w] + Words(j);
        { WordsJoin(ws[1..]); }
        [w] + ws[1..];
        ws;
      }
    }
  }

  /** Collapsing keeps the word sequence and leaves collapsed text. */
  lemma CollapseWhitespaceSpec(s: string)
    ensures Words(CollapseWhitespace(s)) == Words(s)
    ensures Collapsed(CollapseWhitespace(s))
    ensures CollapseWhitespace(s) == [] <==> Words(s) == []
  {
    WordsAreWords(s);
    WordsJoin(Words(s));
    JoinShape(Words(s));
  }

  /** Collapsing twice is collapsing once. */
  lemma CollapseIdempotent(s: string)
    ensures CollapseWhitespace(CollapseWhitespace(s)) == CollapseWhitespace(s)
  {
    CollapseWhitespaceSpec(s);
  }

  // ----- similarity -----

  /** The adjacent-character pairs of `s`, `&s[i..i + 2]` for each `i`. */
  function Bigrams(s: string): (r: seq<string>)
    ensures |r| == if |s| < 2 then 0 else |s| - 1
    ensures forall i :: 0 <= i < |r| ==> r[i] == s[i..i + 2]
  {
    if |s| < 2 then [] else seq(|s| - 1, i requires 0 <= i < |s| - 1 => s[i..i + 2])
  }

  /** The size of the multiset intersection of the bigrams of `a` and `b`. */
  function SharedBigrams(a: string, b: string): nat {
    |multiset(Bigrams(a)) * multiset(Bigrams(b))|
  }

  /** An intersection is no larger than either side. */
  lemma IntersectionBound(x: multiset<string>, y: multiset<string>)
    ensures |x * y| <= |x| && |x * y| <= |y|
  {
    assert x == (x * y) + (x - y);
    assert y == (x * y) + (y - x);
  }

  /**
   * The Dice coefficient `similarity` computes: 1.0 for names equal once
   * spaces are removed, 0.0 when either space-free name is shorter than two
   * characters, and otherwise twice the shared bigrams over the two ORIGINAL
   * lengths minus two. It always lies in [0, 1] and is symmetric.
   */
  function Score(str1: string, str2: string): (r: real)
    ensures Remove(str1, ' ') == Remove(str2, ' ') ==> r == 1.0
    ensures Remove(str1, ' ') != Remove(str2, ' ') && (|Remove(str1, ' ')| < 2 || |Remove(str2, ' ')| < 2) ==> r == 0.0
    ensures 0.0 <= r <= 1.0
  {
    var a := Remove(str1, ' ');
    var b := Remove(str2, ' ');
    if a == b then 1.0
    else if |a| < 2 || |b| < 2 then 0.0
    else
      SharedBound(str1, str2, a, b);
      RatioInUnit(2 * SharedBigrams(a, b), |str1| + |str2| - 2);
      (2 * SharedBigrams(a, b)) as real / (|str1| + |str2| - 2) as real
  }

  /** Twice the shared bigrams never exceed the denominator `similarity` uses. */
  lemma SharedBound(str1: string, str2: string, a: string, b: string)
    requires a == Remove(str1, ' ') && b == Remove(str2, ' ') && |a| >= 2 && |b| >= 2
    ensures 2 * SharedBigrams(a, b) <= |str1| + |str2| - 2
  {
    IntersectionBound(multiset(Bigrams(a)), multiset(Bigrams(b)));
  }

  lemma RatioInUnit(n: int, d: int)
    requires 0 <= n <= d && 0 < d
    ensures 0.0 <= n as real / d as real <= 1.0
  {
  }

  /** The score does not depend on the order of its arguments. */
  lemma ScoreSymmetric(str1: string, str2: string)
    ensures Score(str1, str2) == Score(str2, str1)
  {
    var a, b := multiset(Bigrams(Remove(str1, ' '))), multiset(Bigrams(Remove(str2, ' ')));
    assert a * b == b * a;
  }

  /**
   * One more bigram `g` of the second name: with `left` the first name's
   * bigrams not yet matched by `seen`, `g` is matched iff a copy of it is left.
   */
  lemma MatchStep(counts: multiset<string>, seen: multiset<string>, left: multiset<string>, size: int, g: string)
    requires left == counts - seen && size == |counts * seen|
    ensures left[g] > 0 ==>
      left - multiset{g} == counts - (seen + multiset{g}) && size + 1 == |counts * (seen + multiset{g})|
    ensures left[g] == 0 ==>
      left == counts - (seen + multiset{g}) && size == |counts * (seen + multiset{g})|
  {
    if left[g] > 0 {
      assert counts * (seen + multiset{g}) == (counts * seen) + multiset{g};
    } else {
      assert counts * (seen + multiset{g}) == counts * seen;
    }
  }

  /** The first loop of `similarity`: the count of each bigram of `a`, kept in a map. */
  method CountBigrams(a: string) returns (counts: multiset<string>)
    requires |a| >= 2
    ensures counts == multiset(Bigrams(a))
  {
    ghost var ga := Bigrams(a);
    counts := multiset{};
    var i := 0;
    while i < |a| - 1
      invariant 0 <= i <= |a| - 1
      invariant counts == multiset(ga[..i])
    {
      var bigram := a[i..i + 2];
      assert ga[..i + 1] == ga[..i] + [bigram];
      counts := counts + multiset{bigram};
      i := i + 1;
    }
    assert ga[..i] == ga;
  }

  /**
   * After the first `j` bigrams of the second name: `left` holds the first
   * name's bigrams not yet matched, and `size` counts the matches.
   */
  ghost predicate MatchedSoFar(counts: multiset<string>, b: string, j: nat, left: multiset<string>, size: int) {
    && j <= |Bigrams(b)|
    && left == counts - multiset(Bigrams(b)[..j])
    && size == |counts * multiset(Bigrams(b)[..j])|
  }

  /** One more bigram of the second name, matched iff a copy of it is left. */
  lemma MatchedStep(counts: multiset<string>, b: string, j: nat, left: multiset<string>, size: int)
    requires MatchedSoFar(counts, b, j, left, size) && j < |b| - 1
    ensures var g := b[j..j + 2];
      && (left[g] > 0 ==> MatchedSoFar(counts, b, j + 1, left - multiset{g}, size + 1))
      && (left[g] == 0 ==> MatchedSoFar(counts, b, j + 1, left, size))
  {
    var gb := Bigrams(b);
    var g := b[j..j + 2];
    assert gb[..j + 1] == gb[..j] + [g];
    MatchStep(counts, multiset(gb[..j]), left, size, g);
  }

  /**
   * The second loop of `similarity`: each bigram of `b` still unmatched in
   * `counts` is matched once; the result is the size of the multiset
   * intersection.
   */
  method MatchBigrams(counts: multiset<string>, b: string) returns (intersectionSize: nat)
    requires |b| >= 2
    ensures intersectionSize == |counts * multiset(Bigrams(b))|
  {
    var left := counts;
    intersectionSize := 0;
    var j := 0;
    assert Bigrams(b)[..0] == [];
    while j < |b| - 1
      invariant MatchedSoFar(counts, b, j, left, intersectionSize)
    {
      MatchedStep(counts, b, j, left, intersectionSize);
      var bigram := b[j..j + 2];
      var count := left[bigram];
      if count > 0 {
        left := left - multiset{bigram};
        intersectionSize := intersectionSize + 1;
      }
      j := j + 1;
    }
    assert Bigrams(b)[..j] == Bigrams(b);
  }

  /** `similarity`, computing the Dice coefficient `Score` defines. */
  method Similarity(str1: string, str2: string) returns (r: real)
    ensures r == Score(str1, str2)
  {
    var a := Remove(str1, ' ');
    var b := Remove(str2, ' ');
    if a == b {
      return 1.0;
    }
    if |a| < 2 || |b| < 2 {
      return 0.0;
    }
    var firstBigrams := CountBigrams(a);
    var intersectionSize := MatchBigrams(firstBigrams, b);
    r := (2 * intersectionSize) as real / (|str1| + |str2| - 2) as real;
  }

  // ----- best -----

  /**
   * Index `k` is the one `best` picks for `a`: its score is positive, no
   * candidate scores higher, and every earlier candidate scores strictly lower.
   */
  ghost predicate IsBest<T>(a: string, b: seq<T>, transformer: T -> string, k: int) {
    && 0 <= k < |b|
    && Score(a, transformer(b[k])) > 0.0
    && (forall i :: 0 <= i < |b| ==> Score(a, transformer(b[i])) <= Score(a, transformer(b[k])))
    && (forall i :: 0 <= i < k ==> Score(a, transformer(b[i])) < Score(a, transformer(b[k])))
  }

  /** At most one index is the best. */
  lemma BestUnique<T>(a: string, b: seq<T>, transformer: T -> string, k: int, l: int)
    requires IsBest(a, b, transformer, k) && IsBest(a, b, transformer, l)
    ensures k == l
  {
  }

  /**
   * After the first `n` candidates: `best` is 0.0 and nothing scored above
   * zero when `r` is None; otherwise `r` is the first index holding the
   * greatest score so far, which is `best` and positive.
   */
  ghost predicate BestSoFar<T>(a: string, b: seq<T>, transformer: T -> string, n: nat, r: Option<nat>, best: real) {
    && n <= |b|
    && (r.None? ==> best == 0.0 && forall i :: 0 <= i < n ==> Score(a, transformer(b[i])) <= 0.0)
    && (r.Some? ==> r.value < n && best == Score(a, transformer(b[r.value])) && best > 0.0)
    && (r.Some? ==> forall i :: 0 <= i < r.value ==> Score(a, transformer(b[i])) < best)
    && (forall i :: 0 <= i < n ==> Score(a, transformer(b[i])) <= best)
  }

  /** One more candidate, taken only when it scores strictly higher. */
  lemma BestStep<T>(a: string, b: seq<T>, transformer: T -> string, n: nat, r: Option<nat>, best: real, sim: real)
    requires BestSoFar(a, b, transformer, n, r, best) && n < |b|
    requires sim == Score(a, transformer(b[n]))
    ensures sim > best ==> BestSoFar(a, b, transformer, n + 1, Some(n), sim)
    ensures sim <= best ==> BestSoFar(a, b, transformer, n + 1, r, best)
  {
  }

  /** Once every candidate is seen, the running choice is the best one. */
  lemma BestDone<T>(a: string, b: seq<T>, transformer: T -> string, r: Option<nat>, best: real)
    requires BestSoFar(a, b, transformer, |b|, r, best)
    ensures r.None? <==> forall i :: 0 <= i < |b| ==> Score(a, transformer(b[i])) <= 0.0
    ensures r.Some? ==> IsBest(a, b, transformer, r.value)
  {
  }

  /**
   * `best`: the first candidate with the strictly greatest positive score,
   * as an index into `b`, or None when the list is empty or nothing scores
   * above zero.
   */
  method Best<T>(a: string, b: seq<T>, transformer: T -> string) returns (r: Option<nat>)
    ensures r.None? <==> forall i :: 0 <= i < |b| ==> Score(a, transformer(b[i])) <= 0.0
    ensures r.Some? ==> IsBest(a, b, transformer, r.value)
  {
    var best := 0.0;
    r := None;
    var n := 0;
    while n < |b|
      invariant BestSoFar(a, b, transformer, n, r, best)
    {
      var sim := Similarity(a, transformer(b[n]));
      BestStep(a, b, transformer, n, r, best, sim);
      if sim > best {
        best := sim;
        r := Some(n);
      }
      n := n + 1;
    }
    BestDone(a, b, transformer, r, best);
  }

  /** `t(expr, a, b)`: `a` when `expr` holds, otherwise `b`. */
  function Pick<X>(expr: bool, a: X, b: X): (r: X)
    ensures expr ==> r == a
    ensures !expr ==> r == b
  {
    if expr then a else b
  }
}
