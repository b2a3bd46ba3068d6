/**
 * The Markov text generator (text_gen/src/main.rs): the input is cut into
 * words at ' ' and '\n', and each word is appended to the successor list
 * of the word before it.
 */
module TextGen {
  import opened Wrappers
  import opened Strings

  /** The characters `tokenize` splits at. */
  predicate IsSep(c: char) {
    c == ' ' || c == '\n'
  }

  function NotSep(c: char): bool {
    !IsSep(c)
  }

  /**
   * The maximal runs of non-separator characters of `s`, in order, defined
   * by how the last character extends them: a separator ends a run, another
   * character either lengthens the current run or starts a new one.
   */
  function Runs(s: string): seq<string>
    decreases |s|
  {
    if s == [] then []
    else
      var p, c := s[..|s| - 1], s[|s| - 1];
      var r := Runs(p);
      if IsSep(c) then r
      else if p != [] && !IsSep(p[|p| - 1]) && r != [] then r[..|r| - 1] + [r[|r| - 1] + [c]]
      else r + [[c]]
  }

  /** The words of `ts` written one after another. */
  function Concat(ts: seq<string>): string {
    if ts == [] then [] else Concat(ts[..|ts| - 1]) + ts[|ts| - 1]
  }

  /** A token is non-empty and holds no separator. */
  predicate IsToken(t: string) {
    t != [] && forall k :: 0 <= k < |t| ==> !IsSep(t[k])
  }

  lemma FilterSnoc(s: string, c: char)
    ensures Filter(s + [c], NotSep) == Filter(s, NotSep) + (if NotSep(c) then [c] else [])
  {
    FilterAppend(s, [c], NotSep);
  }

  /** How `Runs` continues after one more character. */
  lemma RunsSnoc(p: string, c: char)
    ensures var r := Runs(p);
      Runs(p + [c]) ==
        if IsSep(c) then r
        else if p != [] && !IsSep(p[|p| - 1]) && r != [] then r[..|r| - 1] + [r[|r| - 1] + [c]]
        else r + [[c]]
  {
    var s := p + [c];
    assert s[..|s| - 1] == p && s[|s| - 1] == c;
  }

  /** Every run is a token, and text ending in a non-separator ends inside its last run. */
  lemma {:induction false} RunsAreTokens(s: string)
    ensures forall i :: 0 <= i < |Runs(s)| ==> IsToken(Runs(s)[i])
    ensures s != [] && !IsSep(s[|s| - 1]) ==> Runs(s) != []
    decreases |s|
  {
    if s != [] {
      var p, c := s[..|s| - 1], s[|s| - 1];
      var r := Runs(p);
      RunsAreTokens(p);
      assert s == p + [c];
      RunsSnoc(p, c);
      var r' := Runs(s);
      if !IsSep(c) {
        forall i | 0 <= i < |r'| ensures IsToken(r'[i]) {
          if i < |r'| - 1 {
            assert r'[i] == r[i];
          } else if p != [] && !IsSep(p[|p| - 1]) && r != [] {
            assert IsToken(r[|r| - 1]);
            assert r'[i] == r[|r| - 1] + [c];
          }
        }
      }
    }
  }

  /** The runs written together are the input without its separators. */
  lemma ConcatSnoc(r: seq<string>, w: string)
    ensures Concat(r + [w]) == Concat(r) + w
  {
    assert (r + [w])[..|r|] == r;
  }

  lemma ConcatGrowLast(r: seq<string>, c: char)
    requires r != []
    ensures Concat(r[..|r| - 1] + [r[|r| - 1] + [c]]) == Concat(r) + [c]
  {
    var front, last := r[..|r| - 1], r[|r| - 1];
    assert r == front + [last];
    ConcatSnoc(front, last + [c]);
    ConcatSnoc(front, last);
  }

  lemma {:induction false} RunsConcat(s: string)
    ensures Concat(Runs(s)) == Filter(s, NotSep)
    decreases |s|
  {
    if s != [] {
      var p, c := s[..|s| - 1], s[|s| - 1];
      var r := Runs(p);
      RunsConcat(p);
      assert s == p + [c];
      RunsSnoc(p, c);
      FilterSnoc(p, c);
      if IsSep(c) {
      } else if p != [] && !IsSep(p[|p| - 1]) && r != [] {
        ConcatGrowLast(r, c);
      } else {
        ConcatSnoc(r, [c]);
      }
    }
  }

  /** A non-empty text without separators is a single token. */
  lemma {:induction false} RunsOfWord(w: string)
    requires IsToken(w)
    ensures Runs(w) == [w]
    decreases |w|
  {
    var p, c := w[..|w| - 1], w[|w| - 1];
    if p == [] {
      assert w == [c];
    } else {
      RunsOfWord(p);
      assert p + [c] == w;
    }
  }

  /** The tokens of the loop's state: those pushed, then the word being grown, if any. */
  function Pending(tokens: seq<string>, word: string): seq<string> {
    if word == [] then tokens else tokens + [word]
  }

  /** How the runs of the text read so far continue after one more character, from the loop's state. */
  lemma TokenizeStep(p: string, c: char, tokens: seq<string>, word: string)
    requires Runs(p) == Pending(tokens, word)
    requires word == [] <==> (p == [] || IsSep(p[|p| - 1]))
    ensures IsSep(c) ==> Runs(p + [c]) == Pending(Pending(tokens, word), [])
    ensures !IsSep(c) ==> Runs(p + [c]) == Pending(tokens, word + [c])
  {
    RunsSnoc(p, c);
    var r := Runs(p);
    if IsSep(c) {
      assert Runs(p + [c]) == r;
    } else if word != [] {
      assert r == tokens + [word];
      assert r[..|r| - 1] == tokens && r[|r| - 1] == word;
    } else {
      assert Runs(p + [c]) == r + [[c]] && word + [c] == [c];
    }
  }

  /** `tokenize`: the loop that grows `word` and pushes it at each separator. */
  method Tokenize(input: string) returns (tokens: seq<string>)
    ensures tokens == Runs(input)
  {
    tokens := [];
    var word: string := [];
    for i := 0 to |input|
      invariant Runs(input[..i]) == Pending(tokens, word)
      invariant word == [] <==> (i == 0 || IsSep(input[i - 1]))
    {
      var c := input[i];
      ghost var p := input[..i];
      assert input[..i + 1] == p + [c];
      assert i > 0 ==> p[i - 1] == input[i - 1];
      TokenizeStep(p, c, tokens, word);
      if IsSep(c) {
        if word != [] {
          tokens := tokens + [word];
          word := [];
        }
      } else {
        word := word + [c];
      }
    }
    assert input[..|input|] == input;
    if word != [] {
      tokens := tokens + [word];
    }
  }

  /** The tokens of `tokenize`: non-empty, separator-free, and together the input without separators. */
  lemma TokenizeSpec(input: string)
    ensures forall i :: 0 <= i < |Runs(input)| ==> IsToken(Runs(input)[i])
    ensures Concat(Runs(input)) == Filter(input, NotSep)
  {
    RunsAreTokens(input);
    RunsConcat(input);
  }

  lemma TwoWordsExample()
    ensures Runs("to be\n") == ["to", "be"]
  {
    RunsOfWord("to");
    RunsSnoc("to", ' ');
    assert "to" + [' '] == "to ";
    RunsSnoc("to ", 'b');
    assert "to " + ['b'] == "to b";
    assert Runs("to b") == ["to", "b"];
    RunsSnoc("to b", 'e');
    assert "to b" + ['e'] == "to be";
    assert ['b'] + ['e'] == "be";
    assert ["to", "b"][..1] == ["to"];
    assert Runs("to be") == ["to", "be"];
    RunsSnoc("to be", '\n');
    assert "to be" + ['\n'] == "to be\n";
  }

  // ----- the chain of main -----

  /** The word each token is appended after: itself for the first, else the one before. */
  function Prev(tokens: seq<string>, i: nat): string
    requires i < |tokens|
  {
    if i == 0 then tokens[0] else tokens[i - 1]
  }

  /** The successor list of `key` after the first `n` tokens have been added. */
  function Successors(tokens: seq<string>, n: nat, key: string): seq<string>
    requires n <= |tokens|
  {
    if n == 0 then []
    else Successors(tokens, n - 1, key) + (if Prev(tokens, n - 1) == key then [tokens[n - 1]] else [])
  }

  /** Some of the first `n` tokens is appended after `key`. */
  predicate Seen(tokens: seq<string>, n: nat, key: string)
    requires n <= |tokens|
  {
    exists j :: 0 <= j < n && Prev(tokens, j) == key
  }

  lemma SeenStep(tokens: seq<string>, n: nat)
    requires n < |tokens|
    ensures forall k :: Seen(tokens, n + 1, k) <==> Seen(tokens, n, k) || k == Prev(tokens, n)
  {
    forall k | Seen(tokens, n + 1, k) ensures Seen(tokens, n, k) || k == Prev(tokens, n) {
      var j :| 0 <= j < n + 1 && Prev(tokens, j) == k;
      if j < n { assert Seen(tokens, n, k); }
    }
    assert forall k :: Seen(tokens, n, k) ==> Seen(tokens, n + 1, k);
  }

  /** `m` is the chain after the first `n` tokens: keyed by the words seen, each with its successor list. */
  ghost predicate ChainUpTo(tokens: seq<string>, n: nat, m: map<string, seq<string>>)
    requires n <= |tokens|
  {
    && (forall k :: k in m <==> Seen(tokens, n, k))
    && (forall k :: k in m ==> m[k] == Successors(tokens, n, k))
    && (forall k :: k !in m ==> Successors(tokens, n, k) == [])
  }

  /** Pushing token `n` onto the list of its `Prev` gives the chain after `n + 1` tokens. */
  lemma ChainStep(tokens: seq<string>, n: nat, m: map<string, seq<string>>)
    requires n < |tokens| && ChainUpTo(tokens, n, m)
    ensures var current := Prev(tokens, n);
      ChainUpTo(tokens, n + 1, m[current := (if current in m then m[current] else []) + [tokens[n]]])
  {
    SeenStep(tokens, n);
  }

  /**
   * The chain construction of `main`: with no tokens it returns before
   * building anything; otherwise each token is pushed onto the list of the
   * running `current` word, which then becomes that token.
   */
  method BuildChain(tokens: seq<string>) returns (chain: Option<map<string, seq<string>>>)
    ensures chain.None? <==> tokens == []
    ensures chain.Some? ==> forall k :: k in chain.value <==> Seen(tokens, |tokens|, k)
    ensures chain.Some? ==> forall k :: k in chain.value ==> chain.value[k] == Successors(tokens, |tokens|, k)
  {
    if tokens == [] {
      return None;
    }
    var m: map<string, seq<string>> := map[];
    var current := tokens[0];
    for i := 0 to |tokens|
      invariant i < |tokens| ==> current == Prev(tokens, i)
      invariant ChainUpTo(tokens, i, m)
    {
      ChainStep(tokens, i, m);
      var entry := if current in m then m[current] else [];
      m := m[current := entry + [tokens[i]]];
      current := tokens[i];
    }
    chain := Some(m);
  }

  /** The successor lists of distinct `keys`, added up. */
  function Total(tokens: seq<string>, n: nat, keys: seq<string>): nat
    requires n <= |tokens|
  {
    if keys == [] then 0 else |Successors(tokens, n, keys[0])| + Total(tokens, n, keys[1..])
  }

  predicate Distinct(keys: seq<string>) {
    forall i, j :: 0 <= i < j < |keys| ==> keys[i] != keys[j]
  }

  /** Adding the `n`-th token lengthens exactly the list of its `Prev`. */
  lemma {:induction false} TotalStep(tokens: seq<string>, n: nat, keys: seq<string>)
    requires n < |tokens| && Distinct(keys)
    ensures Total(tokens, n + 1, keys) == Total(tokens, n, keys) + (if Prev(tokens, n) in keys then 1 else 0)
  {
    if keys != [] {
      TotalStep(tokens, n, keys[1..]);
      assert Prev(tokens, n) in keys <==> Prev(tokens, n) == keys[0] || Prev(tokens, n) in keys[1..];
      if Prev(tokens, n) == keys[0] {
        assert Prev(tokens, n) !in keys[1..] by {
          forall j | 0 <= j < |keys[1..]| ensures keys[1..][j] != keys[0] {
            assert keys[1..][j] == keys[j + 1];
          }
        }
      }
    }
  }

  /**
   * The successor lists together hold one entry per token: for any
   * duplicate-free listing of the chain's keys, their lengths add up to the
   * number of tokens.
   */
  lemma {:induction false} ChainHoldsEveryToken(tokens: seq<string>, n: nat, keys: seq<string>)
    requires n <= |tokens| && Distinct(keys)
    requires forall j :: 0 <= j < n ==> Prev(tokens, j) in keys
    ensures Total(tokens, n, keys) == n
  {
    if n == 0 {
      ZeroTotal(tokens, keys);
    } else {
      assert Prev(tokens, n - 1) in keys;
      calc {
        Total(tokens, n, keys);
        == { TotalStep(tokens, n - 1, keys); }
        Total(tokens, n - 1, keys) + 1;
        == { ChainHoldsEveryToken(tokens, n - 1, keys); }
        n;
      }
    }
  }

  lemma {:induction false} ZeroTotal(tokens: seq<string>, keys: seq<string>)
    ensures Total(tokens, 0, keys) == 0
  {
    if keys != [] {
      ZeroTotal(tokens, keys[1..]);
    }
  }
}
