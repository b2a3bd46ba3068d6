/**
 * The front end of unit expressions such as "m/s^2": a character scanner
 * (`Tokenizer`) that turns the text into a flat token list, expanding
 * `u^n` into n copies of `u` joined by multiplications, and a
 * shunting-yard pass (`Treeifier`) that puts the tokens in reverse Polish
 * order. A panic of the source is a `false` result here.
 */
module DimensionalAnalysis {
  import opened Wrappers
  import opened Strings
  import opened Numbers

  datatype Token =
    | Unit(text: string)
    | Div
    | Mul
    | Group(items: seq<Token>)
    | Tree(op: Op, left: Token, right: Token)

  datatype Op = Nop | Mul | Div

  /** Binding strength of an operator; multiplication and division share one level. */
  function Precedence(op: Op): nat {
    match op
    case Nop => 0
    case Mul => 2
    case Div => 2
  }

  /** `Into<Token> for Op`; `None` is the panic on `Nop`. */
  function IntoToken(op: Op): (r: Option<Token>)
    ensures r.None? <==> op == Op.Nop
  {
    match op
    case Nop => None
    case Mul => Some(Token.Mul)
    case Div => Some(Token.Div)
  }

  /** The operator a token stands for, if it is one. */
  function TokenOp(t: Token): Option<Op> {
    match t
    case Mul => Some(Op.Mul)
    case Div => Some(Op.Div)
    case _ => None
  }

  /** `IntoToken` and `TokenOp` are inverse on the operators that have a token. */
  lemma IntoTokenRoundTrip(op: Op, t: Token)
    ensures IntoToken(op) == Some(t) ==> TokenOp(t) == Some(op)
    ensures TokenOp(t) == Some(op) ==> IntoToken(op) == Some(t)
  {
  }

  // ---------------------------------------------------------------------
  // Tokenizer
  // ---------------------------------------------------------------------

  /** What flushing a buffer appends: one unit holding its text, or nothing when it is empty. */
  function Flushed(buffer: string): (r: seq<Token>)
    ensures buffer == [] <==> r == []
  {
    if buffer == [] then [] else [Unit(buffer)]
  }

  predicate IsExponentChar(c: char) {
    IsAsciiDigit(c) || c == '-'
  }

  /** The run of digits and '-' that starts at `i`. */
  function RunFrom(chars: seq<char>, i: nat): (r: string)
    ensures r == [] || i + |r| <= |chars|
    decreases |chars| - i
  {
    if i < |chars| && IsExponentChar(chars[i]) then [chars[i]] + RunFrom(chars, i + 1) else []
  }

  /** `RunFrom` is the maximal run: it is the text at `i`, all digits and '-', and the next character is neither. */
  lemma {:induction false} RunFromMaximal(chars: seq<char>, i: nat)
    requires i <= |chars|
    ensures i + |RunFrom(chars, i)| <= |chars|
    ensures RunFrom(chars, i) == chars[i..i + |RunFrom(chars, i)|]
    ensures forall k :: 0 <= k < |RunFrom(chars, i)| ==> IsExponentChar(RunFrom(chars, i)[k])
    ensures i + |RunFrom(chars, i)| == |chars| || !IsExponentChar(chars[i + |RunFrom(chars, i)|])
    decreases |chars| - i
  {
    if i < |chars| && IsExponentChar(chars[i]) {
      RunFromMaximal(chars, i + 1);
    }
  }

  /**
   * The group `u^n` expands to: `n` copies of `rep` with a multiplication
   * between neighbours, and a single copy when `n <= 1`.
   */
  function Expand(rep: Token, n: int): seq<Token>
    decreases n
  {
    if n <= 1 then [rep] else Expand(rep, n - 1) + [Token.Mul, rep]
  }

  lemma {:induction false} ExpandShape(rep: Token, n: int)
    ensures |Expand(rep, n)| == 2 * (if n <= 1 then 1 else n) - 1
    ensures forall k :: 0 <= k < |Expand(rep, n)| ==> Expand(rep, n)[k] == (if k % 2 == 0 then rep else Token.Mul)
    decreases n
  {
    if n > 1 {
      ExpandShape(rep, n - 1);
    }
  }

  /**
   * The effect of the '^' at position `i`: the position after the exponent
   * and the new token list, where the last token has become a group. `None`
   * when the source panics: the exponent text is not an `i8`, no token
   * precedes the '^', or the exponent is negative (the capacity
   * `exp as usize * 2` overflows).
   */
  function Caret(chars: seq<char>, i: nat, tokens: seq<Token>, buffer: string): (r: Option<(nat, seq<Token>)>)
    requires i < |chars|
    ensures r.Some? ==> i < r.value.0 <= |chars|
  {
    var flushed := tokens + Flushed(buffer);
    var run := RunFrom(chars, i + 1);
    match ParseI8(run)
    case None => None
    case Some(exp) =>
      if flushed == [] || exp < 0 then None
      else Some((i + 1 + |run|, flushed[..|flushed| - 1] + [Group(Expand(flushed[|flushed| - 1], exp))]))
  }

  /**
   * What `tokenize` produces from position `i` of `chars`, given the tokens
   * and buffer built so far; `None` when it panics.
   */
  function Scan(chars: seq<char>, i: nat, tokens: seq<Token>, buffer: string): Option<seq<Token>>
    decreases |chars| - i
  {
    if i >= |chars| then Some(tokens + Flushed(buffer))
    else if chars[i] == '/' then Scan(chars, i + 1, tokens + Flushed(buffer) + [Token.Div], [])
    else if chars[i] == '*' then Scan(chars, i + 1, tokens + Flushed(buffer) + [Token.Mul], [])
    else if chars[i] == '^' then
      match Caret(chars, i, tokens, buffer)
      case None => None
      case Some((j, ts)) => Scan(chars, j, ts, [])
    else Scan(chars, i + 1, tokens, buffer + [chars[i]])
  }

  /** The tokens of a whole input. */
  function Tokens(input: string): Option<seq<Token>> {
    Scan(input, 0, [], [])
  }

  class Tokenizer {
    var chars: seq<char>
    var index: nat
    var tokens: seq<Token>
    var buffer: string

    constructor (input: string)
      ensures chars == input && index == 0 && tokens == [] && buffer == []
    {
      chars := input;
      index := 0;
      tokens := [];
      buffer := [];
    }

    /** Ends the pending identifier: it becomes one unit token and the buffer empties. */
    method FlushBuffer()
      modifies this
      ensures tokens == old(tokens) + Flushed(old(buffer)) && buffer == []
      ensures chars == old(chars) && index == old(index)
    {
      if buffer == [] {
        return;
      }
      tokens := tokens + [Unit(buffer)];
      buffer := [];
    }

    /** The pending identifier is flushed before the operator is appended. */
    method AddToken(token: Token)
      modifies this
      ensures tokens == old(tokens) + Flushed(old(buffer)) + [token] && buffer == []
      ensures chars == old(chars) && index == old(index)
    {
      FlushBuffer();
      tokens := tokens + [token];
    }

    /** Reads the exponent after '^'; `None` is the panic of `unwrap` on text that is not an `i8`. */
    method TakeInt() returns (r: Option<int>)
      requires index <= |chars|
      modifies this`index
      ensures index == old(index) + |RunFrom(chars, old(index))| <= |chars|
      ensures r == ParseI8(RunFrom(chars, old(index)))
    {
      var number := [];
      ghost var start := index;
      while index < |chars|
        invariant start <= index <= |chars|
        invariant RunFrom(chars, start) == number + RunFrom(chars, index)
        invariant |number| == index - start
        decreases |chars| - index
      {
        var chr := chars[index];
        if IsAsciiDigit(chr) || chr == '-' {
          ghost var later := RunFrom(chars, index + 1);
          assert RunFrom(chars, index) == [chr] + later;
          assert number + ([chr] + later) == (number + [chr]) + later;
          number := number + [chr];
        } else {
          assert RunFrom(chars, index) == [];
          break;
        }
        index := index + 1;
      }
      assert number == RunFrom(chars, start) by {
        assert RunFrom(chars, index) == [];
        assert number + [] == number;
      }
      r := ParseI8(number);
    }

    /** The '^' just read: the last token becomes the group of its copies; `ok` is false when the source panics. */
    method Power() returns (ok: bool)
      requires 1 <= index <= |chars|
      modifies this
      ensures chars == old(chars)
      ensures ok <==> Caret(chars, old(index) - 1, old(tokens), old(buffer)).Some?
      ensures ok ==> (index, tokens) == Caret(chars, old(index) - 1, old(tokens), old(buffer)).value && buffer == []
    {
      FlushBuffer();
      var exp := TakeInt();
      if exp.None? || tokens == [] {
        return false;
      }
      var rep := tokens[|tokens| - 1];
      tokens := tokens[..|tokens| - 1];
      if exp.value < 0 {
        return false;
      }
      var group := ExpandGroup(rep, exp.value);
      tokens := tokens + [Group(group)];
      return true;
    }

    /** Scans the remaining characters; `ok` is false exactly when the source panics. */
    method Tokenize() returns (ok: bool)
      requires index <= |chars|
      modifies this
      ensures chars == old(chars)
      ensures ok <==> Scan(chars, old(index), old(tokens), old(buffer)).Some?
      ensures ok ==> tokens == Scan(chars, old(index), old(tokens), old(buffer)).value
      ensures ok ==> buffer == [] && index == |chars|
    {
      ghost var target := Scan(chars, index, tokens, buffer);
      while index < |chars|
        invariant index <= |chars| && chars == old(chars)
        invariant Scan(chars, index, tokens, buffer) == target
        decreases |chars| - index
      {
        var chr := chars[index];
        index := index + 1;
        if chr == '/' {
          AddToken(Token.Div);
        } else if chr == '*' {
          AddToken(Token.Mul);
        } else if chr == '^' {
          ok := Power();
          if !ok {
            return;
          }
        } else {
          buffer := buffer + [chr];
        }
      }
      FlushBuffer();
      return true;
    }
  }

  /** The group loop of '^': `exp - 1` copies of `rep` each followed by `Mul`, then `rep` once more. */
  method ExpandGroup(rep: Token, exp: int) returns (group: seq<Token>)
    ensures group == Expand(rep, exp)
  {
    group := [];
    var k := 1;
    while k < exp
      invariant 1 <= k && (k <= exp || k == 1)
      invariant group + [rep] == Expand(rep, k)
    {
      group := group + [rep, Token.Mul];
      k := k + 1;
    }
    group := group + [rep];
  }

  // ---------------------------------------------------------------------
  // Properties of the scanner
  // ---------------------------------------------------------------------

  predicate IsIdentChar(c: char) {
    c != '/' && c != '*'
  }

  /** The texts of the unit tokens, concatenated in order. */
  function UnitText(ts: seq<Token>): string {
    if ts == [] then [] else (if ts[0].Unit? then ts[0].text else []) + UnitText(ts[1..])
  }

  /** The operators, in order. */
  function Operators(ts: seq<Token>): seq<Token> {
    if ts == [] then [] else (if ts[0].Div? || ts[0].Mul? then [ts[0]] else []) + Operators(ts[1..])
  }

  /** The operator tokens the characters '/' and '*' of `s` stand for, in order. */
  function OperatorChars(s: string): seq<Token> {
    if s == [] then []
    else (if s[0] == '/' then [Token.Div] else if s[0] == '*' then [Token.Mul] else []) + OperatorChars(s[1..])
  }

  /** Only units, divisions and multiplications, and no unit with empty text. */
  predicate Flat(ts: seq<Token>) {
    forall k :: 0 <= k < |ts| ==> (ts[k].Unit? && ts[k].text != []) || ts[k].Div? || ts[k].Mul?
  }

  lemma {:induction false} UnitTextAppend(ts: seq<Token>, t: seq<Token>)
    ensures UnitText(ts + t) == UnitText(ts) + UnitText(t)
  {
    if ts == [] {
      assert ts + t == t;
    } else {
      var head := if ts[0].Unit? then ts[0].text else [];
      assert (ts + t)[0] == ts[0] && (ts + t)[1..] == ts[1..] + t;
      assert UnitText(ts + t) == head + UnitText(ts[1..] + t);
      UnitTextAppend(ts[1..], t);
      assert head + (UnitText(ts[1..]) + UnitText(t)) == (head + UnitText(ts[1..])) + UnitText(t);
    }
  }

  lemma {:induction false} OperatorsAppend(ts: seq<Token>, t: seq<Token>)
    ensures Operators(ts + t) == Operators(ts) + Operators(t)
  {
    if ts == [] {
      assert ts + t == t;
    } else {
      var head := if ts[0].Div? || ts[0].Mul? then [ts[0]] else [];
      assert (ts + t)[0] == ts[0] && (ts + t)[1..] == ts[1..] + t;
      assert Operators(ts + t) == head + Operators(ts[1..] + t);
      OperatorsAppend(ts[1..], t);
      assert head + (Operators(ts[1..]) + Operators(t)) == (head + Operators(ts[1..])) + Operators(t);
    }
  }

  /** Flushing adds the buffer to the unit text and no operator; a non-empty buffer keeps the list flat. */
  lemma FlushFacts(tokens: seq<Token>, buffer: string)
    ensures UnitText(tokens + Flushed(buffer)) == UnitText(tokens) + buffer
    ensures Operators(tokens + Flushed(buffer)) == Operators(tokens)
    ensures Flat(tokens) ==> Flat(tokens + Flushed(buffer))
  {
    UnitTextAppend(tokens, Flushed(buffer));
    OperatorsAppend(tokens, Flushed(buffer));
    if buffer != [] {
      assert Flushed(buffer)[1..] == [];
    }
  }

  /** The token of an operator character. */
  function OperatorToken(c: char): Token {
    if c == '/' then Token.Div else Token.Mul
  }

  /** The scan of text without '^': units split at '/' and '*'. */
  function Lex(chars: seq<char>, i: nat, tokens: seq<Token>, buffer: string): seq<Token>
    decreases |chars| - i
  {
    if i >= |chars| then tokens + Flushed(buffer)
    else if chars[i] == '/' || chars[i] == '*' then Lex(chars, i + 1, tokens + Flushed(buffer) + [OperatorToken(chars[i])], [])
    else Lex(chars, i + 1, tokens, buffer + [chars[i]])
  }

  /** Without '^' the scan never panics and is the plain split `Lex`. */
  lemma {:induction false} ScanWithoutCaret(chars: seq<char>, i: nat, tokens: seq<Token>, buffer: string)
    requires i <= |chars|
    requires forall j :: i <= j < |chars| ==> chars[j] != '^'
    ensures Scan(chars, i, tokens, buffer) == Some(Lex(chars, i, tokens, buffer))
    decreases |chars| - i
  {
    if i < |chars| {
      if chars[i] == '/' || chars[i] == '*' {
        ScanWithoutCaret(chars, i + 1, tokens + Flushed(buffer) + [OperatorToken(chars[i])], []);
      } else {
        ScanWithoutCaret(chars, i + 1, tokens, buffer + [chars[i]]);
      }
    }
  }

  /** An operator token adds itself to the operators and nothing to the unit text. */
  lemma AppendOperator(ts: seq<Token>, c: char)
    ensures Operators(ts + [OperatorToken(c)]) == Operators(ts) + [OperatorToken(c)]
    ensures UnitText(ts + [OperatorToken(c)]) == UnitText(ts)
  {
    UnitTextAppend(ts, [OperatorToken(c)]);
    OperatorsAppend(ts, [OperatorToken(c)]);
    assert [OperatorToken(c)][1..] == [];
  }

  /** `Lex` yields flat tokens. */
  lemma {:induction false} LexFlat(chars: seq<char>, i: nat, tokens: seq<Token>, buffer: string)
    requires i <= |chars| && Flat(tokens)
    ensures Flat(Lex(chars, i, tokens, buffer))
    decreases |chars| - i
  {
    FlushFacts(tokens, buffer);
    if i < |chars| {
      if chars[i] == '/' || chars[i] == '*' {
        var flushed := tokens + Flushed(buffer);
        assert Flat(flushed + [OperatorToken(chars[i])]);
        LexFlat(chars, i + 1, flushed + [OperatorToken(chars[i])], []);
      } else {
        LexFlat(chars, i + 1, tokens, buffer + [chars[i]]);
      }
    }
  }

  /** The operators of `Lex` are the text's '/' and '*' in order. */
  lemma {:induction false} LexOperators(chars: seq<char>, i: nat, tokens: seq<Token>, buffer: string)
    requires i <= |chars|
    ensures Operators(Lex(chars, i, tokens, buffer)) == Operators(tokens) + OperatorChars(chars[i..])
    decreases |chars| - i
  {
    var rest := chars[i..];
    if i == |chars| {
      assert rest == [];
      FlushFacts(tokens, buffer);
    } else {
      var c := chars[i];
      var later := OperatorChars(chars[i + 1..]);
      if c == '/' || c == '*' {
        var op := OperatorToken(c);
        var flushed := tokens + Flushed(buffer);
        assert Operators(flushed + [op]) == Operators(tokens) + [op] by {
          FlushFacts(tokens, buffer);
          AppendOperator(flushed, c);
        }
        assert OperatorChars(rest) == [op] + later by {
          assert rest[0] == c && rest[1..] == chars[i + 1..];
        }
        LexOperators(chars, i + 1, flushed + [op], []);
        assert Operators(tokens) + [op] + later == Operators(tokens) + ([op] + later);
      } else {
        assert OperatorChars(rest) == later by {
          assert rest[0] == c && rest[1..] == chars[i + 1..];
        }
        LexOperators(chars, i + 1, tokens, buffer + [c]);
      }
    }
  }

  /** The unit texts of `Lex`, concatenated, are the text with '/' and '*' removed. */
  lemma {:induction false} LexUnitText(chars: seq<char>, i: nat, tokens: seq<Token>, buffer: string)
    requires i <= |chars|
    ensures UnitText(Lex(chars, i, tokens, buffer)) == UnitText(tokens) + buffer + Filter(chars[i..], IsIdentChar)
    decreases |chars| - i
  {
    var rest := chars[i..];
    if i == |chars| {
      assert rest == [];
      FlushFacts(tokens, buffer);
    } else {
      var c := chars[i];
      var later := Filter(chars[i + 1..], IsIdentChar);
      if c == '/' || c == '*' {
        var op := OperatorToken(c);
        var flushed := tokens + Flushed(buffer);
        assert UnitText(flushed + [op]) == UnitText(tokens) + buffer by {
          FlushFacts(tokens, buffer);
          AppendOperator(flushed, c);
        }
        assert Filter(rest, IsIdentChar) == later by {
          assert rest[0] == c && rest[1..] == chars[i + 1..];
        }
        LexUnitText(chars, i + 1, flushed + [op], []);
        assert UnitText(tokens) + buffer + [] + later == UnitText(tokens) + buffer + later;
      } else {
        assert Filter(rest, IsIdentChar) == [c] + later by {
          assert rest[0] == c && rest[1..] == chars[i + 1..];
        }
        LexUnitText(chars, i + 1, tokens, buffer + [c]);
        assert UnitText(tokens) + (buffer + [c]) + later == UnitText(tokens) + buffer + ([c] + later);
      }
    }
  }

  /** The whole-input form: without '^', `tokenize` succeeds and loses nothing but the operator characters. */
  lemma TokensWithoutCaret(input: string)
    requires '^' !in input
    ensures Tokens(input).Some? && Flat(Tokens(input).value)
    ensures UnitText(Tokens(input).value) == Filter(input, IsIdentChar)
    ensures Operators(Tokens(input).value) == OperatorChars(input)
  {
    ScanWithoutCaret(input, 0, [], []);
    LexFlat(input, 0, [], []);
    LexOperators(input, 0, [], []);
    LexUnitText(input, 0, [], []);
    assert input[0..] == input;
  }

  /** '^' with nothing before it panics. */
  lemma CaretFirstPanics(input: string)
    requires input != [] && input[0] == '^'
    ensures Tokens(input).None?
  {
  }

  /** "m/s^2" is meter divided by the group second times second. */
  lemma SquaredExample()
    ensures Tokens("m/s^2") == Some([Unit("m"), Token.Div, Group([Unit("s"), Token.Mul, Unit("s")])])
  {
    var s := "m/s^2";
    var m, sec := Unit("m"), Unit("s");
    assert s[0] == 'm' && s[1] == '/' && s[2] == 's' && s[3] == '^' && s[4] == '2' && |s| == 5;
    assert RunFrom(s, 5) == [];
    assert RunFrom(s, 4) == "2";
    assert ParseI8("2") == Some(2) by {
      assert Sign("2") == (false, "2");
    }
    assert Expand(sec, 2) == [sec, Token.Mul, sec];
    var flushed := [m, Token.Div] + Flushed("s");
    assert flushed == [m, Token.Div, sec] && flushed[..2] == [m, Token.Div];
    var grouped := [m, Token.Div, Group([sec, Token.Mul, sec])];
    assert flushed[..2] + [Group(Expand(sec, 2))] == grouped;
    assert Caret(s, 3, [m, Token.Div], "s") == Some((5, grouped));
    assert Scan(s, 5, grouped, []) == Some(grouped) by {
      assert grouped + Flushed([]) == grouped;
    }
    assert [] + "s" == "s";
    assert Scan(s, 2, [m, Token.Div], []) == Scan(s, 3, [m, Token.Div], "s");
    assert [] + Flushed("m") + [Token.Div] == [m, Token.Div];
    assert Scan(s, 1, [], "m") == Scan(s, 2, [m, Token.Div], []);
    assert [] + "m" == "m";
  }

  // ---------------------------------------------------------------------
  // Treeifier: infix to reverse Polish order
  // ---------------------------------------------------------------------

  /**
   * Popping the operator stack (top last) for an incoming operator of
   * precedence `p`: every top operator whose precedence is at most `p`
   * leaves, in pop order. Yields the remaining stack and the tokens moved.
   */
  function Unwind(stack: seq<Op>, p: nat): (r: (seq<Op>, seq<Token>))
    requires Op.Nop !in stack
    ensures Op.Nop !in r.0
  {
    if stack == [] || p < Precedence(stack[|stack| - 1]) then (stack, [])
    else
      var rest := Unwind(stack[..|stack| - 1], p);
      (rest.0, [IntoToken(stack[|stack| - 1]).value] + rest.1)
  }

  /** The tokens of the stack's operators in pop order. */
  function Drain(stack: seq<Op>): seq<Token>
    requires Op.Nop !in stack
  {
    if stack == [] then [] else [IntoToken(stack[|stack| - 1]).value] + Drain(stack[..|stack| - 1])
  }

  /** A stack of multiplications and divisions is emptied by either operator: it holds that operator alone afterwards. */
  lemma {:induction false} UnwindAll(stack: seq<Op>, op: Op)
    requires Op.Nop !in stack && op != Op.Nop
    ensures Unwind(stack, Precedence(op)) == ([], Drain(stack))
  {
    if stack != [] {
      assert Op.Nop !in stack[..|stack| - 1];
      UnwindAll(stack[..|stack| - 1], op);
    }
  }

  /**
   * The output of `rpn` from the remaining tokens `ts`, given what has been
   * output and stacked so far; `None` at a group (`todo!`) or a tree
   * (`unreachable!`).
   */
  function Shunt(ts: seq<Token>, output: seq<Token>, stack: seq<Op>): Option<seq<Token>>
    requires Op.Nop !in stack
  {
    if ts == [] then Some(output + Drain(stack))
    else match ts[0]
      case Unit(_) => Shunt(ts[1..], output + [ts[0]], stack)
      case Div =>
        var (rest, moved) := Unwind(stack, Precedence(Op.Div));
        Shunt(ts[1..], output + moved, rest + [Op.Div])
      case Mul =>
        var (rest, moved) := Unwind(stack, Precedence(Op.Mul));
        Shunt(ts[1..], output + moved, rest + [Op.Mul])
      case Group(_) => None
      case Tree(_, _, _) => None
  }

  /** The reverse Polish form of a token list. */
  function Rpn(ts: seq<Token>): Option<seq<Token>> {
    Shunt(ts, [], [])
  }

  class Treeifier {
    var idx: nat
    var tokens: seq<Token>
    var output: seq<Token>
    var stack: seq<Op>

    /** Operators reach the stack only through `HandleOp` with a multiplication or a division. */
    predicate Valid()
      reads this
    {
      idx <= |tokens| && Op.Nop !in stack
    }

    constructor (tokens: seq<Token>)
      ensures Valid()
      ensures this.tokens == tokens && idx == 0 && output == [] && stack == []
    {
      idx := 0;
      this.tokens := tokens;
      output := [];
      stack := [];
    }

    /** Pops every stacked operator that binds at least as tightly as `op`, then pushes `op`. */
    method HandleOp(op: Op)
      requires Valid() && op != Op.Nop
      modifies this
      ensures Valid()
      ensures stack == Unwind(old(stack), Precedence(op)).0 + [op]
      ensures output == old(output) + Unwind(old(stack), Precedence(op)).1
      ensures idx == old(idx) && tokens == old(tokens)
    {
      if stack == [] {
        stack := stack + [op];
        return;
      }
      var precedence := Precedence(op);
      while stack != [] && precedence >= Precedence(stack[|stack| - 1])
        invariant Op.Nop !in stack && idx == old(idx) && tokens == old(tokens)
        invariant Unwind(stack, precedence).0 == Unwind(old(stack), precedence).0
        invariant output + Unwind(stack, precedence).1 == old(output) + Unwind(old(stack), precedence).1
        decreases |stack|
      {
        var top := stack[|stack| - 1];
        stack := stack[..|stack| - 1];
        output := output + [IntoToken(top).value];
      }
      stack := stack + [op];
    }

    /** Converts the remaining tokens; `ok` is false exactly when the source reaches `todo!` or `unreachable!`. */
    method Rpn() returns (ok: bool)
      requires Valid()
      modifies this
      ensures ok <==> Shunt(old(tokens)[old(idx)..], old(output), old(stack)).Some?
      ensures ok ==> output == Shunt(old(tokens)[old(idx)..], old(output), old(stack)).value
      ensures ok ==> stack == [] && idx == |tokens| && tokens == old(tokens)
    {
      ghost var target := Shunt(tokens[idx..], output, stack);
      while idx < |tokens|
        invariant Valid() && tokens == old(tokens)
        invariant Shunt(tokens[idx..], output, stack) == target
        decreases |tokens| - idx
      {
        var i := tokens[idx];
        assert tokens[idx..][0] == i && tokens[idx..][1..] == tokens[idx + 1..];
        idx := idx + 1;
        match i
        case Div => HandleOp(Op.Div);
        case Mul => HandleOp(Op.Mul);
        case Unit(_) => output := output + [i];
        case Group(_) => return false;
        case Tree(_, _, _) => return false;
      }
      assert tokens[idx..] == [];
      while stack != []
        invariant Op.Nop !in stack && idx == |tokens| && tokens == old(tokens)
        invariant target == Some(output + Drain(stack))
        decreases |stack|
      {
        var op := stack[|stack| - 1];
        assert Drain(stack) == [IntoToken(op).value] + Drain(stack[..|stack| - 1]);
        ghost var before := output;
        stack := stack[..|stack| - 1];
        output := output + [IntoToken(op).value];
        assert output + Drain(stack) == before + ([IntoToken(op).value] + Drain(stack));
      }
      return true;
    }
  }

  // ---------------------------------------------------------------------
  // Properties of the conversion
  // ---------------------------------------------------------------------

  function CountUnits(ts: seq<Token>): nat {
    if ts == [] then 0 else CountUnits(ts[1..]) + (if ts[0].Unit? then 1 else 0)
  }

  /** A unit goes straight to the output. */
  lemma ShuntUnit(text: string, rest: seq<Token>, output: seq<Token>, stack: seq<Op>)
    requires Op.Nop !in stack
    ensures Shunt([Unit(text)] + rest, output, stack) == Shunt(rest, output + [Unit(text)], stack)
  {
    assert ([Unit(text)] + rest)[1..] == rest;
  }

  /** An operator first sends every stacked multiplication and division to the output, then is stacked alone. */
  lemma ShuntOperator(op: Op, rest: seq<Token>, output: seq<Token>, stack: seq<Op>)
    requires Op.Nop !in stack && op != Op.Nop
    ensures Shunt([IntoToken(op).value] + rest, output, stack) == Shunt(rest, output + Drain(stack), [op])
  {
    var ts := [IntoToken(op).value] + rest;
    assert ts[0] == IntoToken(op).value && ts[1..] == rest;
    UnwindAll(stack, op);
    assert [] + [op] == [op];
  }

  /**
   * Shunting keeps every token: the output holds the tokens output so far,
   * the stacked operators and the remaining tokens, each exactly once.
   */
  lemma {:induction false} ShuntPermutes(ts: seq<Token>, output: seq<Token>, stack: seq<Op>)
    requires Op.Nop !in stack && Flat(ts)
    ensures Shunt(ts, output, stack).Some?
    ensures multiset(Shunt(ts, output, stack).value) == multiset(output) + multiset(Drain(stack)) + multiset(ts)
  {
    if ts != [] {
      var t, rest := ts[0], ts[1..];
      assert Flat(rest);
      assert ts == [t] + rest;
      if t.Unit? {
        ShuntUnit(t.text, rest, output, stack);
        ShuntPermutes(rest, output + [t], stack);
      } else {
        var op := TokenOp(t).value;
        assert IntoToken(op) == Some(t);
        ShuntOperator(op, rest, output, stack);
        ShuntPermutes(rest, output + Drain(stack), [op]);
        assert [op][..0] == [];
        assert Drain([op]) == [t];
      }
    }
  }

  /** `rpn` moves every token of a flat list to the output exactly once: same tokens, same length. */
  lemma RpnPermutes(ts: seq<Token>)
    requires Flat(ts)
    ensures Rpn(ts).Some?
    ensures multiset(Rpn(ts).value) == multiset(ts) && |Rpn(ts).value| == |ts|
  {
    ShuntPermutes(ts, [], []);
    assert |multiset(Rpn(ts).value)| == |multiset(ts)|;
  }

  /** An operator followed by its operand: one step of a left-to-right chain. */
  datatype Step = Step(op: Op, operand: string)

  /** `u0 op1 u1 op2 u2 ...` as tokens. */
  function Infix(first: string, steps: seq<Step>): seq<Token>
    requires forall k :: 0 <= k < |steps| ==> steps[k].op != Op.Nop
  {
    if steps == [] then [Unit(first)]
    else Infix(first, steps[..|steps| - 1]) + [IntoToken(steps[|steps| - 1].op).value, Unit(steps[|steps| - 1].operand)]
  }

  /** `u0 u1 op1 u2 op2 ...`: each operator right after its right operand, i.e. applied left to right. */
  function Postfix(first: string, steps: seq<Step>): seq<Token>
    requires forall k :: 0 <= k < |steps| ==> steps[k].op != Op.Nop
  {
    if steps == [] then [Unit(first)]
    else Postfix(first, steps[..|steps| - 1]) + [Unit(steps[|steps| - 1].operand), IntoToken(steps[|steps| - 1].op).value]
  }

  lemma {:induction false} ShuntInfix(first: string, steps: seq<Step>, more: seq<Token>, output: seq<Token>)
    requires forall k :: 0 <= k < |steps| ==> steps[k].op != Op.Nop
    ensures Shunt(Infix(first, steps) + more, output, []) ==
      (if steps == [] then Shunt(more, output + [Unit(first)], [])
       else Shunt(more, output + Postfix(first, steps)[..|Postfix(first, steps)| - 1], [steps[|steps| - 1].op]))
  {
    if steps == [] {
      ShuntUnit(first, more, output, []);
    } else {
      var init := steps[..|steps| - 1];
      var last := steps[|steps| - 1];
      var t := IntoToken(last.op).value;
      assert forall k :: 0 <= k < |init| ==> init[k].op != Op.Nop;
      var tail := [t] + ([Unit(last.operand)] + more);
      assert Infix(first, steps) + more == Infix(first, init) + tail;
      ShuntInfix(first, init, tail, output);
      var pf := Postfix(first, init);
      assert Postfix(first, steps) == pf + [Unit(last.operand), t];
      var pfs := Postfix(first, steps);
      assert pfs[..|pfs| - 1] == pf + [Unit(last.operand)];
      if init == [] {
        ShuntOperator(last.op, [Unit(last.operand)] + more, output + [Unit(first)], []);
        ShuntUnit(last.operand, more, output + [Unit(first)], [last.op]);
        assert output + [Unit(first)] + Drain([]) + [Unit(last.operand)] == output + (pf + [Unit(last.operand)]);
      } else {
        var prev := init[|init| - 1].op;
        ShuntOperator(last.op, [Unit(last.operand)] + more, output + pf[..|pf| - 1], [prev]);
        ShuntUnit(last.operand, more, output + pf[..|pf| - 1] + Drain([prev]), [last.op]);
        assert [prev][..0] == [];
        assert pf[..|pf| - 1] + Drain([prev]) == pf by {
          assert pf == Postfix(first, init[..|init| - 1]) + [Unit(init[|init| - 1].operand), IntoToken(prev).value];
        }
        assert output + pf[..|pf| - 1] + Drain([prev]) + [Unit(last.operand)] == output + (pf + [Unit(last.operand)]);
      }
    }
  }

  /** '/' and '*' are left-associative: `u0 op1 u1 op2 u2 ...` becomes `u0 u1 op1 u2 op2 ...`. */
  lemma RpnLeftAssociative(first: string, steps: seq<Step>)
    requires forall k :: 0 <= k < |steps| ==> steps[k].op != Op.Nop
    ensures Rpn(Infix(first, steps)) == Some(Postfix(first, steps))
  {
    ShuntInfix(first, steps, [], []);
    assert Infix(first, steps) + [] == Infix(first, steps);
    if steps != [] {
      var pf := Postfix(first, steps);
      var op := steps[|steps| - 1].op;
      assert [op][..0] == [];
      assert pf == Postfix(first, steps[..|steps| - 1]) + [Unit(steps[|steps| - 1].operand), IntoToken(op).value];
      assert pf[..|pf| - 1] + Drain([op]) == pf;
      assert [] + pf[..|pf| - 1] == pf[..|pf| - 1];
    } else {
      assert [] + [Unit(first)] + Drain([]) == Postfix(first, steps);
    }
  }

  /** The source's own test: m / s / s becomes m s / s /. */
  lemma MeterPerSecondSquared()
    ensures Rpn([Unit("m"), Token.Div, Unit("s"), Token.Div, Unit("s")])
         == Some([Unit("m"), Unit("s"), Token.Div, Unit("s"), Token.Div])
  {
    var steps := [Step(Op.Div, "s"), Step(Op.Div, "s")];
    assert steps[..1] == [Step(Op.Div, "s")];
    assert Infix("m", steps) == [Unit("m"), Token.Div, Unit("s"), Token.Div, Unit("s")];
    assert Postfix("m", steps) == [Unit("m"), Unit("s"), Token.Div, Unit("s"), Token.Div];
    RpnLeftAssociative("m", steps);
  }
}
