/** The evaluator on concrete expressions: each example is read by the
    scan into tokens and then evaluated through the reference theorem, so
    the value shown is the one the two stacks produce. */
module EvaluatorExamples {

  import opened Results
  import opened Chars
  import opened CalculateEngine
  import opened EvaluatorCorrectness
  import OperatorStack
  import ExtensionPage

  /** A literal is followed by a character that ends it. */
  predicate EndsLiteral(r: string, sep: char) {
    r == [] || !(IsDigit(r[0]) || r[0] == sep || IsWhiteSpace(r[0]))
  }

  lemma {:induction false} ScanWhole(lit: string, r: string, sep: char)
    requires forall k :: 0 <= k < |lit| ==> IsDigit(lit[k]) || lit[k] == sep
    requires EndsLiteral(r, sep) && !IsWhiteSpace(sep)
    ensures ScanLiteral(lit + r, sep) == (lit, |lit|)
    decreases |lit|
  {
    if lit == [] {
      assert lit + r == r;
    } else {
      assert (lit + r)[1..] == lit[1..] + r;
      assert (lit + r)[0] == lit[0];
      assert !IsWhiteSpace(lit[0]);
      ScanWhole(lit[1..], r, sep);
      assert [lit[0]] + lit[1..] == lit;
    }
  }

  /** A whole literal in front of the rest of the text lexes to one number. */
  lemma LexLiteral(lit: string, r: string, sep: char, ts: seq<Token>)
    requires |lit| > 0 && IsDigit(lit[0]) && !IsWhiteSpace(sep)
    requires forall k :: 0 <= k < |lit| ==> IsDigit(lit[k]) || lit[k] == sep
    requires EndsLiteral(r, sep)
    requires LiteralValue(lit, sep).Ok? && Lex(r, sep) == Ok(ts)
    ensures Lex(lit + r, sep) == Ok([Number(LiteralValue(lit, sep).value)] + ts)
  {
    ScanWhole(lit, r, sep);
    assert (lit + r)[0] == lit[0];
    assert (lit + r)[|lit|..] == r;
  }

  /** `e` is the text `s`, stated character by character. */
  predicate Spells(e: string, s: string) {
    |e| == |s| && forall i :: 0 <= i < |s| ==> e[i] == s[i]
  }

  lemma SpellsIsEquality(e: string, s: string)
    ensures Spells(e, s) <==> e == s
  {
  }

  /** Characters that are single-character tokens or one-digit literals. */
  predicate SimpleChar(c: char) {
    IsDigit(c) || c == '(' || c == ')' || c == '+' || c == '-' || c == '*' || c == '/'
  }

  function TokenOf(c: char): Token {
    if IsDigit(c) then Number((c as int - '0' as int) as real)
    else if c == '(' then Open
    else if c == ')' then Close
    else Operator(c)
  }

  /** One more character in front of a lexed rest. */
  lemma LexStep(e: string, k: nat, t: Token, ts: seq<Token>)
    requires k < |e| && SimpleChar(e[k]) && TokenOf(e[k]) == t
    requires k + 1 < |e| ==> SimpleChar(e[k + 1]) && (IsDigit(e[k]) ==> !IsDigit(e[k + 1]))
    requires Lex(e[k + 1..], '.') == Ok(ts)
    ensures Lex(e[k..], '.') == Ok([t] + ts)
  {
    var c := e[k];
    var r := e[k + 1..];
    assert [c] + r == e[k..];
    if IsDigit(c) {
      assert LiteralValue([c], '.') == Ok((c as int - '0' as int) as real) by {
        assert DigitsValue([c]) == DigitsValue([]) * 10 + (c as int - '0' as int);
      }
      LexLiteral([c], r, '.', ts);
    } else {
      assert ([c] + r)[1..] == r;
    }
  }

  lemma LexLast(e: string, t: Token)
    requires |e| > 0 && SimpleChar(e[|e| - 1]) && TokenOf(e[|e| - 1]) == t
    ensures Lex(e[|e| - 1..], '.') == Ok([t])
  {
    assert e[|e|..] == [];
    LexStep(e, |e| - 1, t, []);
    assert [t] + [] == [t];
  }

  /** "10" in front of an operator lexes to the number 10. */
  lemma LexTen(e: string, k: nat, ts: seq<Token>)
    requires k + 2 < |e| && e[k] == '1' && e[k + 1] == '0'
    requires e[k + 2] == '+' || e[k + 2] == '-' || e[k + 2] == '*' || e[k + 2] == '/'
    requires Lex(e[k + 2..], '.') == Ok(ts)
    ensures Lex(e[k..], '.') == Ok([Number(10.0)] + ts)
  {
    var lit := e[k..k + 2];
    assert lit[..1] == [lit[0]];
    assert LiteralValue(lit, '.') == Ok(10.0) by {
      assert DigitsValue(lit) == 10 * DigitsValue(lit[..1]) + 0;
      assert DigitsValue(lit[..1]) == 10 * DigitsValue(lit[..1][..0]) + 1;
    }
    assert lit + e[k + 2..] == e[k..];
    LexLiteral(lit, e[k + 2..], '.', ts);
  }

  // Sequence displays built from single elements: stated once, for any
  // element type, so that each example needs no extensional reasoning.

  lemma Nested3<T>(a: T, b: T, c: T)
    ensures [a] + ([b] + [c]) == [a, b, c] == [a] + [b] + [c]
  {
  }

  lemma Nested5<T>(a: T, b: T, c: T, d: T, f: T)
    ensures [a] + ([b] + ([c] + ([d] + [f]))) == [a, b, c, d, f]
    ensures [a] + [b] + ([c] + [d] + [f]) == [a, b, c, d, f]
    ensures [a] + [b] + [c] + [d] + [f] == [a, b, c, d, f]
  {
  }

  lemma Nested7<T>(a: T, b: T, c: T, d: T, f: T, g: T, h: T)
    ensures [a] + ([b] + ([c] + ([d] + ([f] + ([g] + [h]))))) == [a, b, c, d, f, g, h]
    ensures [a] + ([b] + [c] + [d]) + [f] + [g] + [h] == [a, b, c, d, f, g, h]
  {
  }

  lemma Nested8<T>(a: T, b: T, c: T, d: T, f: T, g: T, h: T, k: T)
    ensures [a] + ([b] + ([c] + ([d] + ([f] + ([g] + ([h] + [k])))))) == [a, b, c, d, f, g, h, k]
  {
  }

  // "2+3*4"

  lemma PrecedenceTail(e: string)
    requires Spells(e, "2+3*4")
    ensures Lex(e[2..], '.') == Ok([Number(3.0)] + ([Operator('*')] + [Number(4.0)]))
  {
    LexLast(e, Number(4.0));
    LexStep(e, 3, Operator('*'), [Number(4.0)]);
    LexStep(e, 2, Number(3.0), [Operator('*')] + [Number(4.0)]);
  }

  lemma PrecedenceTokens(e: string)
    requires Spells(e, "2+3*4")
    ensures Lex(e, '.') == Ok([Number(2.0), Operator('+'), Number(3.0), Operator('*'), Number(4.0)])
  {
    var tail := [Number(3.0)] + ([Operator('*')] + [Number(4.0)]);
    PrecedenceTail(e);
    LexStep(e, 1, Operator('+'), tail);
    LexStep(e, 0, Number(2.0), [Operator('+')] + tail);
    Nested5(Number(2.0), Operator('+'), Number(3.0), Operator('*'), Number(4.0));
    assert e[0..] == e;
  }

  /** `*` binds tighter than `+`: "2+3*4" is 14. */
  lemma PrecedenceExample(e: string)
    requires Spells(e, "2+3*4")
    ensures Evaluate(e, '.') == Ok(14.0)
  {
    PrecedenceTokens(e);
    var x := Bin('+', Lit(2.0), Bin('*', Lit(3.0), Lit(4.0)));
    Nested5(Number(2.0), Operator('+'), Number(3.0), Operator('*'), Number(4.0));
    EvaluateMatchesReference(e, '.', x);
  }

  // "(2+3)*4"

  lemma ParenthesesTail(e: string)
    requires Spells(e, "(2+3)*4")
    ensures Lex(e[3..], '.') == Ok([Number(3.0)] + ([Close] + ([Operator('*')] + [Number(4.0)])))
  {
    LexLast(e, Number(4.0));
    LexStep(e, 5, Operator('*'), [Number(4.0)]);
    LexStep(e, 4, Close, [Operator('*')] + [Number(4.0)]);
    LexStep(e, 3, Number(3.0), [Close] + ([Operator('*')] + [Number(4.0)]));
  }

  lemma ParenthesesTokens(e: string)
    requires Spells(e, "(2+3)*4")
    ensures Lex(e, '.') == Ok([Open, Number(2.0), Operator('+'), Number(3.0), Close, Operator('*'), Number(4.0)])
  {
    var tail := [Number(3.0)] + ([Close] + ([Operator('*')] + [Number(4.0)]));
    ParenthesesTail(e);
    LexStep(e, 2, Operator('+'), tail);
    LexStep(e, 1, Number(2.0), [Operator('+')] + tail);
    LexStep(e, 0, Open, [Number(2.0)] + ([Operator('+')] + tail));
    Nested7(Open, Number(2.0), Operator('+'), Number(3.0), Close, Operator('*'), Number(4.0));
    assert e[0..] == e;
  }

  /** A parenthesised group is evaluated first: "(2+3)*4" is 20. */
  lemma ParenthesesExample(e: string)
    requires Spells(e, "(2+3)*4")
    ensures Evaluate(e, '.') == Ok(20.0)
  {
    ParenthesesTokens(e);
    var x := Bin('*', Group(Bin('+', Lit(2.0), Lit(3.0))), Lit(4.0));
    Nested7(Open, Number(2.0), Operator('+'), Number(3.0), Close, Operator('*'), Number(4.0));
    EvaluateMatchesReference(e, '.', x);
  }

  // "10-3-2"

  lemma SubtractionTail(e: string)
    requires Spells(e, "10-3-2")
    ensures Lex(e[2..], '.') == Ok([Operator('-')] + ([Number(3.0)] + ([Operator('-')] + [Number(2.0)])))
  {
    LexLast(e, Number(2.0));
    LexStep(e, 4, Operator('-'), [Number(2.0)]);
    LexStep(e, 3, Number(3.0), [Operator('-')] + [Number(2.0)]);
    LexStep(e, 2, Operator('-'), [Number(3.0)] + ([Operator('-')] + [Number(2.0)]));
  }

  lemma SubtractionTokens(e: string)
    requires Spells(e, "10-3-2")
    ensures Lex(e, '.') == Ok([Number(10.0), Operator('-'), Number(3.0), Operator('-'), Number(2.0)])
  {
    SubtractionTail(e);
    LexTen(e, 0, [Operator('-')] + ([Number(3.0)] + ([Operator('-')] + [Number(2.0)])));
    Nested5(Number(10.0), Operator('-'), Number(3.0), Operator('-'), Number(2.0));
    assert e[0..] == e;
  }

  /** Subtraction groups to the left: "10-3-2" is 5, not 9. */
  lemma SubtractionExample(e: string)
    requires Spells(e, "10-3-2")
    ensures Evaluate(e, '.') == Ok(5.0)
  {
    SubtractionTokens(e);
    var x := Bin('-', Bin('-', Lit(10.0), Lit(3.0)), Lit(2.0));
    Nested5(Number(10.0), Operator('-'), Number(3.0), Operator('-'), Number(2.0));
    EvaluateMatchesReference(e, '.', x);
  }

  // "8/2/2"

  lemma DivisionTail(e: string)
    requires Spells(e, "8/2/2")
    ensures Lex(e[2..], '.') == Ok([Number(2.0)] + ([Operator('/')] + [Number(2.0)]))
  {
    LexLast(e, Number(2.0));
    LexStep(e, 3, Operator('/'), [Number(2.0)]);
    LexStep(e, 2, Number(2.0), [Operator('/')] + [Number(2.0)]);
  }

  lemma DivisionTokens(e: string)
    requires Spells(e, "8/2/2")
    ensures Lex(e, '.') == Ok([Number(8.0), Operator('/'), Number(2.0), Operator('/'), Number(2.0)])
  {
    var tail := [Number(2.0)] + ([Operator('/')] + [Number(2.0)]);
    DivisionTail(e);
    LexStep(e, 1, Operator('/'), tail);
    LexStep(e, 0, Number(8.0), [Operator('/')] + tail);
    Nested5(Number(8.0), Operator('/'), Number(2.0), Operator('/'), Number(2.0));
    assert e[0..] == e;
  }

  /** Division groups to the left: "8/2/2" is 2, not 8. */
  lemma DivisionExample(e: string)
    requires Spells(e, "8/2/2")
    ensures Evaluate(e, '.') == Ok(2.0)
  {
    DivisionTokens(e);
    var x := Bin('/', Bin('/', Lit(8.0), Lit(2.0)), Lit(2.0));
    Nested5(Number(8.0), Operator('/'), Number(2.0), Operator('/'), Number(2.0));
    EvaluateMatchesReference(e, '.', x);
  }

  // "10/0"

  lemma DivideByZeroTokens(e: string)
    requires Spells(e, "10/0")
    ensures Lex(e, '.') == Ok([Number(10.0), Operator('/'), Number(0.0)])
  {
    LexLast(e, Number(0.0));
    LexStep(e, 2, Operator('/'), [Number(0.0)]);
    LexTen(e, 0, [Operator('/')] + [Number(0.0)]);
    Nested3(Number(10.0), Operator('/'), Number(0.0));
    assert e[0..] == e;
  }

  /** "10/0" fails with the divide-by-zero error. */
  lemma DivideByZeroExample(e: string)
    requires Spells(e, "10/0")
    ensures Evaluate(e, '.') == Err(DivideByZero)
  {
    DivideByZeroTokens(e);
    var x := Bin('/', Lit(10.0), Lit(0.0));
    Nested3(Number(10.0), Operator('/'), Number(0.0));
    EvaluateMatchesReference(e, '.', x);
  }

  // Underflow

  /** A leading minus has no left operand: "-5" fails on the empty stack. */
  lemma LeadingMinusExample(e: string)
    requires Spells(e, "-5")
    ensures Evaluate(e, '.') == Err(StackEmpty)
  {
    LexLast(e, Number(5.0));
    LexStep(e, 0, Operator('-'), [Number(5.0)]);
    assert e[0..] == e;
    LexedEvaluation(e, '.', Start);
    var toks := [Operator('-')] + [Number(5.0)];
    var pushed := Stacks([], ['-']);
    assert toks[0] == Operator('-') && toks[1..] == [Number(5.0)];
    assert PopPending('-', Start) == Ok(Start);
    assert Start.ops + ['-'] == ['-'];
    assert Feed(toks[0], Start) == Ok(pushed);
    assert Feed(Number(5.0), pushed) == Ok(Stacks([5.0], ['-'])) by {
      assert pushed.values + [5.0] == [5.0];
    }
    assert Run(toks[1..], pushed) == Ok(Stacks([5.0], ['-'])) by {
      assert toks[1..][1..] == [];
    }
    assert Finish(Stacks([5.0], ['-'])) == Err(StackEmpty);
  }

  /** A `)` without its `(` fails: "1)" pops an empty operator stack. */
  lemma UnmatchedCloseExample(e: string)
    requires Spells(e, "1)")
    ensures Evaluate(e, '.') == Err(StackEmpty)
  {
    LexLast(e, Close);
    LexStep(e, 0, Number(1.0), [Close]);
    assert e[0..] == e;
    LexedEvaluation(e, '.', Start);
    var toks := [Number(1.0)] + [Close];
    assert toks[0] == Number(1.0) && toks[1] == Close;
    assert Start.values + [1.0] == [1.0];
    assert Feed(toks[0], Start) == Ok(Stacks([1.0], []));
    assert Feed(toks[1], Stacks([1.0], [])) == Err(StackEmpty);
  }

  // Single literals: white space inside a literal, and the separators

  /** A text that is one literal evaluates to the literal's value. */
  lemma SingleLiteral(e: string, sep: char, v: real)
    requires |e| > 0 && IsDigit(e[0]) && !IsWhiteSpace(sep)
    requires forall k :: 0 <= k < |e| ==> IsDigit(e[k]) || e[k] == sep
    requires LiteralValue(e, sep) == Ok(v)
    ensures Evaluate(e, sep) == Ok(v)
  {
    assert Lex([], sep) == Ok([]);
    LexLiteral(e, [], sep, []);
    assert e + [] == e;
    assert [Number(v)] + [] == [Number(v)];
    LexedEvaluation(e, sep, Start);
    assert Feed(Number(v), Start) == Ok(Stacks([v], [])) by {
      assert Start.values + [v] == [v];
    }
    assert Run([Number(v)], Start) == Ok(Stacks([v], [])) by {
      assert [Number(v)][1..] == [];
    }
  }

  /** The value of one digit character. */
  function DigitOf(c: char): nat
    requires IsDigit(c)
  {
    c as int - '0' as int
  }

  lemma TwoDigits(a: char, b: char)
    requires IsDigit(a) && IsDigit(b)
    ensures AllDigits([a, b]) && DigitsValue([a, b]) == 10 * DigitOf(a) + DigitOf(b)
  {
    assert [a, b][..1] == [a];
    assert [a][..0] == [];
    assert DigitsValue([a]) == DigitOf(a);
  }

  lemma FourDigits(a: char, b: char, c: char, d: char)
    requires IsDigit(a) && IsDigit(b) && IsDigit(c) && IsDigit(d)
    ensures AllDigits([a, b, c, d])
    ensures DigitsValue([a, b, c, d]) == 1000 * DigitOf(a) + 100 * DigitOf(b) + 10 * DigitOf(c) + DigitOf(d)
  {
    assert [a, b, c, d][..3] == [a, b, c];
    assert [a, b, c][..2] == [a, b];
    TwoDigits(a, b);
  }

  /** White-space removal, one character at a time. */
  lemma StripStep(e: string, k: nat)
    requires k < |e|
    ensures StripWhiteSpace(e[k..])
      == (if IsWhiteSpace(e[k]) then [] else [e[k]]) + StripWhiteSpace(e[k + 1..])
  {
    assert e[k..][0] == e[k] && e[k..][1..] == e[k + 1..];
  }

  /** Separator removal, one leading character at a time. */
  lemma RemoveCons(x: char, s: string, c: char)
    ensures RemoveChar([x] + s, c) == (if x == c then [] else [x]) + RemoveChar(s, c)
  {
    assert ([x] + s)[0] == x && ([x] + s)[1..] == s;
  }

  lemma EightOf<T>(t: seq<T>)
    requires |t| == 8
    ensures t == [t[0], t[1], t[2], t[3], t[4], t[5], t[6], t[7]]
  {
  }

  /** Eight characters of which only the second is the one removed. */
  lemma RemoveSecondOfEight(a: char, b: char, c: char, d: char, f: char, g: char, h: char, k: char, x: char)
    requires b == x && a != x && c != x && d != x && f != x && g != x && h != x && k != x
    ensures RemoveChar([a, b, c, d, f, g, h, k], x) == [a, c, d, f, g, h, k]
  {
    Nested8(a, b, c, d, f, g, h, k);
    RemoveCons(k, [], x);
    assert [k] + [] == [k];
    RemoveCons(h, [k], x);
    RemoveCons(g, [h] + [k], x);
    RemoveCons(f, [g] + ([h] + [k]), x);
    RemoveCons(d, [f] + ([g] + ([h] + [k])), x);
    RemoveCons(c, [d] + ([f] + ([g] + ([h] + [k]))), x);
    var rest := [c] + ([d] + ([f] + ([g] + ([h] + [k]))));
    RemoveCons(b, rest, x);
    assert [] + rest == rest;
    RemoveCons(a, [b] + rest, x);
    Nested7(a, c, d, f, g, h, k);
  }

  /** "1 000" with its space removed is "1000". */
  lemma SpacedThousandsStripped(e: string)
    requires Spells(e, "1 000")
    ensures StripWhiteSpace(e) == ['1', '0', '0', '0']
  {
    assert e[5..] == [];
    StripStep(e, 4);
    StripStep(e, 3);
    StripStep(e, 2);
    StripStep(e, 1);
    StripStep(e, 0);
    assert e[0..] == e;
    Nested5('1', '0', '0', '0', '0');
    assert [] + (['0'] + (['0'] + ['0'])) == ['0', '0', '0'];
  }

  /** White space inside a literal is dropped: "1 000" is 1000. */
  lemma SpacedThousandsExample(e: string)
    requires Spells(e, "1 000")
    ensures Evaluate(e, '.') == Ok(1000.0)
  {
    OperatorStack.WhiteSpaceIsIgnored(e, '.', Start);
    SpacedThousandsStripped(e);
    ThousandValue(['1', '0', '0', '0']);
  }

  /** The digits 1000 with no separator: the value 1000. */
  lemma ThousandValue(t: string)
    requires t == ['1', '0', '0', '0']
    ensures Evaluate(t, '.') == Ok(1000.0)
  {
    FourDigits('1', '0', '0', '0');
    assert IndexOf(t, '.') == None;
    SingleLiteral(t, '.', 1000.0);
  }

  /** Digits 1234, the decimal separator, digits 56: the value 1234.56. */
  lemma DecimalValue(t: string, sep: char)
    requires t == ['1', '2', '3', '4', sep, '5', '6'] && !IsDigit(sep) && !IsWhiteSpace(sep)
    ensures Evaluate(t, sep) == Ok(1234.56)
  {
    assert IndexOf(t, sep) == Some(4);
    assert t[..4] == ['1', '2', '3', '4'] && t[5..] == ['5', '6'];
    FourDigits('1', '2', '3', '4');
    TwoDigits('5', '6');
    assert Pow10(2) == 100;
    assert LiteralValue(t, sep) == Ok(1234.56);
    SingleLiteral(t, sep, 1234.56);
  }

  /** "1,234.56" without its `,` is "1234.56". */
  lemma GroupCommaRemoved(e: string)
    requires Spells(e, "1,234.56")
    ensures RemoveChar(e, ',') == ['1', '2', '3', '4', '.', '5', '6']
  {
    EightOf(e);
    assert e[0] == '1' && e[1] == ',' && e[2] == '2' && e[3] == '3';
    assert e[4] == '4' && e[5] == '.' && e[6] == '5' && e[7] == '6';
    RemoveSecondOfEight(e[0], e[1], e[2], e[3], e[4], e[5], e[6], e[7], ',');
  }

  /** "1.234,56" without its `.` is "1234,56". */
  lemma GroupPointRemoved(e: string)
    requires Spells(e, "1.234,56")
    ensures RemoveChar(e, '.') == ['1', '2', '3', '4', ',', '5', '6']
  {
    EightOf(e);
    assert e[0] == '1' && e[1] == '.' && e[2] == '2' && e[3] == '3';
    assert e[4] == '4' && e[5] == ',' && e[6] == '5' && e[7] == '6';
    RemoveSecondOfEight(e[0], e[1], e[2], e[3], e[4], e[5], e[6], e[7], '.');
  }

  /** Under the separator setting 1 the page strips `,` and reads `.` as
      the decimal point: "1,234.56" is 1234.56. */
  lemma DecimalPointExample(e: string, culture: ExtensionPage.Separators)
    requires Spells(e, "1,234.56")
    ensures var seps := ExtensionPage.GetNumberFormatInfo(1, culture);
      Evaluate(RemoveChar(e, seps.groupSep), seps.decimalSep) == Ok(1234.56)
  {
    GroupCommaRemoved(e);
    DecimalValue(['1', '2', '3', '4', '.', '5', '6'], '.');
  }

  /** Under the separator setting 2 the roles swap: "1.234,56" is 1234.56. */
  lemma DecimalCommaExample(e: string, culture: ExtensionPage.Separators)
    requires Spells(e, "1.234,56")
    ensures var seps := ExtensionPage.GetNumberFormatInfo(2, culture);
      Evaluate(RemoveChar(e, seps.groupSep), seps.decimalSep) == Ok(1234.56)
  {
    GroupPointRemoved(e);
    DecimalValue(['1', '2', '3', '4', ',', '5', '6'], ',');
  }
}
