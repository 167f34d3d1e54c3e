/** Facts about the evaluator's operator stack that hold for every input:
    the shape the pending operators keep (which is where precedence and
    left-to-right grouping come from), what happens to parentheses, and
    that white space never changes a result. */
module OperatorStack {

  import opened Results
  import opened Chars
  import opened CalculateEngine
  import opened EvaluatorCorrectness

  // ---------------------------------------------------------------------
  // Shape of the pending operators
  // ---------------------------------------------------------------------

  /** Every pending operator rests directly on a `(`, on the bottom of the
      stack, or is a `*`/`/` resting on a `+`/`-`. So between two
      parentheses at most one `+`/`-` and one `*`/`/` wait, never two of
      equal strength and never a `+`/`-` above a `*`/`/`. */
  predicate Layered(ops: seq<char>) {
    forall i :: 0 < i < |ops| && Level(ops[i]) >= 1 ==>
      ops[i - 1] == '(' || (Level(ops[i]) == 2 && Level(ops[i - 1]) == 1)
  }

  /** Tokens whose operators are the four arithmetic ones. */
  predicate ArithmeticTokens(toks: seq<Token>) {
    forall i :: 0 <= i < |toks| && toks[i].Operator? ==> Level(toks[i].op) >= 1
  }

  lemma {:induction false} LexIsArithmetic(rest: string, sep: char)
    requires Lex(rest, sep).Ok?
    ensures ArithmeticTokens(Lex(rest, sep).value)
    decreases |rest|
  {
    if rest != [] {
      match NextStep(rest, sep)
      case Skip =>
        LexIsArithmetic(rest[1..], sep);
      case Produce(t, n) =>
        LexIsArithmetic(rest[n..], sep);
    }
  }

  lemma LayeredPrefix(ops: seq<char>, n: nat)
    requires Layered(ops) && OpsOk(ops) && n <= |ops|
    ensures Layered(ops[..n]) && OpsOk(ops[..n])
  {
    assert forall i :: 0 <= i < n ==> ops[..n][i] == ops[i];
  }

  lemma LayeredPush(ops: seq<char>, c: char)
    requires Layered(ops) && OpsOk(ops) && (c == '(' || Level(c) >= 1)
    requires Level(c) >= 1 ==>
      |ops| == 0 || ops[|ops| - 1] == '(' || (Level(c) == 2 && Level(ops[|ops| - 1]) == 1)
    ensures Layered(ops + [c]) && OpsOk(ops + [c])
  {
    assert forall i :: 0 <= i < |ops| ==> (ops + [c])[i] == ops[i];
  }

  /** One token keeps the operator stack layered. */
  lemma FeedKeepsLayered(t: Token, s: Stacks)
    requires Layered(s.ops) && OpsOk(s.ops)
    requires t.Operator? ==> Level(t.op) >= 1
    requires Feed(t, s).Ok?
    ensures Layered(Feed(t, s).value.ops) && OpsOk(Feed(t, s).value.ops)
  {
    match t
    case Number(_) =>
    case Open =>
      LayeredPush(s.ops, '(');
    case Close =>
      var r := CloseParen(s).value;
      LayeredPrefix(s.ops, |r.ops|);
    case Operator(o) =>
      var r := PopPending(o, s).value;
      LayeredPrefix(s.ops, |r.ops|);
      LayeredPush(r.ops, o);
  }

  /** Reading any arithmetic tokens from a layered stack leaves it layered. */
  lemma {:induction false} RunKeepsLayered(toks: seq<Token>, s: Stacks)
    requires Layered(s.ops) && OpsOk(s.ops) && ArithmeticTokens(toks)
    requires Run(toks, s).Ok?
    ensures Layered(Run(toks, s).value.ops) && OpsOk(Run(toks, s).value.ops)
    decreases |toks|
  {
    if toks != [] {
      FeedKeepsLayered(toks[0], s);
      RunKeepsLayered(toks[1..], Feed(toks[0], s).value);
    }
  }

  /** Whatever text is read, every operator stack the scan reaches is
      layered. */
  lemma ScanKeepsLayered(expression: string, sep: char, k: nat)
    requires Lex(expression, sep).Ok? && k <= |Lex(expression, sep).value|
    requires Run(Lex(expression, sep).value[..k], Start).Ok?
    ensures Layered(Run(Lex(expression, sep).value[..k], Start).value.ops)
  {
    var toks := Lex(expression, sep).value;
    LexIsArithmetic(expression, sep);
    assert ArithmeticTokens(toks[..k]);
    RunKeepsLayered(toks[..k], Start);
  }

  /** An incoming `+` or `-` applies every pending operator back to the
      nearest `(`; an incoming `*` or `/` applies only pending `*` and `/`. */
  lemma IncomingOperatorPops(o: char, s: Stacks)
    requires Level(o) >= 1 && OpsOk(s.ops) && PopPending(o, s).Ok?
    ensures var r := PopPending(o, s).value.ops;
      && (|r| == 0 || r[|r| - 1] == '(' || (Level(o) == 2 && Level(r[|r| - 1]) == 1))
      && (Level(o) == 2 && |s.ops| > 0 && Level(s.ops[|s.ops| - 1]) == 1 ==> r == s.ops)
  {
  }

  // ---------------------------------------------------------------------
  // Parentheses
  // ---------------------------------------------------------------------

  function Parens(ops: seq<char>): nat {
    if ops == [] then 0
    else Parens(ops[..|ops| - 1]) + (if ops[|ops| - 1] == '(' then 1 else 0)
  }

  lemma {:induction false} ApplyTopKeepsParens(s: Stacks)
    requires |s.ops| > 0 && s.ops[|s.ops| - 1] != '(' && ApplyTop(s).Ok?
    ensures Parens(ApplyTop(s).value.ops) == Parens(s.ops)
  {
  }

  /** No operator ever pops a `(`. */
  lemma {:induction false} PopPendingKeepsParens(o: char, s: Stacks)
    requires PopPending(o, s).Ok?
    ensures Parens(PopPending(o, s).value.ops) == Parens(s.ops)
    decreases |s.ops|
  {
    if |s.ops| > 0 && HasPrecedence(o, s.ops[|s.ops| - 1]) {
      ApplyTopKeepsParens(s);
      PopPendingKeepsParens(o, ApplyTop(s).value);
    }
  }

  /** `)` removes exactly one `(`. */
  lemma {:induction false} CloseParenRemovesOne(s: Stacks)
    requires CloseParen(s).Ok?
    ensures Parens(s.ops) >= 1 && Parens(CloseParen(s).value.ops) == Parens(s.ops) - 1
    decreases |s.ops|
  {
    if |s.ops| > 0 && s.ops[|s.ops| - 1] != '(' {
      ApplyTopKeepsParens(s);
      CloseParenRemovesOne(ApplyTop(s).value);
    }
  }

  /** A `)` with no `(` pending fails. */
  lemma {:induction false} UnmatchedCloseFails(s: Stacks)
    requires Parens(s.ops) == 0
    ensures CloseParen(s).Err?
  {
    if CloseParen(s).Ok? {
      CloseParenRemovesOne(s);
    }
  }

  /** A `(` still pending at the end of the text makes the result fail. */
  lemma {:induction false} UnclosedOpenFails(s: Stacks)
    requires Parens(s.ops) > 0
    ensures Drain(s).Err? && Finish(s).Err?
    decreases |s.ops|
  {
    if |s.ops| > 0 && s.ops[|s.ops| - 1] != '(' && ApplyTop(s).Ok? {
      ApplyTopKeepsParens(s);
      UnclosedOpenFails(ApplyTop(s).value);
    }
  }

  /** Reading tokens at nesting depth `d` never closes more groups than are
      open. */
  predicate NeverUnderflows(toks: seq<Token>, d: int)
    decreases |toks|
  {
    toks == [] ||
    match toks[0]
    case Open => NeverUnderflows(toks[1..], d + 1)
    case Close => d >= 1 && NeverUnderflows(toks[1..], d - 1)
    case _ => NeverUnderflows(toks[1..], d)
  }

  /** Nesting depth after reading all of `toks` from depth `d`. */
  function FinalDepth(toks: seq<Token>, d: int): int
    decreases |toks|
  {
    if toks == [] then d
    else match toks[0]
      case Open => FinalDepth(toks[1..], d + 1)
      case Close => FinalDepth(toks[1..], d - 1)
      case _ => FinalDepth(toks[1..], d)
  }

  /** Parentheses that pair up. */
  predicate Balanced(toks: seq<Token>) {
    NeverUnderflows(toks, 0) && FinalDepth(toks, 0) == 0
  }

  /** Change of nesting depth a token makes. */
  function DepthChange(t: Token): int {
    match t
    case Open => 1
    case Close => -1
    case _ => 0
  }

  lemma ParensPush(ops: seq<char>, c: char)
    ensures Parens(ops + [c]) == Parens(ops) + (if c == '(' then 1 else 0)
  {
    var t := ops + [c];
    assert t[..|t| - 1] == ops;
  }

  /** One token moves the count of pending `(` by its depth change; a `)`
      that succeeds had a `(` to close. */
  lemma FeedTracksDepth(t: Token, s: Stacks)
    requires (t.Operator? ==> Level(t.op) >= 1) && Feed(t, s).Ok?
    ensures t.Close? ==> Parens(s.ops) >= 1
    ensures Parens(Feed(t, s).value.ops) == Parens(s.ops) + DepthChange(t)
  {
    match t
    case Number(_) =>
    case Open =>
      ParensPush(s.ops, '(');
    case Close =>
      CloseParenRemovesOne(s);
    case Operator(o) =>
      PopPendingKeepsParens(o, s);
      ParensPush(PopPending(o, s).value.ops, o);
  }

  /** `NeverUnderflows` and `FinalDepth` after their first token. */
  lemma DepthStep(toks: seq<Token>, d: int, d': int)
    requires toks != [] && d' == d + DepthChange(toks[0])
    ensures NeverUnderflows(toks, d) <==> (toks[0].Close? ==> d >= 1) && NeverUnderflows(toks[1..], d')
    ensures FinalDepth(toks, d) == FinalDepth(toks[1..], d')
  {
  }

  lemma {:induction false} RunTracksDepth(toks: seq<Token>, s: Stacks)
    requires ArithmeticTokens(toks) && Run(toks, s).Ok?
    ensures NeverUnderflows(toks, Parens(s.ops))
    ensures Parens(Run(toks, s).value.ops) == FinalDepth(toks, Parens(s.ops))
    decreases |toks|
  {
    if toks != [] {
      var t := toks[0];
      var s' := Feed(t, s).value;
      FeedTracksDepth(t, s);
      assert ArithmeticTokens(toks[1..]) by {
        assert forall i :: 0 <= i < |toks| - 1 ==> toks[1..][i] == toks[i + 1];
      }
      RunTracksDepth(toks[1..], s');
      DepthStep(toks, Parens(s.ops), Parens(s'.ops));
    }
  }

  /** A successful evaluation read balanced parentheses: a `)` without its
      `(` or a `(` left open makes the evaluation fail. */
  lemma SuccessNeedsBalancedParens(expression: string, sep: char)
    requires Evaluate(expression, sep).Ok?
    ensures Lex(expression, sep).Ok? && Balanced(Lex(expression, sep).value)
  {
    if Lex(expression, sep).Err? {
      MalformedLiteralFails(expression, sep, Start);
    } else {
      var toks := Lex(expression, sep).value;
      LexedEvaluation(expression, sep, Start);
      LexIsArithmetic(expression, sep);
      RunTracksDepth(toks, Start);
      var s := Run(toks, Start).value;
      if Parens(s.ops) > 0 {
        UnclosedOpenFails(s);
      }
    }
  }

  // ---------------------------------------------------------------------
  // White space
  // ---------------------------------------------------------------------

  /** A literal scans to the same text with or without white space, and
      what follows it is the stripped rest. */
  lemma {:induction false} ScanIgnoresWhiteSpace(rest: string, sep: char)
    requires !IsWhiteSpace(sep)
    ensures var (buf, n) := ScanLiteral(rest, sep);
      var (buf', n') := ScanLiteral(StripWhiteSpace(rest), sep);
      && buf' == buf && n' <= |StripWhiteSpace(rest)|
      && StripWhiteSpace(rest)[n'..] == StripWhiteSpace(rest[n..])
    decreases |rest|
  {
    if |rest| > 0 && (IsDigit(rest[0]) || rest[0] == sep || IsWhiteSpace(rest[0])) {
      var tail := rest[1..];
      ScanIgnoresWhiteSpace(tail, sep);
      var m := ScanLiteral(tail, sep).1;
      var n := m + 1;
      assert ScanLiteral(rest, sep).1 == n;
      assert rest[n..] == tail[m..];
      if !IsWhiteSpace(rest[0]) {
        var t := StripWhiteSpace(rest);
        ScanKeptFirst(rest, sep, t);
        var m' := ScanLiteral(StripWhiteSpace(tail), sep).1;
        assert t[m' + 1..] == StripWhiteSpace(tail)[m'..];
      }
    } else if |rest| > 0 {
      assert StripWhiteSpace(rest)[0] == rest[0];
    }
  }

  /** A kept first character of a literal is also the first character of
      the stripped text, and the scan of the stripped text keeps it. */
  lemma ScanKeptFirst(rest: string, sep: char, t: string)
    requires rest != [] && (IsDigit(rest[0]) || rest[0] == sep) && !IsWhiteSpace(rest[0])
    requires t == StripWhiteSpace(rest)
    ensures t == [rest[0]] + StripWhiteSpace(rest[1..]) && t[1..] == StripWhiteSpace(rest[1..])
    ensures var (buf, n) := ScanLiteral(StripWhiteSpace(rest[1..]), sep);
      ScanLiteral(t, sep) == ([rest[0]] + buf, n + 1)
  {
    assert t[0] == rest[0] && t[1..] == StripWhiteSpace(rest[1..]);
  }

  /** The first step of the scan is the same with or without white space
      when the text starts with something else: the same token, and the
      rest after it is the stripped rest. */
  lemma FirstStepIgnoresWhiteSpace(rest: string, sep: char)
    requires rest != [] && !IsWhiteSpace(rest[0]) && !IsWhiteSpace(sep)
    ensures var t := StripWhiteSpace(rest);
      var a := NextStep(rest, sep);
      && t != []
      && (a.Skip? ==> NextStep(t, sep).Skip? && t[1..] == StripWhiteSpace(rest[1..]))
      && (a.Malformed? ==> NextStep(t, sep).Malformed?)
      && (a.Produce? ==>
            && NextStep(t, sep).Produce? && NextStep(t, sep).token == a.token
            && t[NextStep(t, sep).used..] == StripWhiteSpace(rest[a.used..]))
  {
    var c := rest[0];
    var t := StripWhiteSpace(rest);
    assert t == [c] + StripWhiteSpace(rest[1..]);
    assert t[0] == c && t[1..] == StripWhiteSpace(rest[1..]);
    if IsDigit(c) {
      FirstLiteralIgnoresWhiteSpace(rest, sep, t);
    }
  }

  lemma FirstLiteralIgnoresWhiteSpace(rest: string, sep: char, t: string)
    requires rest != [] && IsDigit(rest[0]) && !IsWhiteSpace(sep)
    requires t == StripWhiteSpace(rest) && t != [] && t[0] == rest[0]
    ensures var a := NextStep(rest, sep);
      && (a.Malformed? ==> NextStep(t, sep).Malformed?)
      && (a.Produce? ==>
            && NextStep(t, sep).Produce? && NextStep(t, sep).token == a.token
            && t[NextStep(t, sep).used..] == StripWhiteSpace(rest[a.used..]))
  {
    ScanIgnoresWhiteSpace(rest, sep);
    var (buf, n) := ScanLiteral(rest, sep);
    var (buf', n') := ScanLiteral(t, sep);
    assert buf' == buf && t[n'..] == StripWhiteSpace(rest[n..]);
    match LiteralValue(buf, sep)
    case Ok(v) =>
      assert NextStep(rest, sep) == Produce(Number(v), n);
      assert NextStep(t, sep) == Produce(Number(v), n');
    case Err(_) =>
      assert NextStep(rest, sep) == Malformed;
  }

  /** White space between tokens is skipped and white space inside a
      literal is dropped, so removing all of it never changes the outcome:
      "1 000" reads as "1000". */
  lemma {:induction false} WhiteSpaceIsIgnored(rest: string, sep: char, s: Stacks)
    requires !IsWhiteSpace(sep)
    ensures EvalRest(rest, sep, s) == EvalRest(StripWhiteSpace(rest), sep, s)
    decreases |rest|
  {
    if rest != [] {
      if IsWhiteSpace(rest[0]) {
        WhiteSpaceIsIgnored(rest[1..], sep, s);
      } else {
        FirstStepIgnoresWhiteSpace(rest, sep);
        match NextStep(rest, sep)
        case Skip =>
          WhiteSpaceIsIgnored(rest[1..], sep, s);
        case Malformed =>
        case Produce(tok, n) =>
          match Feed(tok, s)
          case Err(_) =>
          case Ok(s') =>
            WhiteSpaceIsIgnored(rest[n..], sep, s');
      }
    }
  }
}
