/** The two-stack arithmetic evaluator (`CalculateEngine`): a left-to-right
    scan that keeps an operand stack and an operator stack, supports
    `+ - * /` and parentheses, and reads numeric literals that may embed
    white space and the configured decimal separator. C# `decimal` is
    modelled by exact `real`; a stack's top is the LAST element of its
    sequence. */
module CalculateEngine {

  import opened Results
  import opened Chars

  /** The ways `Evaluate` throws: `DivideByZeroException`, the
      `ArgumentException` for an unknown operator, the
      `InvalidOperationException` of popping an empty stack, and the
      `FormatException` of `decimal.Parse`. */
  datatype EvalError = DivideByZero | InvalidOperator | StackEmpty | BadLiteral

  /** The operand stack and the operator stack. */
  datatype Stacks = Stacks(values: seq<real>, ops: seq<char>)

  const Start := Stacks([], [])

  /** True when the pending operator `op2` must be applied before the
      incoming operator `op1` is pushed. */
  predicate HasPrecedence(op1: char, op2: char) {
    if op2 == '(' || op2 == ')' then false
    else if (op1 == '*' || op1 == '/') && (op2 == '+' || op2 == '-') then false
    else true
  }

  /** Applies `op`; `b` is the operand popped first (the right one). */
  function ApplyOp(op: char, b: real, a: real): Result<real, EvalError> {
    match op
    case '+' => Ok(a + b)
    case '-' => Ok(a - b)
    case '*' => Ok(a * b)
    case '/' => if b != 0.0 then Ok(a / b) else Err(DivideByZero)
    case _ => Err(InvalidOperator)
  }

  /** `values.Push(ApplyOp(ops.Pop(), values.Pop(), values.Pop()))`: the
      operator is popped first, then the right and the left operand. */
  function ApplyTop(s: Stacks): (r: Result<Stacks, EvalError>)
    requires |s.ops| > 0
    ensures r.Ok? ==> r.value.ops == s.ops[..|s.ops| - 1]
    ensures r.Ok? ==> |s.values| >= 2 && |r.value.values| == |s.values| - 1
    ensures r.Ok? ==> r.value.values[..|s.values| - 2] == s.values[..|s.values| - 2]
    ensures |s.values| < 2 ==> r == Err(StackEmpty)
  {
    var op := s.ops[|s.ops| - 1];
    if |s.values| < 2 then Err(StackEmpty)
    else
      var b := s.values[|s.values| - 1];
      var a := s.values[|s.values| - 2];
      match ApplyOp(op, b, a)
      case Err(e) => Err(e)
      case Ok(v) => Ok(Stacks(s.values[..|s.values| - 2] + [v], s.ops[..|s.ops| - 1]))
  }

  /** The pop loop run before an incoming operator is pushed: applies
      pending operators while `HasPrecedence(incoming, top)`. */
  function PopPending(incoming: char, s: Stacks): (r: Result<Stacks, EvalError>)
    ensures r.Ok? ==> |r.value.ops| <= |s.ops| && r.value.ops == s.ops[..|r.value.ops|]
    ensures r.Ok? ==> |r.value.ops| == 0 || !HasPrecedence(incoming, r.value.ops[|r.value.ops| - 1])
    decreases |s.ops|
  {
    if |s.ops| > 0 && HasPrecedence(incoming, s.ops[|s.ops| - 1]) then
      match ApplyTop(s)
      case Err(e) => Err(e)
      case Ok(s') => PopPending(incoming, s')
    else Ok(s)
  }

  /** The `)` branch: applies operators back to the nearest `(` and
      discards it; popping from an empty operator stack fails. */
  function CloseParen(s: Stacks): (r: Result<Stacks, EvalError>)
    ensures r.Ok? ==> |r.value.ops| < |s.ops| && r.value.ops == s.ops[..|r.value.ops|]
    ensures r.Ok? ==> s.ops[|r.value.ops|] == '('
    decreases |s.ops|
  {
    if |s.ops| > 0 && s.ops[|s.ops| - 1] != '(' then
      match ApplyTop(s)
      case Err(e) => Err(e)
      case Ok(s') => CloseParen(s')
    else if |s.ops| == 0 then Err(StackEmpty)
    else Ok(Stacks(s.values, s.ops[..|s.ops| - 1]))
  }

  /** The loop after the scan: applies every remaining operator, a left-over
      `(` included (which `ApplyOp` rejects). */
  function Drain(s: Stacks): (r: Result<Stacks, EvalError>)
    ensures r.Ok? ==> r.value.ops == []
    decreases |s.ops|
  {
    if |s.ops| > 0 then
      match ApplyTop(s)
      case Err(e) => Err(e)
      case Ok(s') => Drain(s')
    else Ok(s)
  }

  /** Drains the operator stack and pops the result. */
  function Finish(s: Stacks): (r: Result<real, EvalError>)
    ensures |s.values| == 0 ==> r == Err(StackEmpty)
  {
    match Drain(s)
    case Err(e) => Err(e)
    case Ok(d) =>
      if |d.values| == 0 then Err(StackEmpty) else Ok(d.values[|d.values| - 1])
  }

  /** The inner literal loop: consumes digits, separators and white space,
      keeping all but the white space. Returns the kept text and the number
      of characters consumed. */
  function ScanLiteral(rest: string, sep: char): (r: (string, nat))
    ensures r.1 <= |rest|
    ensures |r.0| <= r.1
    ensures forall k :: 0 <= k < |r.0| ==> IsDigit(r.0[k]) || r.0[k] == sep
    ensures r.1 < |rest| ==> !(IsDigit(rest[r.1]) || rest[r.1] == sep || IsWhiteSpace(rest[r.1]))
    ensures forall k :: 0 <= k < r.1 ==> IsDigit(rest[k]) || rest[k] == sep || IsWhiteSpace(rest[k])
    ensures r.0 == StripWhiteSpace(rest[..r.1])
  {
    if |rest| > 0 && (IsDigit(rest[0]) || rest[0] == sep || IsWhiteSpace(rest[0])) then
      var (buf, n) := ScanLiteral(rest[1..], sep);
      assert rest[..n + 1] == [rest[0]] + rest[1..][..n];
      assert rest[..n + 1][1..] == rest[1..][..n];
      (if IsWhiteSpace(rest[0]) then buf else [rest[0]] + buf, n + 1)
    else ([], 0)
  }

  /** `decimal.Parse` of a scanned literal: digits with at most one decimal
      separator and at least one digit. */
  function LiteralValue(buf: string, sep: char): Result<real, EvalError> {
    match IndexOf(buf, sep)
    case None =>
      if |buf| > 0 && AllDigits(buf) then Ok(DigitsValue(buf) as real) else Err(BadLiteral)
    case Some(k) =>
      var whole := buf[..k];
      var frac := buf[k + 1..];
      if |whole| + |frac| > 0 && AllDigits(whole) && AllDigits(frac) then
        Ok(DigitsValue(whole) as real + DigitsValue(frac) as real / Pow10(|frac|) as real)
      else Err(BadLiteral)
  }

  /** What one iteration of the scan sees. */
  datatype Token = Number(value: real) | Open | Close | Operator(op: char)

  /** The effect of one token on the stacks. */
  function Feed(t: Token, s: Stacks): Result<Stacks, EvalError> {
    match t
    case Number(v) => Ok(Stacks(s.values + [v], s.ops))
    case Open => Ok(Stacks(s.values, s.ops + ['(']))
    case Close => CloseParen(s)
    case Operator(o) =>
      match PopPending(o, s)
      case Err(e) => Err(e)
      case Ok(s') => Ok(Stacks(s'.values, s'.ops + [o]))
  }

  /** One iteration of the outer loop, started at the first character of
      `rest`: skip a character, produce a token, or fail on a literal. */
  datatype Step = Skip | Produce(token: Token, used: nat) | Malformed

  function NextStep(rest: string, sep: char): (r: Step)
    requires |rest| > 0
    ensures r.Produce? ==> 1 <= r.used <= |rest|
  {
    var c := rest[0];
    if c == ' ' then Skip
    else if IsDigit(c) then
      var (buf, n) := ScanLiteral(rest, sep);
      match LiteralValue(buf, sep)
      case Ok(v) => Produce(Number(v), n)
      case Err(_) => Malformed
    else if c == '(' then Produce(Open, 1)
    else if c == ')' then Produce(Close, 1)
    else if c == '+' || c == '-' || c == '*' || c == '/' then Produce(Operator(c), 1)
    else Skip
  }

  /** The outcome of scanning `rest` from stacks `s` to the end. */
  function EvalRest(rest: string, sep: char, s: Stacks): Result<real, EvalError>
    decreases |rest|
  {
    if rest == [] then Finish(s)
    else match NextStep(rest, sep)
      case Skip => EvalRest(rest[1..], sep, s)
      case Malformed => Err(BadLiteral)
      case Produce(t, n) =>
        match Feed(t, s)
        case Err(e) => Err(e)
        case Ok(s') => EvalRest(rest[n..], sep, s')
  }

  /** `CalculateEngine.Evaluate(expression, formatter)` with the formatter's
      decimal separator `sep`. */
  function Evaluate(expression: string, sep: char): Result<real, EvalError> {
    EvalRest(expression, sep, Start)
  }

  /** The inner literal loop of the source, started at a digit at `i`:
      returns the kept characters and the index just past the literal. */
  method ScanLiteralLoop(expression: string, i: nat, sep: char) returns (buf: string, j: nat)
    requires i <= |expression|
    ensures i <= j <= |expression|
    ensures ScanLiteral(expression[i..], sep) == (buf, j - i)
  {
    buf := [];
    j := i;
    assert buf + ScanLiteral(expression[j..], sep).0 == ScanLiteral(expression[j..], sep).0;
    while j < |expression| && (IsDigit(expression[j]) || expression[j] == sep || IsWhiteSpace(expression[j]))
      invariant i <= j <= |expression|
      invariant ScanLiteral(expression[i..], sep).0 == buf + ScanLiteral(expression[j..], sep).0
      invariant ScanLiteral(expression[i..], sep).1 == (j - i) + ScanLiteral(expression[j..], sep).1
      decreases |expression| - j
    {
      var k := j + 1;
      ScanAdvance(expression, i, j, sep, buf, k);
      if !IsWhiteSpace(expression[j]) {
        buf := buf + [expression[j]];
      }
      j := k;
    }
    ScanStops(expression, j, sep);
    assert buf + [] == buf;
  }

  /** One character of the literal loop. */
  lemma ScanOne(expression: string, j: nat, sep: char)
    requires j < |expression| && (IsDigit(expression[j]) || expression[j] == sep || IsWhiteSpace(expression[j]))
    ensures var tail := ScanLiteral(expression[j + 1..], sep);
      ScanLiteral(expression[j..], sep)
        == (if IsWhiteSpace(expression[j]) then tail.0 else [expression[j]] + tail.0, tail.1 + 1)
  {
    assert expression[j..][1..] == expression[j + 1..];
  }

  /** The loop invariant of `ScanLiteralLoop` survives one iteration. */
  lemma ScanAdvance(expression: string, i: nat, j: nat, sep: char, buf: string, k: nat)
    requires i <= j < |expression| && k == j + 1
    requires IsDigit(expression[j]) || expression[j] == sep || IsWhiteSpace(expression[j])
    requires ScanLiteral(expression[i..], sep).0 == buf + ScanLiteral(expression[j..], sep).0
    requires ScanLiteral(expression[i..], sep).1 == (j - i) + ScanLiteral(expression[j..], sep).1
    ensures var buf' := if IsWhiteSpace(expression[j]) then buf else buf + [expression[j]];
      && ScanLiteral(expression[i..], sep).0 == buf' + ScanLiteral(expression[k..], sep).0
      && ScanLiteral(expression[i..], sep).1 == (k - i) + ScanLiteral(expression[k..], sep).1
  {
    ScanOne(expression, j, sep);
    var tail := ScanLiteral(expression[j + 1..], sep).0;
    assert buf + ([expression[j]] + tail) == (buf + [expression[j]]) + tail;
  }

  /** The literal loop stops at the end or at any other character. */
  lemma ScanStops(expression: string, j: nat, sep: char)
    requires j <= |expression|
    requires !(j < |expression| && (IsDigit(expression[j]) || expression[j] == sep || IsWhiteSpace(expression[j])))
    ensures ScanLiteral(expression[j..], sep) == ([], 0)
  {
  }

  /** `values.Push(ApplyOp(ops.Pop(), values.Pop(), values.Pop()))` on
      explicit stacks. */
  method ApplyTopOfStacks(values: seq<real>, ops: seq<char>) returns (r: Result<Stacks, EvalError>)
    requires |ops| > 0
    ensures r == ApplyTop(Stacks(values, ops))
  {
    var op := ops[|ops| - 1];
    if |values| < 2 {
      return Err(StackEmpty);
    }
    var b := values[|values| - 1];
    var a := values[|values| - 2];
    var res := ApplyOp(op, b, a);
    if res.Err? {
      return Err(res.error);
    }
    r := Ok(Stacks(values[..|values| - 2] + [res.value], ops[..|ops| - 1]));
  }

  /** The source's pop loop before an operator is pushed. */
  method PopPendingLoop(c: char, values0: seq<real>, ops0: seq<char>) returns (r: Result<Stacks, EvalError>)
    ensures r == PopPending(c, Stacks(values0, ops0))
  {
    var values, ops := values0, ops0;
    while |ops| > 0 && HasPrecedence(c, ops[|ops| - 1])
      invariant PopPending(c, Stacks(values, ops)) == PopPending(c, Stacks(values0, ops0))
      decreases |ops|
    {
      var res := ApplyTopOfStacks(values, ops);
      if res.Err? {
        return Err(res.error);
      }
      values, ops := res.value.values, res.value.ops;
    }
    r := Ok(Stacks(values, ops));
  }

  /** The source's `)` branch. */
  method CloseParenLoop(values0: seq<real>, ops0: seq<char>) returns (r: Result<Stacks, EvalError>)
    ensures r == CloseParen(Stacks(values0, ops0))
  {
    var values, ops := values0, ops0;
    while |ops| > 0 && ops[|ops| - 1] != '('
      invariant CloseParen(Stacks(values, ops)) == CloseParen(Stacks(values0, ops0))
      decreases |ops|
    {
      var res := ApplyTopOfStacks(values, ops);
      if res.Err? {
        return Err(res.error);
      }
      values, ops := res.value.values, res.value.ops;
    }
    if |ops| == 0 {
      return Err(StackEmpty);
    }
    r := Ok(Stacks(values, ops[..|ops| - 1]));
  }

  /** The source's final loop and pop. */
  method FinishLoop(values0: seq<real>, ops0: seq<char>) returns (r: Result<real, EvalError>)
    ensures r == Finish(Stacks(values0, ops0))
  {
    var values, ops := values0, ops0;
    while |ops| > 0
      invariant Drain(Stacks(values, ops)) == Drain(Stacks(values0, ops0))
      decreases |ops|
    {
      var res := ApplyTopOfStacks(values, ops);
      if res.Err? {
        return Err(res.error);
      }
      values, ops := res.value.values, res.value.ops;
    }
    if |values| == 0 {
      return Err(StackEmpty);
    }
    r := Ok(values[|values| - 1]);
  }

  /** `EvalRest` at index `i` of the expression when the step there
      produces token `t` from `n` characters and feeding it gives `s'`. */
  lemma EvalRestFeeds(expression: string, i: nat, sep: char, s: Stacks, t: Token, n: nat, s': Stacks, j: nat)
    requires i < |expression| && NextStep(expression[i..], sep) == Produce(t, n)
    requires Feed(t, s) == Ok(s') && j == i + n
    ensures j <= |expression|
    ensures EvalRest(expression[i..], sep, s) == EvalRest(expression[j..], sep, s')
  {
    assert expression[i..][n..] == expression[j..];
  }

  /** `EvalRest` at index `i` when the step there skips a character. */
  lemma EvalRestSkips(expression: string, i: nat, sep: char, s: Stacks, j: nat)
    requires i < |expression| && NextStep(expression[i..], sep) == Skip && j == i + 1
    ensures EvalRest(expression[i..], sep, s) == EvalRest(expression[j..], sep, s)
  {
    assert expression[i..][1..] == expression[j..];
  }

  /** The body of the outer loop at index `i`, up to the stack update. */
  method NextStepAt(expression: string, i: nat, sep: char) returns (step: Step)
    requires i < |expression|
    ensures step == NextStep(expression[i..], sep)
  {
    var c := expression[i];
    if c == ' ' {
      step := Skip;
    } else if IsDigit(c) {
      var buf, j := ScanLiteralLoop(expression, i, sep);
      var lit := LiteralValue(buf, sep);
      step := if lit.Ok? then Produce(Number(lit.value), j - i) else Malformed;
    } else if c == '(' {
      step := Produce(Open, 1);
    } else if c == ')' {
      step := Produce(Close, 1);
    } else if c == '+' || c == '-' || c == '*' || c == '/' {
      step := Produce(Operator(c), 1);
    } else {
      step := Skip;
    }
  }

  /** The stack update for one token, on explicit stacks. */
  method FeedStacks(t: Token, values: seq<real>, ops: seq<char>) returns (r: Result<Stacks, EvalError>)
    ensures r == Feed(t, Stacks(values, ops))
  {
    match t
    case Number(v) =>
      r := Ok(Stacks(values + [v], ops));
    case Open =>
      r := Ok(Stacks(values, ops + ['(']));
    case Close =>
      r := CloseParenLoop(values, ops);
    case Operator(c) =>
      var res := PopPendingLoop(c, values, ops);
      r := if res.Err? then res else Ok(Stacks(res.value.values, res.value.ops + [c]));
  }

  /** `CalculateEngine.Evaluate`: the outer loop on explicit stacks. */
  method EvaluateWithStacks(expression: string, sep: char) returns (r: Result<real, EvalError>)
    ensures r == Evaluate(expression, sep)
  {
    var stacks := Start;
    var i := 0;
    assert expression[0..] == expression;
    while i < |expression|
      invariant 0 <= i <= |expression|
      invariant EvalRest(expression[i..], sep, stacks) == Evaluate(expression, sep)
      decreases |expression| - i
    {
      var step := NextStepAt(expression, i, sep);
      match step
      case Malformed =>
        return Err(BadLiteral);
      case Skip =>
        var j := i + 1;
        EvalRestSkips(expression, i, sep, stacks, j);
        i := j;
      case Produce(t, n) =>
        var res := FeedStacks(t, stacks.values, stacks.ops);
        if res.Err? {
          return Err(res.error);
        }
        var j := i + n;
        EvalRestFeeds(expression, i, sep, stacks, t, n, res.value, j);
        stacks := res.value;
        i := j;
    }
    assert expression[i..] == [];
    r := FinishLoop(stacks.values, stacks.ops);
  }
}
