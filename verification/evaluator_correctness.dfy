/** What the two-stack evaluator computes, stated against independent
    definitions: the token stream it reads, a reference evaluator over
    expression trees (precedence and left-associativity written into the
    tree), and the shape its operator stack keeps. */
module EvaluatorCorrectness {

  import opened Results
  import opened Chars
  import opened CalculateEngine

  // ---------------------------------------------------------------------
  // The scan as a token stream
  // ---------------------------------------------------------------------

  /** The tokens the scan of `rest` produces, or the literal it rejects. */
  function Lex(rest: string, sep: char): Result<seq<Token>, EvalError>
    decreases |rest|
  {
    if rest == [] then Ok([])
    else match NextStep(rest, sep)
      case Skip => Lex(rest[1..], sep)
      case Malformed => Err(BadLiteral)
      case Produce(t, n) =>
        match Lex(rest[n..], sep)
        case Err(e) => Err(e)
        case Ok(ts) => Ok([t] + ts)
  }

  /** Feeds tokens to the stacks one by one, stopping at the first failure. */
  function Run(toks: seq<Token>, s: Stacks): Result<Stacks, EvalError>
    decreases |toks|
  {
    if toks == [] then Ok(s)
    else match Feed(toks[0], s)
      case Err(e) => Err(e)
      case Ok(s') => Run(toks[1..], s')
  }

  function RunThenFinish(toks: seq<Token>, s: Stacks): Result<real, EvalError> {
    match Run(toks, s)
    case Err(e) => Err(e)
    case Ok(s') => Finish(s')
  }

  /** The value of a token stream read from empty stacks. */
  function EvalTokens(toks: seq<Token>): Result<real, EvalError> {
    RunThenFinish(toks, Start)
  }

  /** When the scan lexes, evaluation is the token-level evaluation of what
      it lexed. */
  lemma {:induction false} LexedEvaluation(rest: string, sep: char, s: Stacks)
    requires Lex(rest, sep).Ok?
    ensures EvalRest(rest, sep, s) == RunThenFinish(Lex(rest, sep).value, s)
    decreases |rest|
  {
    if rest != [] {
      match NextStep(rest, sep)
      case Skip =>
        LexedEvaluation(rest[1..], sep, s);
      case Produce(t, n) =>
        var ts := Lex(rest[n..], sep).value;
        assert ([t] + ts)[1..] == ts;
        match Feed(t, s)
        case Err(e) =>
        case Ok(s') =>
          LexedEvaluation(rest[n..], sep, s');
    }
  }

  /** A literal the scan rejects makes evaluation fail. */
  lemma {:induction false} MalformedLiteralFails(rest: string, sep: char, s: Stacks)
    requires Lex(rest, sep).Err?
    ensures EvalRest(rest, sep, s).Err?
    decreases |rest|
  {
    if rest != [] {
      match NextStep(rest, sep)
      case Skip =>
        MalformedLiteralFails(rest[1..], sep, s);
      case Malformed =>
      case Produce(t, n) =>
        match Feed(t, s)
        case Err(e) =>
        case Ok(s') =>
          MalformedLiteralFails(rest[n..], sep, s');
    }
  }

  lemma {:induction false} RunAppend(a: seq<Token>, b: seq<Token>, s: Stacks)
    ensures Run(a + b, s) == (match Run(a, s) case Err(e) => Err(e) case Ok(s') => Run(b, s'))
    decreases |a|
  {
    if a != [] {
      assert (a + b)[0] == a[0];
      assert (a + b)[1..] == a[1..] + b;
      match Feed(a[0], s)
      case Err(e) =>
      case Ok(s') =>
        RunAppend(a[1..], b, s');
    } else {
      assert a + b == b;
    }
  }

  // ---------------------------------------------------------------------
  // Reference semantics: expression trees
  // ---------------------------------------------------------------------

  /** An arithmetic expression as written: literals, binary operators and
      parenthesised groups. */
  datatype Expr = Lit(v: real) | Bin(op: char, left: Expr, right: Expr) | Group(inner: Expr)

  /** Binding strength of an operator: 1 for `+ -`, 2 for `* /`, 0 for
      anything else (a parenthesis). */
  function Level(c: char): nat {
    if c == '+' || c == '-' then 1
    else if c == '*' || c == '/' then 2
    else 0
  }

  /** Binding strength of an expression's outermost operator; literals and
      groups bind tightest. */
  function Binding(x: Expr): nat {
    match x
    case Bin(op, _, _) => Level(op)
    case _ => 3
  }

  /** The trees whose flat text means that tree under the usual rules:
      `*` and `/` bind tighter than `+` and `-`, and equal strength groups
      to the left, so a left operand binds at least as tightly as its
      operator and a right operand strictly more tightly. */
  predicate WellFormed(x: Expr) {
    match x
    case Lit(_) => true
    case Group(e) => WellFormed(e)
    case Bin(op, l, r) =>
      Level(op) >= 1 && Binding(l) >= Level(op) && Binding(r) > Level(op)
      && WellFormed(l) && WellFormed(r)
  }

  /** `x op y` with `x` the left operand. */
  function Arith(op: char, x: real, y: real): Result<real, EvalError> {
    if op == '+' then Ok(x + y)
    else if op == '-' then Ok(x - y)
    else if op == '*' then Ok(x * y)
    else if op == '/' then (if y == 0.0 then Err(DivideByZero) else Ok(x / y))
    else Err(InvalidOperator)
  }

  /** Reference evaluation: left operand, then right operand, then the
      operator; the first failure wins. */
  function Eval(x: Expr): Result<real, EvalError> {
    match x
    case Lit(v) => Ok(v)
    case Group(e) => Eval(e)
    case Bin(op, l, r) =>
      match Eval(l)
      case Err(e) => Err(e)
      case Ok(a) =>
        match Eval(r)
        case Err(e) => Err(e)
        case Ok(b) => Arith(op, a, b)
  }

  /** The token text of a tree. */
  function Flatten(x: Expr): seq<Token> {
    match x
    case Lit(v) => [Number(v)]
    case Group(e) => [Open] + Flatten(e) + [Close]
    case Bin(op, l, r) => Flatten(l) + [Operator(op)] + Flatten(r)
  }

  // ---------------------------------------------------------------------
  // The operator stack, level by level
  // ---------------------------------------------------------------------

  /** Characters the scan ever pushes on the operator stack. */
  predicate OpsOk(ops: seq<char>) {
    forall i :: 0 <= i < |ops| ==> ops[i] == '(' || Level(ops[i]) >= 1
  }

  /** Applies pending operators of strength at least `level` (>= 1); stops
      at a `(` or the bottom. */
  function Reduce(level: nat, s: Stacks): Result<Stacks, EvalError>
    requires level >= 1
    decreases |s.ops|
  {
    if |s.ops| > 0 && Level(s.ops[|s.ops| - 1]) >= level then
      match ApplyTop(s)
      case Err(e) => Err(e)
      case Ok(s') => Reduce(level, s')
    else Ok(s)
  }

  function ThenReduce(r: Result<Stacks, EvalError>, level: nat): Result<Stacks, EvalError>
    requires level >= 1
  {
    match r
    case Err(e) => Err(e)
    case Ok(s) => Reduce(level, s)
  }

  /** The top of `ops` would not be applied by a reduction at `level`. */
  predicate TopBelow(ops: seq<char>, level: nat) {
    |ops| == 0 || Level(ops[|ops| - 1]) < level
  }

  lemma {:induction false} PopPendingIsReduce(o: char, s: Stacks)
    requires Level(o) >= 1 && OpsOk(s.ops)
    ensures PopPending(o, s) == Reduce(Level(o), s)
    decreases |s.ops|
  {
    if |s.ops| > 0 && Level(s.ops[|s.ops| - 1]) >= Level(o) {
      match ApplyTop(s)
      case Err(e) =>
      case Ok(s') =>
        PopPendingIsReduce(o, s');
    }
  }

  lemma {:induction false} CloseParenIsReduce(s: Stacks)
    requires OpsOk(s.ops)
    ensures CloseParen(s) == (match Reduce(1, s)
      case Err(e) => Err(e)
      case Ok(s') => if |s'.ops| == 0 then Err(StackEmpty) else Ok(Stacks(s'.values, s'.ops[..|s'.ops| - 1])))
    decreases |s.ops|
  {
    if |s.ops| > 0 && s.ops[|s.ops| - 1] != '(' {
      match ApplyTop(s)
      case Err(e) =>
      case Ok(s') =>
        CloseParenIsReduce(s');
    }
  }

  lemma {:induction false} DrainIsReduce(s: Stacks)
    requires Reduce(1, s).Err? || Reduce(1, s).value.ops == []
    ensures Drain(s) == Reduce(1, s)
    decreases |s.ops|
  {
    if |s.ops| > 0 {
      match ApplyTop(s)
      case Err(e) =>
      case Ok(s') =>
        DrainIsReduce(s');
    }
  }

  /** Reducing at a weaker level after a stronger one is reducing at the
      weaker level. */
  lemma {:induction false} ReduceCompose(lo: nat, hi: nat, s: Stacks)
    requires 1 <= lo <= hi
    ensures Reduce(lo, s) == ThenReduce(Reduce(hi, s), lo)
    decreases |s.ops|
  {
    if |s.ops| > 0 && Level(s.ops[|s.ops| - 1]) >= hi {
      match ApplyTop(s)
      case Err(e) =>
      case Ok(s') =>
        ReduceCompose(lo, hi, s');
    }
  }

  function Lift(r: Result<real, EvalError>, s: Stacks): Result<Stacks, EvalError> {
    match r
    case Err(e) => Err(e)
    case Ok(v) => Ok(Stacks(s.values + [v], s.ops))
  }

  /** Applying a pending operator above a stack whose own top is out of
      reach leaves `a op b` in place of its operands. */
  lemma ApplyPending(op: char, a: real, b: real, s: Stacks, level: nat)
    requires 1 <= level <= Level(op) && TopBelow(s.ops, level)
    ensures Reduce(level, Stacks(s.values + [a, b], s.ops + [op])) == Lift(Arith(op, a, b), s)
  {
    var t := Stacks(s.values + [a, b], s.ops + [op]);
    assert t.values[|t.values| - 1] == b;
    assert t.values[|t.values| - 2] == a;
    assert t.values[..|t.values| - 2] == s.values;
    assert t.ops[..|t.ops| - 1] == s.ops;
    assert ApplyOp(op, b, a) == Arith(op, a, b);
  }

  /** The heart of the correctness argument: reading the text of a tree and
      then applying what is still pending at the strength the context
      allows leaves exactly the tree's value on the operand stack, or fails
      exactly as the reference does. */
  lemma {:induction false} FlattenRun(x: Expr, s: Stacks, level: nat)
    requires WellFormed(x) && OpsOk(s.ops)
    requires 1 <= level <= Binding(x) && TopBelow(s.ops, level)
    ensures ThenReduce(Run(Flatten(x), s), level) == Lift(Eval(x), s)
    ensures Run(Flatten(x), s).Ok? ==> OpsOk(Run(Flatten(x), s).value.ops)
    decreases x, 2
  {
    match x {
      case Lit(v) =>
        assert Flatten(x)[1..] == [];
      case Group(e) =>
        FlattenRunGroup(x, s, level);
      case Bin(op, l, r) =>
        FlattenRunBin(x, s, level);
    }
  }

  lemma {:induction false} FlattenRunGroup(x: Expr, s: Stacks, level: nat)
    requires x.Group? && WellFormed(x) && OpsOk(s.ops)
    requires 1 <= level && TopBelow(s.ops, level)
    ensures ThenReduce(Run(Flatten(x), s), level) == Lift(Eval(x), s)
    ensures Run(Flatten(x), s).Ok? ==> OpsOk(Run(Flatten(x), s).value.ops)
    decreases x, 1
  {
    var e := x.inner;
    var s1 := Stacks(s.values, s.ops + ['(']);
    assert ([Open] + Flatten(e) + [Close])[0] == Open;
    assert ([Open] + Flatten(e) + [Close])[1..] == Flatten(e) + [Close];
    assert Run(Flatten(x), s) == Run(Flatten(e) + [Close], s1);
    RunAppend(Flatten(e), [Close], s1);
    FlattenRun(e, s1, 1);
    if Run(Flatten(e), s1).Ok? {
      var s3 := Run(Flatten(e), s1).value;
      CloseParenIsReduce(s3);
      assert [Close][1..] == [];
      if Eval(e).Ok? {
        var v := Eval(e).value;
        assert (s.ops + ['('])[..|s.ops|] == s.ops;
        assert CloseParen(s3) == Ok(Stacks(s.values + [v], s.ops));
      }
    }
  }

  lemma {:induction false} FlattenRunBin(x: Expr, s: Stacks, level: nat)
    requires x.Bin? && WellFormed(x) && OpsOk(s.ops)
    requires 1 <= level <= Binding(x) && TopBelow(s.ops, level)
    ensures ThenReduce(Run(Flatten(x), s), level) == Lift(Eval(x), s)
    ensures Run(Flatten(x), s).Ok? ==> OpsOk(Run(Flatten(x), s).value.ops)
    decreases x, 1
  {
    var op, l, r := x.op, x.left, x.right;
    var k := Level(op);
    assert Flatten(x) == Flatten(l) + ([Operator(op)] + Flatten(r));
    RunAppend(Flatten(l), [Operator(op)] + Flatten(r), s);
    FlattenRun(l, s, k);
    if Run(Flatten(l), s).Ok? {
      var s1 := Run(Flatten(l), s).value;
      assert ([Operator(op)] + Flatten(r))[0] == Operator(op);
      assert ([Operator(op)] + Flatten(r))[1..] == Flatten(r);
      PopPendingIsReduce(op, s1);
      if Eval(l).Ok? {
        var a := Eval(l).value;
        var s2 := Stacks(s.values + [a], s.ops + [op]);
        assert Feed(Operator(op), s1) == Ok(s2);
        FlattenRunRight(x, a, s, level);
      }
    }
  }

  /** The right operand of `x`, read after its left operand `a` and its
      operator were pushed. */
  lemma {:induction false} FlattenRunRight(x: Expr, a: real, s: Stacks, level: nat)
    requires x.Bin? && WellFormed(x) && OpsOk(s.ops)
    requires 1 <= level <= Binding(x) && TopBelow(s.ops, level)
    ensures var s2 := Stacks(s.values + [a], s.ops + [x.op]);
      && ThenReduce(Run(Flatten(x.right), s2), level)
         == (match Eval(x.right) case Err(e) => Err(e) case Ok(b) => Lift(Arith(x.op, a, b), s))
      && (Run(Flatten(x.right), s2).Ok? ==> OpsOk(Run(Flatten(x.right), s2).value.ops))
    decreases x, 0
  {
    var op, r := x.op, x.right;
    var k := Level(op);
    var s2 := Stacks(s.values + [a], s.ops + [op]);
    assert OpsOk(s2.ops);
    FlattenRun(r, s2, k + 1);
    if Run(Flatten(r), s2).Ok? {
      var s3 := Run(Flatten(r), s2).value;
      ReduceCompose(level, k + 1, s3);
      if Eval(r).Ok? {
        var b := Eval(r).value;
        assert s2.values + [b] == s.values + [a, b];
        ApplyPending(op, a, b, s, level);
      }
    }
  }

  /** The evaluator agrees with the reference on every well-formed tree:
      precedence, left-to-right grouping of equal strength, operand order,
      parentheses and division by zero all behave as the tree says. */
  lemma ShuntingYardMatchesReference(x: Expr)
    requires WellFormed(x)
    ensures EvalTokens(Flatten(x)) == Eval(x)
  {
    FlattenRun(x, Start, 1);
    if Run(Flatten(x), Start).Ok? {
      DrainIsReduce(Run(Flatten(x), Start).value);
    }
  }

  /** Text that lexes to the tokens of a well-formed tree evaluates to that
      tree's reference value. */
  lemma EvaluateMatchesReference(expression: string, sep: char, x: Expr)
    requires WellFormed(x) && Lex(expression, sep) == Ok(Flatten(x))
    ensures Evaluate(expression, sep) == Eval(x)
  {
    LexedEvaluation(expression, sep, Start);
    ShuntingYardMatchesReference(x);
  }
}
