/**
 * One line through the whole calculator: scanning, conversion to postfix
 * and reduction (the body of the `main` loop, without reading and printing).
 *
 * The main theorem is stated over expression trees: writing a tree out in
 * infix, with parentheses only where the tree asks for them, and running the
 * calculator on the tokens gives the value the tree denotes, with every
 * operator grouping to the left.
 */
module Calculator {
  import opened Tokens
  import opened Arithmetic
  import opened Scanner
  import opened ShuntingYard
  import opened Reducer

  /** The outcome of a line: `get_stack`, then `run_stack`. */
  function Evaluate(line: string): Outcome {
    match Postfix(line)
    case Err(e) => Failed(e)
    case Ok(stack) => RunPostfix(stack)
  }

  /** The same pipeline over tokens scanned ahead of time. */
  function EvaluateTokens(ts: seq<Token>): Outcome {
    match ShuntTokens(ts)
    case Err(e) => Failed(e)
    case Ok(stack) => RunPostfix(stack)
  }

  /** One iteration of the `main` loop after the line is read. */
  method EvaluateLine(line: string) returns (o: Outcome)
    ensures o == Evaluate(line)
  {
    var stream := new TokenStream(line);
    var yard := new ShuntingYard(stream);
    var stack := yard.GetStack();
    if stack.Err? {
      return Failed(stack.error);
    }
    o := RunStack(stack.value);
  }

  /**
   * On a line that scans, evaluating it is evaluating its tokens; a line
   * that does not scan fails, with the scanner's error unless an unmatched
   * `)` came first.
   */
  lemma EvaluateScanned(line: string)
    ensures ScanAll(line, 0).Ok? ==> Evaluate(line) == EvaluateTokens(ScanAll(line, 0).value)
    ensures ScanAll(line, 0).Err? ==>
      Evaluate(line) == Failed(ScanAll(line, 0).error) || Evaluate(line) == Failed(UnmatchedRightParen)
  {
    ShuntMatchesScan(line, 0, [], []);
  }

  /** An arithmetic expression as the user means it. */
  datatype Expr =
    | Num(t: Token)                       // a number literal
    | Bin(op: Token, l: Expr, r: Expr)    // `l op r`
    | Group(e: Expr)                      // `(e)`

  /** How tightly the root of `e` binds: a number or a group cannot be split. */
  function Level(e: Expr): nat {
    if e.Bin? && e.op.IsOp() then e.op.Prec().value else 4
  }

  /**
   * The tree can be written without extra parentheses: numbers are numbers,
   * operators are operators, a left operand binds at least as tightly as its
   * operator and a right operand strictly more tightly (left grouping).
   */
  ghost predicate WellFormed(e: Expr) {
    match e
    case Num(t) => t.IsNum()
    case Bin(op, l, r) =>
      && op.IsOp() && WellFormed(l) && WellFormed(r)
      && Level(l) >= op.Prec().value && Level(r) > op.Prec().value
    case Group(g) => WellFormed(g)
  }

  /** The tokens of `e` as written. */
  function Infix(e: Expr): seq<Token> {
    match e
    case Num(t) => [t]
    case Bin(op, l, r) => Infix(l) + [op] + Infix(r)
    case Group(g) => [LeftParen] + Infix(g) + [RightParen]
  }

  /** The tokens of `e` in reverse Polish notation. */
  function PostfixOf(e: Expr): seq<Token> {
    match e
    case Num(t) => [t]
    case Bin(op, l, r) => PostfixOf(l) + PostfixOf(r) + [op]
    case Group(g) => PostfixOf(g)
  }

  /** The value `e` denotes, each operator applied by `operation_result`. */
  function Eval(e: Expr): Token {
    match e
    case Num(t) => t
    case Bin(op, l, r) => OperationResult(op, Eval(l), Eval(r))
    case Group(g) => Eval(g)
  }

  /**
   * After a left operand whose conversion left `p1` pending, an operator that
   * binds no more tightly than any of `p1`, and more tightly than the top of
   * the old stack, outputs all of `p1` and stacks itself on the old stack.
   */
  lemma OperatorStep(left: seq<Token>, post: seq<Token>, op: Token, right: seq<Token>,
                     out: seq<Token>, ops: seq<Token>, o1: seq<Token>, p1: seq<Token>)
    requires op.IsOp()
    requires |ops| == 0 || !Top(ops).IsOp() || Top(ops).Prec().value < op.Prec().value
    requires Steps(left, out, ops) == Ok((o1, ops + p1))
    requires o1 + Reverse(p1) == out + post
    requires forall t | t in p1 :: t.IsOp() && t.Prec().value >= op.Prec().value
    ensures Steps(left + ([op] + right), out, ops) == Steps(right, out + post, ops + [op])
  {
    PopAll(o1, ops, p1, op.Prec().value);
    assert Push(op, o1, ops + p1) == Ok((out + post, ops + [op]));
    StepsAppend(left, [op] + right, out, ops);
    StepsCons(op, right, o1, ops + p1);
  }

  /** A number goes straight to the output. */
  lemma NumStep(t: Token, out: seq<Token>, ops: seq<Token>)
    requires t.IsNum()
    ensures Steps([t], out, ops) == Ok((out + [t], ops))
  {
    assert Push(t, out, ops) == Ok((out + [t], ops));
    StepsCons(t, [], out, ops);
    assert [t] + [] == [t] && ops + [] == ops;
  }

  /** The output of `l op r`: the operator comes last, after both operands. */
  lemma BinOutput(e: Expr, out: seq<Token>, o2: seq<Token>, p2: seq<Token>)
    requires e.Bin?
    requires o2 + Reverse(p2) == out + PostfixOf(e.l) + PostfixOf(e.r)
    ensures o2 + Reverse([e.op] + p2) == out + PostfixOf(e)
  {
    var op, l, r := e.op, e.l, e.r;
    ReverseCons(op, p2);
    var before := out + PostfixOf(l) + PostfixOf(r);
    assert o2 + (Reverse(p2) + [op]) == before + [op];
    assert PostfixOf(e) == PostfixOf(l) + PostfixOf(r) + [op];
  }

  /** The operators of `l op r` still pending bind at least as tightly as `op`. */
  lemma BinPending(op: Token, p2: seq<Token>, level: nat)
    requires op.IsOp() && level > op.Prec().value
    requires forall t | t in p2 :: t.IsOp() && t.Prec().value >= level
    ensures forall t | t in [op] + p2 :: t.IsOp() && t.Prec().value >= op.Prec().value
  {
    forall t | t in [op] + p2 ensures t.IsOp() && t.Prec().value >= op.Prec().value {
      if t != op {
        assert t in p2;
      }
    }
  }

  /** The conversion of `(g)` from the conversion of `g`. */
  lemma GroupStep(e: Expr, out: seq<Token>, ops: seq<Token>, o1: seq<Token>, p1: seq<Token>)
    requires e.Group?
    requires Steps(Infix(e.e), out, ops + [LeftParen]) == Ok((o1, ops + [LeftParen] + p1))
    requires o1 + Reverse(p1) == out + PostfixOf(e.e)
    requires forall t | t in p1 :: t.IsOp()
    ensures Steps(Infix(e), out, ops) == Ok((out + PostfixOf(e), ops))
  {
    var g, inner := e.e, ops + [LeftParen];
    assert Push(LeftParen, out, ops) == Ok((out, inner));
    ClosePops(o1, ops, p1);
    assert Push(RightParen, o1, inner + p1) == Ok((out + PostfixOf(g), ops));
    StepsCons(LeftParen, Infix(g) + [RightParen], out, ops);
    StepsAppend(Infix(g), [RightParen], out, inner);
    StepsCons(RightParen, [], o1, inner + p1);
    assert Infix(e) == [LeftParen] + (Infix(g) + [RightParen]);
    assert [RightParen] + [] == [RightParen];
  }

  /**
   * Converting the tokens of a well-formed `e` on top of a stack whose top
   * binds less tightly than `e`: the output grows by what has been decided
   * and the operators of `e` still pending sit above the old stack, all
   * binding at least as tightly as `e`; output then pending operators is
   * exactly the postfix form of `e`.
   */
  lemma {:induction false} Convert(e: Expr, out: seq<Token>, ops: seq<Token>)
    returns (o: seq<Token>, pending: seq<Token>)
    requires WellFormed(e)
    requires |ops| == 0 || !Top(ops).IsOp() || Top(ops).Prec().value < Level(e)
    ensures Steps(Infix(e), out, ops) == Ok((o, ops + pending))
    ensures o + Reverse(pending) == out + PostfixOf(e)
    ensures forall t | t in pending :: t.IsOp() && t.Prec().value >= Level(e)
    decreases e
  {
    match e
    case Num(t) =>
      NumStep(t, out, ops);
      assert ops + [] == ops;
      assert (out + [t]) + Reverse<Token>([]) == out + [t];
      o, pending := out + [t], [];
    case Bin(op, l, r) =>
      var o1, p1 := Convert(l, out, ops);
      var o2, p2 := Convert(r, out + PostfixOf(l), ops + [op]);
      OperatorStep(Infix(l), PostfixOf(l), op, Infix(r), out, ops, o1, p1);
      assert Infix(e) == Infix(l) + ([op] + Infix(r));
      assert ops + [op] + p2 == ops + ([op] + p2);
      BinOutput(e, out, o2, p2);
      BinPending(op, p2, Level(r));
      o, pending := o2, [op] + p2;
    case Group(g) =>
      var o1, p1 := Convert(g, out, ops + [LeftParen]);
      GroupStep(e, out, ops, o1, p1);
      assert ops + [] == ops;
      o, pending := out + PostfixOf(g), [];
  }

  /** The shunting-yard conversion of a well-formed expression is its postfix form. */
  lemma ShuntInfix(e: Expr)
    requires WellFormed(e)
    ensures ShuntTokens(Infix(e)) == Ok(PostfixOf(e))
  {
    var o, pending := Convert(e, [], []);
    assert [] + pending == pending && [] + PostfixOf(e) == PostfixOf(e);
    assert LeftParen !in pending;
  }

  /** Reducing the postfix form of `e` pushes exactly the value of `e`. */
  lemma {:induction false} ReducePostfix(e: Expr, mem: seq<Token>)
    requires WellFormed(e)
    ensures Reduce(PostfixOf(e), mem) == Ok(mem + [Eval(e)])
    decreases e
  {
    match e
    case Num(t) =>
    case Bin(op, l, r) =>
      ReducePostfix(l, mem);
      ReducePostfix(r, mem + [Eval(l)]);
      ReduceAppend(PostfixOf(l), PostfixOf(r) + [op], mem);
      ReduceAppend(PostfixOf(r), [op], mem + [Eval(l)]);
      assert PostfixOf(e) == PostfixOf(l) + (PostfixOf(r) + [op]);
      var m := mem + [Eval(l)] + [Eval(r)];
      assert m[..|m| - 2] == mem && m[|m| - 2] == Eval(l) && m[|m| - 1] == Eval(r);
      assert Reduce([op], m) == Ok(mem + [Eval(e)]);
    case Group(g) =>
      ReducePostfix(g, mem);
  }

  /**
   * The calculator computes what the expression means: the tokens of a
   * well-formed expression evaluate to its value, grouping to the left.
   */
  lemma EvaluateInfix(e: Expr)
    requires WellFormed(e)
    ensures EvaluateTokens(Infix(e)) == Value(Eval(e))
  {
    ShuntInfix(e);
    ReducePostfix(e, []);
  }

  /** A line that scans to the tokens of a well-formed expression evaluates to its value. */
  lemma LineValue(line: string, e: Expr)
    requires WellFormed(e) && ScanAll(line, 0) == Ok(Infix(e))
    ensures Evaluate(line) == Value(Eval(e))
  {
    EvaluateScanned(line);
    EvaluateInfix(e);
  }
}
