/**
 * The shunting-yard converter (`ShuntingYard::get_stack`): turns the tokens
 * of a line into postfix order with an output sequence and an operator
 * stack, pulling tokens from the scanner one at a time.
 *
 * Stacks are sequences whose top is the last element, as with `Vec`.
 */
module ShuntingYard {
  import opened Tokens
  import opened Scanner

  function Top(s: seq<Token>): Token
    requires |s| > 0
  {
    s[|s| - 1]
  }

  /** The `while let Some(operator) = op_stack.last()` loop for an incoming operator. */
  function PopHigher(out: seq<Token>, ops: seq<Token>, prec: nat): (seq<Token>, seq<Token>)
    decreases |ops|
  {
    if |ops| > 0 && Top(ops).IsOp() && Top(ops).Prec().value >= prec then
      PopHigher(out + [Top(ops)], ops[..|ops| - 1], prec)
    else
      (out, ops)
  }

  /**
   * An incoming operator of precedence `prec` moves to the output exactly the
   * longest run of operators of precedence `prec` or more on top of the
   * stack, most recent first: it stops at a `(` or at a weaker operator.
   */
  lemma {:induction false} PopHigherPops(out: seq<Token>, ops: seq<Token>, prec: nat)
    returns (above: seq<Token>)
    ensures var r := PopHigher(out, ops, prec);
      && ops == r.1 + above
      && r.0 == out + Reverse(above)
      && (|r.1| == 0 || !Top(r.1).IsOp() || Top(r.1).Prec().value < prec)
    ensures forall i | 0 <= i < |above| :: above[i].IsOp() && above[i].Prec().value >= prec
    decreases |ops|
  {
    if |ops| > 0 && Top(ops).IsOp() && Top(ops).Prec().value >= prec {
      var below, t := ops[..|ops| - 1], Top(ops);
      var rest := PopHigherPops(out + [t], below, prec);
      above := rest + [t];
      assert ops == below + [t];
      ReverseSnoc(rest, t);
    } else {
      above := [];
      assert ops + [] == ops;
    }
  }

  /**
   * A `)` moves operators to the output until it removes the topmost `(`,
   * which is discarded; with no `(` on the stack the line is rejected.
   */
  function PopToParen(out: seq<Token>, ops: seq<Token>): (r: Result<(seq<Token>, seq<Token>)>)
    ensures r.Err? <==> LeftParen !in ops
    ensures r.Err? ==> r.error == UnmatchedRightParen
    decreases |ops|
  {
    if |ops| == 0 then Err(UnmatchedRightParen)
    else if Top(ops) == LeftParen then Ok((out, ops[..|ops| - 1]))
    else
      assert ops == ops[..|ops| - 1] + [Top(ops)];
      PopToParen(out + [Top(ops)], ops[..|ops| - 1])
  }

  /**
   * What a successful `)` leaves: the stack below the topmost `(`, and the
   * output extended by the tokens above that `(`, most recent first.
   */
  lemma {:induction false} PopToParenShape(out: seq<Token>, ops: seq<Token>) returns (seg: seq<Token>)
    requires LeftParen in ops
    ensures var r := PopToParen(out, ops).value;
      ops == r.1 + [LeftParen] + seg && r.0 == out + Reverse(seg)
    ensures forall i | 0 <= i < |seg| :: seg[i] != LeftParen
    decreases |ops|
  {
    var below, t := ops[..|ops| - 1], Top(ops);
    assert ops == below + [t];
    if t == LeftParen {
      seg := [];
      assert below + [LeftParen] + [] == ops;
    } else {
      var rest := PopToParenShape(out + [t], below);
      seg := rest + [t];
      ReverseSnoc(rest, t);
    }
  }

  /**
   * At the end of the line the remaining operators go to the output, most
   * recent first; a `(` among them rejects the line.
   */
  function Drain(out: seq<Token>, ops: seq<Token>): (r: Result<seq<Token>>)
    ensures r.Ok? <==> LeftParen !in ops
    ensures r.Err? ==> r.error == UnmatchedLeftParen
    ensures r.Ok? ==> r.value == out + Reverse(ops)
    decreases |ops|
  {
    if |ops| == 0 then Ok(out)
    else if Top(ops) == LeftParen then Err(UnmatchedLeftParen)
    else
      assert ops == ops[..|ops| - 1] + [Top(ops)];
      Drain(out + [Top(ops)], ops[..|ops| - 1])
  }

  /** One iteration of the `for token in stream` loop. */
  function Push(t: Token, out: seq<Token>, ops: seq<Token>): Result<(seq<Token>, seq<Token>)> {
    if t.IsNum() then Ok((out + [t], ops))
    else if t.IsOp() then
      var (o, rest) := PopHigher(out, ops, t.Prec().value);
      Ok((o, rest + [t]))
    else if t.LeftParen? then Ok((out, ops + [t]))
    else PopToParen(out, ops)  // t is a RightParen
  }

  /**
   * `get_stack` from cursor `p`, with `out` and `ops` built so far: scanning
   * and conversion interleave, so a scan error stops the conversion where it
   * occurs.
   */
  function Shunt(s: string, p: nat, out: seq<Token>, ops: seq<Token>): Result<seq<Token>>
    requires p <= |s|
    decreases |s| - p
  {
    match Lex(s, p)
    case Err(e) => Err(e)
    case Ok((None, _)) => Drain(out, ops)
    case Ok((Some(t), q)) =>
      match Push(t, out, ops)
      case Err(e) => Err(e)
      case Ok((o, rest)) => Shunt(s, q, o, rest)
  }

  /** The postfix form of a whole line. */
  function Postfix(s: string): Result<seq<Token>> {
    Shunt(s, 0, [], [])
  }

  /** The `for` loop of `get_stack` over tokens scanned ahead of time: the state after `ts`. */
  function Steps(ts: seq<Token>, out: seq<Token>, ops: seq<Token>): Result<(seq<Token>, seq<Token>)>
    decreases |ts|
  {
    if ts == [] then Ok((out, ops))
    else
      match Push(ts[0], out, ops)
      case Err(e) => Err(e)
      case Ok((o, rest)) => Steps(ts[1..], o, rest)
  }

  /** The conversion of `ts` from a given state, the stack drained at the end. */
  function ShuntFrom(ts: seq<Token>, out: seq<Token>, ops: seq<Token>): Result<seq<Token>> {
    match Steps(ts, out, ops)
    case Err(e) => Err(e)
    case Ok((o, rest)) => Drain(o, rest)
  }

  /** The whole conversion over tokens scanned ahead of time. */
  function ShuntTokens(ts: seq<Token>): Result<seq<Token>> {
    ShuntFrom(ts, [], [])
  }

  /** Only operators and `(` are ever pushed on the operator stack. */
  ghost predicate StackTokens(ops: seq<Token>) {
    forall t | t in ops :: t.IsOp() || t == LeftParen
  }

  ghost predicate NoParens(ts: seq<Token>) {
    forall t | t in ts :: NotParen(t)
  }

  /**
   * The operator stack holds operators and `(` only, and two operators
   * stacked directly one on the other have strictly increasing precedence:
   * above each `(` the operators form a strictly increasing run.
   */
  ghost predicate OperatorStack(ops: seq<Token>) {
    && StackTokens(ops)
    && forall i | 0 <= i < |ops| - 1 ::
         ops[i].IsOp() && ops[i + 1].IsOp() ==> ops[i].Prec().value < ops[i + 1].Prec().value
  }

  /** Every step of the conversion keeps the operator stack in that shape. */
  lemma PushKeepsOperatorStack(t: Token, out: seq<Token>, ops: seq<Token>)
    requires OperatorStack(ops) && Push(t, out, ops).Ok?
    ensures OperatorStack(Push(t, out, ops).value.1)
  {
    if t.IsOp() {
      var above := PopHigherPops(out, ops, t.Prec().value);
      var (o, rest) := PopHigher(out, ops, t.Prec().value);
      var st := rest + [t];
      forall i | 0 <= i < |st| - 1 && st[i].IsOp() && st[i + 1].IsOp()
        ensures st[i].Prec().value < st[i + 1].Prec().value
      {
        if i < |rest| - 1 {
          assert st[i] == ops[i] && st[i + 1] == ops[i + 1];
        } else {
          assert st[i] == Top(rest) && st[i + 1] == t;
        }
      }
    } else if t.RightParen? {
      var seg := ClosedOperators(out, ops);
      var rest := Push(t, out, ops).value.1;
      assert forall i | 0 <= i < |rest| :: rest[i] == ops[i];
    }
  }

  /** Any run of steps keeps that shape, so every stack the conversion reaches has it. */
  lemma {:induction false} StepsKeepOperatorStack(ts: seq<Token>, out: seq<Token>, ops: seq<Token>)
    requires OperatorStack(ops) && Steps(ts, out, ops).Ok?
    ensures OperatorStack(Steps(ts, out, ops).value.1)
    decreases |ts|
  {
    if ts != [] {
      PushKeepsOperatorStack(ts[0], out, ops);
      var (o, st) := Push(ts[0], out, ops).value;
      StepsKeepOperatorStack(ts[1..], o, st);
    }
  }

  /** Operators popped to the output are all counted, once each. */
  lemma PoppedMultiset(out: seq<Token>, seg: seq<Token>)
    requires forall i | 0 <= i < |seg| :: seg[i].IsOp()
    ensures multiset(out + Reverse(seg)) == multiset(out) + multiset(Sift(seg, NonParens))
  {
    SiftAll(seg, NonParens);
    ReverseMultiset(seg);
  }

  /** Operators popped to the output add no number to it. */
  lemma PoppedNumbers(out: seq<Token>, seg: seq<Token>)
    requires forall i | 0 <= i < |seg| :: seg[i].IsOp()
    ensures Sift(out + Reverse(seg), Numbers) == Sift(out, Numbers)
  {
    SiftAppend(out, Reverse(seg), Numbers);
    ReverseIndex(seg);
    SiftNone(Reverse(seg), Numbers);
  }

  /** Operators popped to the output add no parenthesis to it. */
  lemma PoppedClean(out: seq<Token>, seg: seq<Token>)
    requires forall i | 0 <= i < |seg| :: seg[i].IsOp()
    ensures NoParens(out) ==> NoParens(out + Reverse(seg))
  {
  }

  /** The operators a `)` pops above the `(` it matches, in stack order. */
  lemma ClosedOperators(out: seq<Token>, ops: seq<Token>) returns (seg: seq<Token>)
    requires StackTokens(ops) && PopToParen(out, ops).Ok?
    ensures ops == PopToParen(out, ops).value.1 + [LeftParen] + seg
    ensures PopToParen(out, ops).value.0 == out + Reverse(seg)
    ensures forall i | 0 <= i < |seg| :: seg[i].IsOp()
  {
    seg := PopToParenShape(out, ops);
    forall i | 0 <= i < |seg| ensures seg[i].IsOp() {
      assert ops[|ops| - |seg| + i] == seg[i];
    }
  }

  /** A step leaves only operators and `(` on the stack and no parenthesis in the output. */
  lemma PushShape(t: Token, out: seq<Token>, ops: seq<Token>)
    requires StackTokens(ops) && Push(t, out, ops).Ok?
    ensures StackTokens(Push(t, out, ops).value.1)
    ensures NoParens(out) ==> NoParens(Push(t, out, ops).value.0)
  {
    if t.IsOp() {
      var seg := PopHigherPops(out, ops, t.Prec().value);
      PoppedClean(out, seg);
    } else if t.RightParen? {
      var seg := ClosedOperators(out, ops);
      PoppedClean(out, seg);
    }
  }

  /** A step appends the number it reads, if any, to the numbers already output. */
  lemma PushNumbers(t: Token, out: seq<Token>, ops: seq<Token>)
    requires StackTokens(ops) && Push(t, out, ops).Ok?
    ensures Sift(Push(t, out, ops).value.0, Numbers) == Sift(out, Numbers) + Sift([t], Numbers)
  {
    if t.IsNum() {
      SiftAppend(out, [t], Numbers);
    } else if t.IsOp() {
      var seg := PopHigherPops(out, ops, t.Prec().value);
      PoppedNumbers(out, seg);
    } else if t.RightParen? {
      var seg := ClosedOperators(out, ops);
      PoppedNumbers(out, seg);
    }
  }

  /** A step moves numbers and operators between input, stack and output without losing or copying any. */
  lemma PushConserves(t: Token, out: seq<Token>, ops: seq<Token>)
    requires StackTokens(ops) && Push(t, out, ops).Ok?
    ensures multiset(Push(t, out, ops).value.0) + multiset(Sift(Push(t, out, ops).value.1, NonParens))
      == multiset(out) + multiset(Sift(ops, NonParens)) + multiset(Sift([t], NonParens))
  {
    if t.IsNum() {
    } else if t.IsOp() {
      var seg := PopHigherPops(out, ops, t.Prec().value);
      OperatorConserves(t, out, PopHigher(out, ops, t.Prec().value).1, seg);
    } else if t.LeftParen? {
      SiftAppend(ops, [t], NonParens);
    } else {
      var seg := ClosedOperators(out, ops);
      CloseConserves(out, PopToParen(out, ops).value.1, seg);
    }
  }

  /** An operator pushed over `rest` after popping `seg` to the output. */
  lemma OperatorConserves(t: Token, out: seq<Token>, rest: seq<Token>, seg: seq<Token>)
    requires t.IsOp() && forall i | 0 <= i < |seg| :: seg[i].IsOp()
    ensures multiset(out + Reverse(seg)) + multiset(Sift(rest + [t], NonParens))
      == multiset(out) + multiset(Sift(rest + seg, NonParens)) + multiset(Sift([t], NonParens))
  {
    PoppedMultiset(out, seg);
    SiftAppend(rest, [t], NonParens);
    SiftAppend(rest, seg, NonParens);
    var r, g := Sift(rest, NonParens), Sift(seg, NonParens);
    assert multiset(out) + multiset(r + g) + multiset(Sift([t], NonParens))
      == multiset(out) + multiset(g) + multiset(r + Sift([t], NonParens));
  }

  /** A `)` that pops `seg` to the output and discards the `(` below it. */
  lemma CloseConserves(out: seq<Token>, st: seq<Token>, seg: seq<Token>)
    requires forall i | 0 <= i < |seg| :: seg[i].IsOp()
    ensures multiset(out + Reverse(seg)) + multiset(Sift(st, NonParens))
      == multiset(out) + multiset(Sift(st + [LeftParen] + seg, NonParens))
  {
    SiftAroundParen(st, seg);
    PoppedMultiset(out, seg);
    var r, g := Sift(st, NonParens), Sift(seg, NonParens);
    assert multiset(out) + multiset(r + g) == multiset(out) + multiset(g) + multiset(r);
  }

  lemma SiftAroundParen(st: seq<Token>, seg: seq<Token>)
    ensures Sift(st + [LeftParen] + seg, NonParens) == Sift(st, NonParens) + Sift(seg, NonParens)
  {
    SiftAppend(st + [LeftParen], seg, NonParens);
    SiftAppend(st, [LeftParen], NonParens);
  }

  /**
   * The state `(o, st)` reached from `(out, ops)` by reading `read` keeps the
   * books: every number and operator read is either in the output or on the
   * stack, exactly once, and the output holds no parenthesis.
   */
  ghost predicate Accounts(read: seq<Token>, out: seq<Token>, ops: seq<Token>, o: seq<Token>, st: seq<Token>) {
    && StackTokens(st) && NoParens(o)
    && multiset(o) + multiset(Sift(st, NonParens))
       == multiset(out) + multiset(Sift(ops, NonParens)) + multiset(Sift(read, NonParens))
  }

  /** Books kept over two stretches of input are kept over both together. */
  lemma AccountsCompose(
    t: Token, rest: seq<Token>, out: seq<Token>, ops: seq<Token>,
    o1: seq<Token>, st1: seq<Token>, o: seq<Token>, st: seq<Token>)
    requires Accounts([t], out, ops, o1, st1) && Accounts(rest, o1, st1, o, st)
    ensures Accounts([t] + rest, out, ops, o, st)
  {
    SiftAppend([t], rest, NonParens);
    var before := multiset(out) + multiset(Sift(ops, NonParens));
    assert multiset(o) + multiset(Sift(st, NonParens))
      == before + multiset(Sift([t], NonParens)) + multiset(Sift(rest, NonParens));
  }

  /** The books are kept over any run of steps. */
  lemma {:induction false} StepsContent(ts: seq<Token>, out: seq<Token>, ops: seq<Token>)
    requires StackTokens(ops) && NoParens(out) && Steps(ts, out, ops).Ok?
    ensures Accounts(ts, out, ops, Steps(ts, out, ops).value.0, Steps(ts, out, ops).value.1)
    decreases |ts|
  {
    if ts != [] {
      var t := ts[0];
      PushShape(t, out, ops);
      PushConserves(t, out, ops);
      var (o1, st1) := Push(t, out, ops).value;
      StepsContent(ts[1..], o1, st1);
      assert ts == [t] + ts[1..];
      var (o, st) := Steps(ts, out, ops).value;
      AccountsCompose(t, ts[1..], out, ops, o1, st1, o, st);
    }
  }

  /** Numbers reach the output in the order they are read. */
  lemma {:induction false} StepsNumbers(ts: seq<Token>, out: seq<Token>, ops: seq<Token>)
    requires StackTokens(ops) && Steps(ts, out, ops).Ok?
    ensures Sift(Steps(ts, out, ops).value.0, Numbers) == Sift(out, Numbers) + Sift(ts, Numbers)
    decreases |ts|
  {
    if ts != [] {
      var t := ts[0];
      PushShape(t, out, ops);
      PushNumbers(t, out, ops);
      var (o1, st1) := Push(t, out, ops).value;
      StepsNumbers(ts[1..], o1, st1);
      assert ts == [t] + ts[1..];
      SiftAppend([t], ts[1..], Numbers);
      var a, b, c := Sift(out, Numbers), Sift([t], Numbers), Sift(ts[1..], Numbers);
      assert (a + b) + c == a + (b + c);
    }
  }

  /**
   * The postfix output holds no parenthesis, holds every number and operator
   * of the input exactly once, and keeps the numbers in input order.
   */
  lemma ShuntTokensContent(ts: seq<Token>)
    requires ShuntTokens(ts).Ok?
    ensures NoParens(ShuntTokens(ts).value)
    ensures multiset(ShuntTokens(ts).value) == multiset(Sift(ts, NonParens))
    ensures Sift(ShuntTokens(ts).value, Numbers) == Sift(ts, Numbers)
  {
    StepsContent(ts, [], []);
    StepsNumbers(ts, [], []);
    var (o, st) := Steps(ts, [], []).value;
    assert forall i | 0 <= i < |st| :: st[i].IsOp() by {
      forall i | 0 <= i < |st| ensures st[i].IsOp() {
        assert st[i] in st;
      }
    }
    PoppedClean(o, st);
    PoppedNumbers(o, st);
    PoppedMultiset(o, st);
  }

  /** How many `(` are on the stack. */
  function OpenCount(ops: seq<Token>): nat {
    |Sift(ops, LeftParens)|
  }

  lemma OpenCountPositive(ops: seq<Token>)
    ensures LeftParen in ops <==> OpenCount(ops) > 0
  {
    SiftSound(ops, LeftParens, LeftParen);
    if OpenCount(ops) > 0 {
      var x := Sift(ops, LeftParens)[0];
      SiftSound(ops, LeftParens, x);
    }
  }

  function ParenDelta(t: Token): int {
    if t == LeftParen then 1 else if t == RightParen then -1 else 0
  }

  /** Opening minus closing parentheses in `ts`: a reference count, independent of the stack. */
  function ParenBalance(ts: seq<Token>): int {
    if ts == [] then 0 else ParenDelta(ts[0]) + ParenBalance(ts[1..])
  }

  /** Starting `open` levels deep, no prefix of `ts` closes more than it opened. */
  ghost predicate NeverBelowZero(open: int, ts: seq<Token>) {
    forall k | 0 <= k <= |ts| :: open + ParenBalance(ts[..k]) >= 0
  }

  /** One step fails exactly on a `)` with no `(` open, and tracks the depth otherwise. */
  lemma PushParens(t: Token, out: seq<Token>, ops: seq<Token>)
    requires StackTokens(ops)
    ensures Push(t, out, ops).Ok? <==> OpenCount(ops) + ParenDelta(t) >= 0
    ensures Push(t, out, ops).Err? ==> Push(t, out, ops).error == UnmatchedRightParen
    ensures Push(t, out, ops).Ok? ==>
      && StackTokens(Push(t, out, ops).value.1)
      && OpenCount(Push(t, out, ops).value.1) == OpenCount(ops) + ParenDelta(t)
  {
    OpenCountPositive(ops);
    if t.IsOp() {
      OperatorKeepsOpen(t, out, ops);
    } else if t.LeftParen? {
      SiftAppend(ops, [t], LeftParens);
    } else if t.RightParen? && Push(t, out, ops).Ok? {
      CloseDropsOpen(out, ops);
    }
  }

  lemma OperatorKeepsOpen(t: Token, out: seq<Token>, ops: seq<Token>)
    requires StackTokens(ops) && t.IsOp()
    ensures StackTokens(Push(t, out, ops).value.1)
    ensures OpenCount(Push(t, out, ops).value.1) == OpenCount(ops)
  {
    var seg := PopHigherPops(out, ops, t.Prec().value);
    var rest := PopHigher(out, ops, t.Prec().value).1;
    SiftAppend(rest, seg, LeftParens);
    SiftNone(seg, LeftParens);
    SiftAppend(rest, [t], LeftParens);
  }

  lemma CloseDropsOpen(out: seq<Token>, ops: seq<Token>)
    requires StackTokens(ops) && PopToParen(out, ops).Ok?
    ensures StackTokens(PopToParen(out, ops).value.1)
    ensures OpenCount(PopToParen(out, ops).value.1) + 1 == OpenCount(ops)
  {
    var seg := ClosedOperators(out, ops);
    var st := PopToParen(out, ops).value.1;
    SiftAppend(st + [LeftParen], seg, LeftParens);
    SiftAppend(st, [LeftParen], LeftParens);
    SiftNone(seg, LeftParens);
  }

  lemma {:induction false} StepsParens(ts: seq<Token>, out: seq<Token>, ops: seq<Token>)
    requires StackTokens(ops)
    ensures Steps(ts, out, ops).Ok? <==> NeverBelowZero(OpenCount(ops), ts)
    ensures Steps(ts, out, ops).Err? ==> Steps(ts, out, ops).error == UnmatchedRightParen
    ensures Steps(ts, out, ops).Ok? ==>
      && StackTokens(Steps(ts, out, ops).value.1)
      && OpenCount(Steps(ts, out, ops).value.1) == OpenCount(ops) + ParenBalance(ts)
    decreases |ts|
  {
    var c := OpenCount(ops);
    if ts == [] {
      assert ts[..0] == [];
    } else {
      var t := ts[0];
      PushParens(t, out, ops);
      // a prefix of ts is t followed by a prefix of the rest
      assert forall k | 1 <= k <= |ts| :: ts[..k][1..] == ts[1..][..k - 1];
      assert forall k | 1 <= k <= |ts| :: ParenBalance(ts[..k]) == ParenDelta(t) + ParenBalance(ts[1..][..k - 1]);
      assert ts[..0] == [];
      if Push(t, out, ops).Ok? {
        var (o, st) := Push(t, out, ops).value;
        StepsParens(ts[1..], o, st);
        if NeverBelowZero(c + ParenDelta(t), ts[1..]) {
          forall k | 0 <= k <= |ts| ensures c + ParenBalance(ts[..k]) >= 0 {
            if k > 0 {
              assert c + ParenDelta(t) + ParenBalance(ts[1..][..k - 1]) >= 0;
            }
          }
        } else {
          var k :| 0 <= k <= |ts[1..]| && c + ParenDelta(t) + ParenBalance(ts[1..][..k]) < 0;
          assert c + ParenBalance(ts[..k + 1]) < 0;
        }
      } else {
        assert c + ParenBalance(ts[..1]) < 0;
      }
    }
  }

  /**
   * Parenthesis errors match the reference count: the conversion rejects an
   * unmatched `)` exactly when some prefix closes more than it opened, an
   * unmatched `(` exactly when no prefix does but the whole opens more than
   * it closes, and succeeds exactly on balanced input.
   */
  lemma ShuntTokensParens(ts: seq<Token>)
    ensures ShuntTokens(ts).Ok? <==> NeverBelowZero(0, ts) && ParenBalance(ts) == 0
    ensures ShuntTokens(ts) == Err(UnmatchedRightParen) <==> !NeverBelowZero(0, ts)
    ensures ShuntTokens(ts) == Err(UnmatchedLeftParen) <==> NeverBelowZero(0, ts) && ParenBalance(ts) > 0
  {
    StepsParens(ts, [], []);
    assert ts[..|ts|] == ts;
    if Steps(ts, [], []).Ok? {
      OpenCountPositive(Steps(ts, [], []).value.1);
    }
  }

  /**
   * Scanning while converting agrees with scanning the whole line first:
   * when the scan succeeds the two conversions are equal, and a conversion
   * that succeeds had a successful scan. On a line that does not scan the
   * conversion fails with the scanner's error, unless an unmatched `)`
   * earlier in the line is reported first.
   */
  lemma {:induction false} ShuntMatchesScan(s: string, p: nat, out: seq<Token>, ops: seq<Token>)
    requires p <= |s|
    ensures ScanAll(s, p).Ok? ==> Shunt(s, p, out, ops) == ShuntFrom(ScanAll(s, p).value, out, ops)
    ensures Shunt(s, p, out, ops).Ok? ==> ScanAll(s, p).Ok?
    ensures ScanAll(s, p).Err? ==>
      Shunt(s, p, out, ops) == Err(ScanAll(s, p).error) || Shunt(s, p, out, ops) == Err(UnmatchedRightParen)
    decreases |s| - p
  {
    match Lex(s, p)
    case Err(_) =>
    case Ok((None, _)) =>
    case Ok((Some(t), q)) =>
      match Push(t, out, ops)
      case Err(_) =>
      case Ok((o, rest)) =>
        ShuntMatchesScan(s, q, o, rest);
        if ScanAll(s, q).Ok? {
          var ts := ScanAll(s, q).value;
          assert ([t] + ts)[0] == t && ([t] + ts)[1..] == ts;
        }
  }

  /**
   * A line that converts has a scan whose postfix form it is: the output
   * holds no parenthesis, every number and operator of the line exactly
   * once, and the numbers in the order they were written; and the line's
   * parentheses balance.
   */
  lemma PostfixContents(s: string)
    requires Postfix(s).Ok?
    ensures ScanAll(s, 0).Ok? && Postfix(s) == ShuntTokens(ScanAll(s, 0).value)
    ensures NoParens(Postfix(s).value)
    ensures multiset(Postfix(s).value) == multiset(Sift(ScanAll(s, 0).value, NonParens))
    ensures Sift(Postfix(s).value, Numbers) == Sift(ScanAll(s, 0).value, Numbers)
    ensures NeverBelowZero(0, ScanAll(s, 0).value) && ParenBalance(ScanAll(s, 0).value) == 0
  {
    ShuntMatchesScan(s, 0, [], []);
    ShuntTokensContent(ScanAll(s, 0).value);
    ShuntTokensParens(ScanAll(s, 0).value);
  }

  /**
   * On a line that scans, the parenthesis errors are exactly those of the
   * reference count.
   */
  lemma PostfixParens(s: string)
    requires ScanAll(s, 0).Ok?
    ensures Postfix(s).Ok? <==> NeverBelowZero(0, ScanAll(s, 0).value) && ParenBalance(ScanAll(s, 0).value) == 0
    ensures Postfix(s) == Err(UnmatchedRightParen) <==> !NeverBelowZero(0, ScanAll(s, 0).value)
    ensures Postfix(s) == Err(UnmatchedLeftParen) <==>
      NeverBelowZero(0, ScanAll(s, 0).value) && ParenBalance(ScanAll(s, 0).value) > 0
  {
    ShuntMatchesScan(s, 0, [], []);
    ShuntTokensParens(ScanAll(s, 0).value);
  }

  /** One more token is one more iteration of the loop. */
  lemma StepsCons(t: Token, ts: seq<Token>, out: seq<Token>, ops: seq<Token>)
    requires Push(t, out, ops).Ok?
    ensures Steps([t] + ts, out, ops) == Steps(ts, Push(t, out, ops).value.0, Push(t, out, ops).value.1)
  {
    assert ([t] + ts)[0] == t && ([t] + ts)[1..] == ts;
  }

  /** The first number, operator and number of a line leave one operator on the stack. */
  lemma FirstOperand(x: Token, op1: Token, y: Token, rest: seq<Token>)
    requires x.IsNum() && y.IsNum() && op1.IsOp()
    ensures Steps([x, op1, y] + rest, [], []) == Steps(rest, [x, y], [op1])
  {
    assert [x, op1, y] + rest == [x] + ([op1] + ([y] + rest));
    assert [] + [x] == [x] && [x] + [y] == [x, y] && [] + [op1] == [op1];
    assert Push(x, [], []) == Ok(([x], []));
    StepsCons(x, [op1] + ([y] + rest), [], []);
    assert Push(op1, [x], []) == Ok(([x], [op1]));
    StepsCons(op1, [y] + rest, [x], []);
    assert Push(y, [x], [op1]) == Ok(([x, y], [op1]));
    StepsCons(y, rest, [x], [op1]);
  }

  /** Running two pieces one after the other is running their concatenation. */
  lemma {:induction false} StepsAppend(a: seq<Token>, b: seq<Token>, out: seq<Token>, ops: seq<Token>)
    ensures Steps(a + b, out, ops) ==
      match Steps(a, out, ops)
      case Err(e) => Err(e)
      case Ok((o, st)) => Steps(b, o, st)
    decreases |a|
  {
    if a == [] {
      assert a + b == b;
    } else {
      assert (a + b)[0] == a[0] && (a + b)[1..] == a[1..] + b;
      if Push(a[0], out, ops).Ok? {
        var (o, st) := Push(a[0], out, ops).value;
        StepsAppend(a[1..], b, o, st);
      }
    }
  }

  /**
   * An incoming operator pops every operator stacked above `ops` that binds
   * at least as tightly, and stops at a top of `ops` that binds less tightly.
   */
  lemma {:induction false} PopAll(out: seq<Token>, ops: seq<Token>, above: seq<Token>, prec: nat)
    requires forall t | t in above :: t.IsOp() && t.Prec().value >= prec
    requires |ops| == 0 || !Top(ops).IsOp() || Top(ops).Prec().value < prec
    ensures PopHigher(out, ops + above, prec) == (out + Reverse(above), ops)
    decreases |above|
  {
    if above == [] {
      assert ops + above == ops && out + Reverse(above) == out;
    } else {
      var init, last := above[..|above| - 1], above[|above| - 1];
      assert above == init + [last];
      assert last in above;
      assert (ops + above)[..|ops + above| - 1] == ops + init;
      PopAll(out + [last], ops, init, prec);
      ReverseSnoc(init, last);
      assert out + [last] + Reverse(init) == out + Reverse(above);
    }
  }

  /** Popping an operator that is not `(` on the way to the matching `(`. */
  lemma PopToParenStep(out: seq<Token>, below: seq<Token>, t: Token)
    requires t != LeftParen
    ensures PopToParen(out, below + [t]) == PopToParen(out + [t], below)
  {
    var all := below + [t];
    assert Top(all) == t && all[..|all| - 1] == below;
  }

  /** Popping a run of tokens none of which is `(`, most recent first. */
  lemma {:induction false} PopThrough(out: seq<Token>, below: seq<Token>, above: seq<Token>)
    requires forall i | 0 <= i < |above| :: above[i] != LeftParen
    ensures PopToParen(out, below + above) == PopToParen(out + Reverse(above), below)
    decreases |above|
  {
    if above == [] {
      assert below + above == below && out + Reverse(above) == out;
    } else {
      var init, last := above[..|above| - 1], above[|above| - 1];
      assert above == init + [last];
      assert below + above == (below + init) + [last];
      PopToParenStep(out, below + init, last);
      PopThrough(out + [last], below, init);
      ReverseSnoc(init, last);
      assert out + [last] + Reverse(init) == out + Reverse(above);
    }
  }

  /** A `)` pops the operators stacked above the topmost `(` and removes it. */
  lemma ClosePops(out: seq<Token>, ops: seq<Token>, above: seq<Token>)
    requires forall t | t in above :: t.IsOp()
    ensures PopToParen(out, ops + [LeftParen] + above) == Ok((out + Reverse(above), ops))
  {
    var below := ops + [LeftParen];
    forall i | 0 <= i < |above| ensures above[i] != LeftParen {
      assert above[i] in above;
    }
    PopThrough(out, below, above);
    assert Top(below) == LeftParen && below[..|below| - 1] == ops;
  }

  /** A second operator that binds no tighter outputs the first one. */
  lemma SecondOperatorPops(x: Token, op1: Token, y: Token, op2: Token, z: Token)
    requires x.IsNum() && y.IsNum() && z.IsNum() && op1.IsOp() && op2.IsOp()
    requires op1.Prec().value >= op2.Prec().value
    ensures ShuntTokens([x, op1, y, op2, z]) == Ok([x, y, op1, z, op2])
  {
    assert [x, op1, y, op2, z] == [x, op1, y] + ([op2] + [z]);
    FirstOperand(x, op1, y, [op2] + [z]);
    assert Top([op1]) == op1 && [op1][..0] == [];
    assert [x, y] + [op1] == [x, y, op1] && [] + [op2] == [op2];
    assert PopHigher([x, y], [op1], op2.Prec().value) == PopHigher([x, y, op1], [], op2.Prec().value);
    assert Push(op2, [x, y], [op1]) == Ok(([x, y, op1], [op2]));
    StepsCons(op2, [z], [x, y], [op1]);
    assert [z] == [z] + [] && [x, y, op1] + [z] == [x, y, op1, z];
    assert Push(z, [x, y, op1], [op2]) == Ok(([x, y, op1, z], [op2]));
    StepsCons(z, [], [x, y, op1], [op2]);
    assert Steps([x, op1, y, op2, z], [], []) == Ok(([x, y, op1, z], [op2]));
    assert Reverse([op2]) == [op2] && [x, y, op1, z] + [op2] == [x, y, op1, z, op2];
    assert ShuntTokens([x, op1, y, op2, z]) == Drain([x, y, op1, z], [op2]);
  }

  /** A second operator that binds tighter stacks above the first one. */
  lemma SecondOperatorStacks(x: Token, op1: Token, y: Token, op2: Token, z: Token)
    requires x.IsNum() && y.IsNum() && z.IsNum() && op1.IsOp() && op2.IsOp()
    requires op1.Prec().value < op2.Prec().value
    ensures ShuntTokens([x, op1, y, op2, z]) == Ok([x, y, z, op2, op1])
  {
    assert [x, op1, y, op2, z] == [x, op1, y] + ([op2] + [z]);
    FirstOperand(x, op1, y, [op2] + [z]);
    assert Top([op1]) == op1;
    assert PopHigher([x, y], [op1], op2.Prec().value) == ([x, y], [op1]);
    assert [op1] + [op2] == [op1, op2];
    assert Push(op2, [x, y], [op1]) == Ok(([x, y], [op1, op2]));
    StepsCons(op2, [z], [x, y], [op1]);
    assert [z] == [z] + [] && [x, y] + [z] == [x, y, z];
    assert Push(z, [x, y], [op1, op2]) == Ok(([x, y, z], [op1, op2]));
    StepsCons(z, [], [x, y], [op1, op2]);
    assert Steps([x, op1, y, op2, z], [], []) == Ok(([x, y, z], [op1, op2]));
    assert Reverse([op1, op2]) == [op2, op1] && [x, y, z] + [op2, op1] == [x, y, z, op2, op1];
    assert ShuntTokens([x, op1, y, op2, z]) == Drain([x, y, z], [op1, op2]);
  }

  /**
   * Two operators between three numbers: the first is output before the
   * second exactly when it binds at least as tightly, so equal precedence
   * groups to the left, `^` included.
   */
  lemma ThreeOperands(x: Token, op1: Token, y: Token, op2: Token, z: Token)
    requires x.IsNum() && y.IsNum() && z.IsNum() && op1.IsOp() && op2.IsOp()
    ensures op1.Prec().value >= op2.Prec().value ==>
      ShuntTokens([x, op1, y, op2, z]) == Ok([x, y, op1, z, op2])
    ensures op1.Prec().value < op2.Prec().value ==>
      ShuntTokens([x, op1, y, op2, z]) == Ok([x, y, z, op2, op1])
  {
    if op1.Prec().value >= op2.Prec().value {
      SecondOperatorPops(x, op1, y, op2, z);
    } else {
      SecondOperatorStacks(x, op1, y, op2, z);
    }
  }

  class ShuntingYard {
    var stream: TokenStream

    constructor (stream: TokenStream)
      ensures this.stream == stream
    {
      this.stream := stream;
    }

    /** `get_stack`, returning the reason instead of panicking. */
    method GetStack() returns (r: Result<seq<Token>>)
      requires stream.Valid()
      modifies stream
      ensures stream.Valid()
      ensures r == Shunt(stream.input, old(stream.pos), [], [])
      ensures r.Ok? ==> stream.pos == |stream.input|
    {
      var tokens: seq<Token> := [];
      var opStack: seq<Token> := [];
      while true
        invariant stream.Valid()
        invariant Shunt(stream.input, stream.pos, tokens, opStack) == Shunt(stream.input, old(stream.pos), [], [])
        decreases |stream.input| - stream.pos
      {
        ghost var here := stream.pos;
        var next := stream.Next();
        if next.Err? {
          return Err(next.error);
        }
        if next.value.None? {
          break;
        }
        var token := next.value.value;
        ghost var pushed := Push(token, tokens, opStack);
        assert Shunt(stream.input, here, tokens, opStack) ==
          if pushed.Err? then Err(pushed.error) else Shunt(stream.input, stream.pos, pushed.value.0, pushed.value.1);
        if token.IsNum() {
          tokens := tokens + [token];
        } else if token.IsOp() {
          var prec := token.Prec().value;
          ghost var tokens0, opStack0 := tokens, opStack;
          while |opStack| > 0
            invariant PopHigher(tokens, opStack, prec) == PopHigher(tokens0, opStack0, prec)
            decreases |opStack|
          {
            var operator := Top(opStack);
            if operator.IsOp() && operator.Prec().value >= prec {
              tokens := tokens + [operator];
              opStack := opStack[..|opStack| - 1];
            } else {
              break;
            }
          }
          opStack := opStack + [token];
        } else if token.LeftParen? {
          opStack := opStack + [token];
        } else {
          var escaped := false;
          ghost var tokens0, opStack0 := tokens, opStack;
          while |opStack| > 0
            invariant PopToParen(tokens, opStack) == PopToParen(tokens0, opStack0)
            decreases |opStack|
          {
            var operator := Top(opStack);
            opStack := opStack[..|opStack| - 1];
            if operator == LeftParen {
              escaped := true;
              break;
            }
            tokens := tokens + [operator];
          }
          if !escaped {
            return Err(UnmatchedRightParen);
          }
        }
      }
      while |opStack| > 0
        invariant stream.pos == |stream.input|
        invariant Drain(tokens, opStack) == Shunt(stream.input, old(stream.pos), [], [])
        decreases |opStack|
      {
        var operator := Top(opStack);
        opStack := opStack[..|opStack| - 1];
        if operator == LeftParen {
          return Err(UnmatchedLeftParen);
        }
        tokens := tokens + [operator];
      }
      return Ok(tokens);
    }
  }
}
