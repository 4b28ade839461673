/**
 * The postfix reducer (`run_stack`): numbers are pushed on a value stack,
 * an operator replaces the two topmost values by its result, and the line's
 * value is what is left at the end.
 *
 * Printing is replaced by an `Outcome`: no value, one value, or the reason
 * the program panics.
 */
module Reducer {
  import opened Tokens
  import opened Arithmetic

  /** One iteration of the `for token in stack` loop over the value stack `mem`. */
  function Apply(t: Token, mem: seq<Token>): Result<seq<Token>> {
    if t.IsNum() then Ok(mem + [t])
    else if t.IsOp() then
      if |mem| < 2 then Err(TooFewOperands)
      else Ok(mem[..|mem| - 2] + [OperationResult(t, mem[|mem| - 2], mem[|mem| - 1])])
    else Ok(mem)
  }

  /** The whole loop from the value stack `mem`. */
  function Reduce(ts: seq<Token>, mem: seq<Token>): Result<seq<Token>>
    decreases |ts|
  {
    if ts == [] then Ok(mem)
    else
      match Apply(ts[0], mem)
      case Err(e) => Err(e)
      case Ok(m) => Reduce(ts[1..], m)
  }

  /** What `run_stack` does with a line. */
  datatype Outcome =
    | Empty              // nothing left: prints "0 (empty)"
    | Value(v: Token)    // one value left: prints it
    | Failed(error: Error)

  /** The test on the length of the value stack after the loop. */
  function Finish(mem: seq<Token>): Outcome {
    if |mem| == 0 then Empty
    else if |mem| == 1 then Value(mem[0])
    else Failed(TooManyValues)
  }

  /** `run_stack` as a function of the postfix sequence. */
  function RunPostfix(ts: seq<Token>): Outcome {
    match Reduce(ts, [])
    case Err(e) => Failed(e)
    case Ok(mem) => Finish(mem)
  }

  /** `run_stack`, returning the outcome instead of printing it or panicking. */
  method RunStack(stack: seq<Token>) returns (o: Outcome)
    ensures o == RunPostfix(stack)
  {
    var mem: seq<Token> := [];
    for i := 0 to |stack|
      invariant Reduce(stack[i..], mem) == Reduce(stack, [])
    {
      var token := stack[i];
      assert stack[i..][0] == token && stack[i..][1..] == stack[i + 1..];
      if token.IsNum() {
        mem := mem + [token];
      } else if token.IsOp() {
        ghost var mem0 := mem;
        if |mem| == 0 {
          return Failed(TooFewOperands);
        }
        var b := mem[|mem| - 1];
        mem := mem[..|mem| - 1];
        if |mem| == 0 {
          return Failed(TooFewOperands);
        }
        var a := mem[|mem| - 1];
        mem := mem[..|mem| - 1];
        mem := mem + [OperationResult(token, a, b)];
        assert mem == mem0[..|mem0| - 2] + [OperationResult(token, mem0[|mem0| - 2], mem0[|mem0| - 1])];
      }
    }
    assert stack[|stack|..] == [];
    if |mem| == 0 {
      o := Empty;
    } else if |mem| == 1 {
      o := Value(mem[0]);
    } else {
      o := Failed(TooManyValues);
    }
  }

  /** How a token changes the height of the value stack. */
  function Weight(t: Token): int {
    if t.IsNum() then 1 else if t.IsOp() then -1 else 0
  }

  /** Numbers minus operators: the height the value stack gains over `ts`. */
  function Height(ts: seq<Token>): int {
    if ts == [] then 0 else Weight(ts[0]) + Height(ts[1..])
  }

  /** Starting at height `d`, every operator of `ts` finds two values. */
  ghost predicate Enough(d: int, ts: seq<Token>) {
    forall k | 0 <= k < |ts| && ts[k].IsOp() :: d + Height(ts[..k]) >= 2
  }

  ghost predicate AllNumbers(mem: seq<Token>) {
    forall t | t in mem :: t.IsNum()
  }

  /** `Enough` unfolded by one token. */
  lemma EnoughCons(d: int, ts: seq<Token>)
    requires ts != []
    ensures Enough(d, ts) <==> (ts[0].IsOp() ==> d >= 2) && Enough(d + Weight(ts[0]), ts[1..])
  {
    forall k | 1 <= k <= |ts|
      ensures Height(ts[..k]) == Weight(ts[0]) + Height(ts[1..][..k - 1])
    {
      assert ts[..k][0] == ts[0] && ts[..k][1..] == ts[1..][..k - 1];
    }
    if (ts[0].IsOp() ==> d >= 2) && Enough(d + Weight(ts[0]), ts[1..]) {
      forall k | 0 <= k < |ts| && ts[k].IsOp() ensures d + Height(ts[..k]) >= 2 {
        if k > 0 {
          assert ts[1..][k - 1] == ts[k];
        }
      }
    }
    if Enough(d, ts) {
      forall k | 0 <= k < |ts| - 1 && ts[1..][k].IsOp()
        ensures d + Weight(ts[0]) + Height(ts[1..][..k]) >= 2
      {
        assert ts[k + 1] == ts[1..][k];
      }
      assert ts[0].IsOp() ==> d + Height(ts[..0]) >= 2;
    }
  }

  /**
   * Reducing from a stack of values: it fails exactly when some operator
   * finds fewer than two values, and only with `TooFewOperands`; otherwise
   * the stack ends `Height(ts)` values higher and still holds only numbers.
   */
  lemma {:induction false} ReduceShape(ts: seq<Token>, mem: seq<Token>)
    requires AllNumbers(mem)
    ensures Reduce(ts, mem).Ok? <==> Enough(|mem|, ts)
    ensures Reduce(ts, mem).Err? ==> Reduce(ts, mem).error == TooFewOperands
    ensures Reduce(ts, mem).Ok? ==>
      |Reduce(ts, mem).value| == |mem| + Height(ts) && AllNumbers(Reduce(ts, mem).value)
    decreases |ts|
  {
    if ts != [] {
      EnoughCons(|mem|, ts);
      if Apply(ts[0], mem).Ok? {
        var m := Apply(ts[0], mem).value;
        assert |m| == |mem| + Weight(ts[0]);
        assert AllNumbers(m) by {
          forall t | t in m ensures t.IsNum() {
            if ts[0].IsOp() && t !in mem[..|mem| - 2] {
              assert t == OperationResult(ts[0], mem[|mem| - 2], mem[|mem| - 1]);
            } else if ts[0].IsOp() {
              assert t in mem;
            }
          }
        }
        ReduceShape(ts[1..], m);
      }
    }
  }

  /** Running two pieces one after the other is running their concatenation. */
  lemma {:induction false} ReduceAppend(a: seq<Token>, b: seq<Token>, mem: seq<Token>)
    ensures Reduce(a + b, mem) ==
      match Reduce(a, mem)
      case Err(e) => Err(e)
      case Ok(m) => Reduce(b, m)
    decreases |a|
  {
    if a == [] {
      assert a + b == b;
    } else {
      assert (a + b)[0] == a[0] && (a + b)[1..] == a[1..] + b;
      if Apply(a[0], mem).Ok? {
        ReduceAppend(a[1..], b, Apply(a[0], mem).value);
      }
    }
  }

  /**
   * The outcome of a postfix sequence in terms of its token counts: too few
   * operands exactly when some operator comes too early, and otherwise no
   * value, one value or too many values as numbers minus operators is 0, 1
   * or more; a single value is always a number.
   */
  lemma RunPostfixOutcome(ts: seq<Token>)
    ensures RunPostfix(ts) == Failed(TooFewOperands) <==> !Enough(0, ts)
    ensures RunPostfix(ts) == Empty <==> Enough(0, ts) && Height(ts) == 0
    ensures RunPostfix(ts).Value? <==> Enough(0, ts) && Height(ts) == 1
    ensures RunPostfix(ts) == Failed(TooManyValues) <==> Enough(0, ts) && Height(ts) >= 2
    ensures RunPostfix(ts).Value? ==> RunPostfix(ts).v.IsNum()
  {
    ReduceShape(ts, []);
    if Reduce(ts, []).Ok? {
      var mem := Reduce(ts, []).value;
      if |mem| == 1 {
        assert mem[0] in mem;
      }
    }
  }
}
