/**
 * The vocabulary shared by the scanner, the shunting-yard converter and the
 * postfix reducer: tokens, 32-bit integers, floating-point values and the
 * conditions under which the calculator gives up on a line.
 */
module Tokens {

  const I32_MIN: int := -0x8000_0000
  const I32_MAX: int := 0x7FFF_FFFF

  /** Rust's `i32`. */
  type I32 = x: int | I32_MIN <= x <= I32_MAX

  datatype Option<+T> = None | Some(value: T)

  /** Every way the calculator aborts a line (each is a panic in the program). */
  datatype Error =
    | UnexpectedChar(c: char)   // a character the scanner does not know
    | IntOverflow               // a digit run above i32::MAX, rejected by the i32 parser
    | UnmatchedRightParen       // a `)` found no `(` on the operator stack
    | UnmatchedLeftParen        // a `(` was left on the operator stack at the end
    | TooFewOperands            // an operator found fewer than two values
    | TooManyValues             // more than one value was left after reduction

  datatype Result<+T> = Ok(value: T) | Err(error: Error)

  /**
   * A double-precision value, kept as the term that computes it: the model
   * makes no claim about IEEE-754 rounding, only about which operations are
   * applied to which operands.
   */
  datatype F64 =
    | Literal(text: string)               // the text given to the f64 parser
    | FromInt(n: I32)                     // `n as f64`
    | Zero                                // the `0_f64` fallback operation
    | Compute(op: Token, a: F64, b: F64)  // `op` evaluated in floating point

  datatype Token =
    | Add | Sub | Mul | Div | Pow
    | Int(n: I32)
    | Float(x: F64)
    | LeftParen | RightParen
  {
    /** Binding strength of an operator; the other tokens have none. */
    function Prec(): (r: Option<nat>)
      ensures r.Some? <==> IsOp()
      ensures r.Some? ==> 1 <= r.value <= 3
      ensures r.Some? && r.value == 3 <==> Pow?
    {
      match this
      case Add | Sub => Some(1)
      case Mul | Div => Some(2)
      case Pow => Some(3)
      case _ => None
    }

    predicate IsOp() {
      match this
      case Add | Sub | Mul | Div | Pow => true
      case _ => false
    }

    predicate IsNum() {
      match this
      case Int(_) | Float(_) => true
      case _ => false
    }
  }

  /** Additive operators bind less tightly than multiplicative ones, which bind less tightly than `^`. */
  lemma PrecedenceOrder(additive: Token, multiplicative: Token)
    requires additive.Add? || additive.Sub?
    requires multiplicative.Mul? || multiplicative.Div?
    ensures additive.Prec().value < multiplicative.Prec().value < Pow.Prec().value
  {
  }

  /** The kinds of token a sequence can be sifted for. */
  datatype Kind = Numbers | NonParens | LeftParens

  predicate NotParen(t: Token) { t.IsNum() || t.IsOp() }

  predicate OfKind(t: Token, k: Kind) {
    match k
    case Numbers => t.IsNum()
    case NonParens => NotParen(t)
    case LeftParens => t.LeftParen?
  }

  /** The tokens of `s` of kind `k`, in order. */
  function Sift(s: seq<Token>, k: Kind): seq<Token> {
    if s == [] then [] else (if OfKind(s[0], k) then [s[0]] else []) + Sift(s[1..], k)
  }

  /** `Sift` keeps exactly the tokens of the kind. */
  lemma {:induction false} SiftSound(s: seq<Token>, k: Kind, x: Token)
    ensures x in Sift(s, k) <==> x in s && OfKind(x, k)
  {
    if s != [] {
      SiftSound(s[1..], k, x);
      assert s == [s[0]] + s[1..];
    }
  }

  lemma {:induction false} SiftAppend(a: seq<Token>, b: seq<Token>, k: Kind)
    ensures Sift(a + b, k) == Sift(a, k) + Sift(b, k)
  {
    if a == [] {
      assert a + b == b;
    } else {
      var h := if OfKind(a[0], k) then [a[0]] else [];
      assert (a + b)[0] == a[0] && (a + b)[1..] == a[1..] + b;
      assert Sift(a + b, k) == h + Sift(a[1..] + b, k);
      SiftAppend(a[1..], b, k);
    }
  }

  lemma {:induction false} SiftAll(s: seq<Token>, k: Kind)
    requires forall i | 0 <= i < |s| :: OfKind(s[i], k)
    ensures Sift(s, k) == s
  {
    if s != [] {
      SiftAll(s[1..], k);
    }
  }

  lemma {:induction false} SiftNone(s: seq<Token>, k: Kind)
    requires forall i | 0 <= i < |s| :: !OfKind(s[i], k)
    ensures Sift(s, k) == []
  {
    if s != [] {
      SiftNone(s[1..], k);
    }
  }

  /** The elements of `s` from last to first: what popping a stack empty yields. */
  function Reverse<T>(s: seq<T>): (r: seq<T>)
    ensures |r| == |s|
  {
    if s == [] then [] else [s[|s| - 1]] + Reverse(s[..|s| - 1])
  }

  /** Element `i` of the reversal is element `i` counted from the end. */
  lemma {:induction false} ReverseIndex<T>(s: seq<T>)
    ensures forall i | 0 <= i < |s| :: Reverse(s)[i] == s[|s| - 1 - i]
    decreases |s|
  {
    if s != [] {
      ReverseIndex(s[..|s| - 1]);
    }
  }

  lemma ReverseSnoc<T>(s: seq<T>, x: T)
    ensures Reverse(s + [x]) == [x] + Reverse(s)
  {
    assert (s + [x])[..|s|] == s;
  }

  lemma ReverseCons<T>(x: T, s: seq<T>)
    ensures Reverse([x] + s) == Reverse(s) + [x]
  {
    ReverseIndex([x] + s);
    ReverseIndex(s);
    assert forall i | 0 <= i < |s| + 1 :: Reverse([x] + s)[i] == (Reverse(s) + [x])[i];
  }

  lemma ReverseMultiset<T>(s: seq<T>)
    ensures multiset(Reverse(s)) == multiset(s)
  {
    if s != [] {
      var init, last := s[..|s| - 1], s[|s| - 1];
      ReverseMultiset(init);
      assert s == init + [last];
      assert Reverse(s) == [last] + Reverse(init);
    }
  }
}
