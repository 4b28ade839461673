/**
 * The scanner (`TokenStream`): a one-character-lookahead cursor over the
 * input line that skips spaces and yields one token per call.
 *
 * `Lex` is the specification of one call, as a function of the line and the
 * cursor; the `TokenStream` methods are proved to follow it, and the lemmas
 * below state what it does in terms of the characters consumed.
 */
module Scanner {
  import opened Tokens

  predicate IsSpace(c: char) { c == ' ' }

  /** `char::is_digit(10)`: the ASCII decimal digits only. */
  predicate IsDigit(c: char) { '0' <= c <= '9' }

  /** The characters that are tokens on their own. */
  predicate IsSymbol(c: char) { c in "+-*/^()" }

  /** Every character of `s[p..q]` satisfies `cond`. */
  predicate Run(s: string, p: nat, q: nat, cond: char -> bool)
    requires p <= q <= |s|
  {
    forall i | p <= i < q :: cond(s[i])
  }

  predicate AllDigits(ds: string) {
    forall i | 0 <= i < |ds| :: IsDigit(ds[i])
  }

  /** The end of the longest run of characters satisfying `cond` from `p`. */
  function RunEnd(s: string, p: nat, cond: char -> bool): (q: nat)
    requires p <= |s|
    ensures p <= q <= |s|
    ensures Run(s, p, q, cond)
    ensures q == |s| || !cond(s[q])
    decreases |s| - p
  {
    if p < |s| && cond(s[p]) then RunEnd(s, p + 1, cond) else p
  }

  /** A run that cannot be extended is the one `RunEnd` finds. */
  lemma {:induction false} RunEndUnique(s: string, p: nat, q: nat, cond: char -> bool)
    requires p <= q <= |s| && Run(s, p, q, cond)
    requires q == |s| || !cond(s[q])
    ensures RunEnd(s, p, cond) == q
    decreases q - p
  {
    if p < q {
      RunEndUnique(s, p + 1, q, cond);
    }
  }

  function DigitValue(c: char): nat
    requires IsDigit(c)
  {
    (c as int) - ('0' as int)
  }

  /** The value of a string of decimal digits, most significant first. */
  function DigitsValue(ds: string): nat
    requires AllDigits(ds)
  {
    if ds == [] then 0 else 10 * DigitsValue(ds[..|ds| - 1]) + DigitValue(ds[|ds| - 1])
  }

  function DigitChar(d: nat): (c: char)
    requires d < 10
    ensures IsDigit(c) && DigitValue(c) == d
  {
    (('0' as int) + d) as char
  }

  /** The decimal text of a natural number, as `i32`'s `Display` writes it. */
  function Decimal(n: nat): (ds: string)
    ensures |ds| > 0 && AllDigits(ds)
  {
    if n < 10 then [DigitChar(n)] else Decimal(n / 10) + [DigitChar(n % 10)]
  }

  /** Reading back the decimal text of a number gives the number. */
  lemma {:induction false} DecimalRoundTrip(n: nat)
    ensures DigitsValue(Decimal(n)) == n
  {
    var ds := Decimal(n);
    if n >= 10 {
      DecimalRoundTrip(n / 10);
      assert ds[..|ds| - 1] == Decimal(n / 10);
    } else {
      assert ds[..|ds| - 1] == [];
    }
  }

  /** `int`: `parse::<i32>().unwrap()` on a non-empty string of digits. */
  function ParseInt(ds: string): Result<I32>
    requires |ds| > 0 && AllDigits(ds)
  {
    if DigitsValue(ds) <= I32_MAX then Ok(DigitsValue(ds)) else Err(IntOverflow)
  }

  /** Attaches the cursor position to a successful result. */
  function Positioned<T>(r: Result<T>, pos: nat): Result<(T, nat)> {
    match r
    case Ok(v) => Ok((v, pos))
    case Err(e) => Err(e)
  }

  /**
   * `read_number` from position `p`, which holds a digit: the longest digit
   * run, then, if a `.` follows, the `.` and the longest digit run after it.
   */
  function LexNumber(s: string, p: nat): (r: Result<(Token, nat)>)
    requires p < |s| && IsDigit(s[p])
    ensures r.Ok? ==> p < r.value.1 <= |s| && r.value.0.IsNum()
  {
    var e := RunEnd(s, p, IsDigit);
    assert AllDigits(s[p..e]);
    if e < |s| && s[e] == '.' then
      var f := RunEnd(s, e + 1, IsDigit);
      Ok((Float(Literal(s[p..f])), f))
    else
      match ParseInt(s[p..e])
      case Ok(v) => Ok((Int(v), e))
      case Err(err) => Err(err)
  }

  /**
   * One call of `read` at cursor `p`: the token and the cursor after it, or
   * no token at the end of the line, or the reason the scanner gives up.
   */
  function Lex(s: string, p: nat): (r: Result<(Option<Token>, nat)>)
    requires p <= |s|
    ensures r.Ok? && r.value.0.None? ==> r.value.1 == |s|
    ensures r.Ok? && r.value.0.Some? ==> p < r.value.1 <= |s|
  {
    var q := RunEnd(s, p, IsSpace);
    if q == |s| then Ok((None, q))
    else
      match s[q]
      case '+' => Ok((Some(Add), q + 1))
      case '-' => Ok((Some(Sub), q + 1))
      case '*' => Ok((Some(Mul), q + 1))
      case '/' => Ok((Some(Div), q + 1))
      case '^' => Ok((Some(Pow), q + 1))
      case '(' => Ok((Some(LeftParen), q + 1))
      case ')' => Ok((Some(RightParen), q + 1))
      case _ =>
        if IsDigit(s[q]) then
          match LexNumber(s, q)
          case Ok((t, e)) => Ok((Some(t), e))
          case Err(err) => Err(err)
        else Err(UnexpectedChar(s[q]))
  }

  /** The whole line scanned ahead of time: every token up to the end or the first error. */
  function ScanAll(s: string, p: nat): Result<seq<Token>>
    requires p <= |s|
    decreases |s| - p
  {
    match Lex(s, p)
    case Err(e) => Err(e)
    case Ok((None, _)) => Ok([])
    case Ok((Some(t), q)) =>
      match ScanAll(s, q)
      case Ok(ts) => Ok([t] + ts)
      case Err(e) => Err(e)
  }

  /** A scanned token is followed by the scan of the rest of the line. */
  lemma ScanStep(s: string, p: nat, t: Token, q: nat)
    requires p <= |s| && Lex(s, p) == Ok((Some(t), q)) && ScanAll(s, q).Ok?
    ensures ScanAll(s, p) == Ok([t] + ScanAll(s, q).value)
  {
  }

  /** The character an operator or parenthesis token is written with. */
  function Symbol(t: Token): (c: char)
    requires !t.IsNum()
    ensures IsSymbol(c)
  {
    match t
    case Add => '+'
    case Sub => '-'
    case Mul => '*'
    case Div => '/'
    case Pow => '^'
    case LeftParen => '('
    case RightParen => ')'
  }

  /**
   * `TokenStream`: the `Peekable<Chars>` over the line becomes the line and
   * the index of the next character.
   */
  class TokenStream {
    const input: string
    var pos: nat

    ghost predicate Valid()
      reads this
    {
      pos <= |input|
    }

    constructor (input: string)
      ensures Valid() && this.input == input && pos == 0
    {
      this.input := input;
      pos := 0;
    }

    /** `stream.peek()` */
    function Peek(): Option<char>
      reads this
      requires Valid()
    {
      if pos < |input| then Some(input[pos]) else None
    }

    /** `read_while`: consumes and returns the longest run satisfying `condition`. */
    method ReadWhile(condition: char -> bool) returns (value: string)
      requires Valid()
      modifies this
      ensures Valid()
      ensures pos == RunEnd(input, old(pos), condition)
      ensures value == input[old(pos)..pos]
    {
      value := [];
      while Peek().Some?
        invariant Valid() && old(pos) <= pos
        invariant value == input[old(pos)..pos]
        invariant RunEnd(input, pos, condition) == RunEnd(input, old(pos), condition)
        decreases |input| - pos
      {
        var current := Peek().value;
        if condition(current) {
          value := value + [current];
          pos := pos + 1;  // stream.next()
        } else {
          break;
        }
      }
    }

    /** `get_digits` */
    method GetDigits() returns (digits: string)
      requires Valid()
      modifies this
      ensures Valid()
      ensures pos == RunEnd(input, old(pos), IsDigit)
      ensures digits == input[old(pos)..pos]
    {
      digits := ReadWhile(IsDigit);
    }

    /** `read_number`, called when the next character is a digit. */
    method ReadNumber() returns (r: Result<Token>)
      requires Valid() && pos < |input| && IsDigit(input[pos])
      modifies this
      ensures Valid()
      ensures LexNumber(input, old(pos)) == Positioned(r, pos)
    {
      var integerPart := GetDigits();
      assert AllDigits(integerPart);
      var current := Peek();
      if current == Some('.') {
        var number := integerPart;
        number := number + [current.value];
        pos := pos + 1;  // stream.next()
        var fraction := GetDigits();
        number := number + fraction;
        assert number == input[old(pos)..pos];
        r := Ok(Float(Literal(number)));
      } else {
        match ParseInt(integerPart)
        case Ok(v) => r := Ok(Int(v));
        case Err(err) => r := Err(err);
      }
    }

    /** `read`: skips spaces, then yields the next token, if any. */
    method Read() returns (r: Result<Option<Token>>)
      requires Valid()
      modifies this
      ensures Valid()
      ensures Lex(input, old(pos)) == Positioned(r, pos)
    {
      var _ := ReadWhile(IsSpace);
      var current := Peek();
      match current
      case None =>
        r := Ok(None);
      case Some(c) =>
        match c
        case '+' => pos := pos + 1; r := Ok(Some(Add));
        case '-' => pos := pos + 1; r := Ok(Some(Sub));
        case '*' => pos := pos + 1; r := Ok(Some(Mul));
        case '/' => pos := pos + 1; r := Ok(Some(Div));
        case '^' => pos := pos + 1; r := Ok(Some(Pow));
        case '(' => pos := pos + 1; r := Ok(Some(LeftParen));
        case ')' => pos := pos + 1; r := Ok(Some(RightParen));
        case _ =>
          if IsDigit(c) {
            var number := ReadNumber();
            match number
            case Ok(t) => r := Ok(Some(t));
            case Err(err) => r := Err(err);
          } else {
            r := Err(UnexpectedChar(c));
          }
    }

    /** `Iterator::next` */
    method Next() returns (r: Result<Option<Token>>)
      requires Valid()
      modifies this
      ensures Valid()
      ensures Lex(input, old(pos)) == Positioned(r, pos)
    {
      r := Read();
    }
  }

  /** Spaces in front of a token change nothing. */
  lemma LexSkipsSpaces(s: string, p: nat, q: nat)
    requires p <= q <= |s| && Run(s, p, q, IsSpace)
    ensures Lex(s, p) == Lex(s, q)
  {
    RunEndUnique(s, p, RunEnd(s, q, IsSpace), IsSpace);
  }

  /** The scanner reports the end of the line exactly when only spaces are left. */
  lemma LexAtEnd(s: string, p: nat)
    requires p <= |s|
    ensures Lex(s, p) == Ok((None, |s|)) <==> Run(s, p, |s|, IsSpace)
    ensures Lex(s, p).Ok? && Lex(s, p).value.0.None? <==> Run(s, p, |s|, IsSpace)
  {
    if Run(s, p, |s|, IsSpace) {
      RunEndUnique(s, p, |s|, IsSpace);
    }
  }

  /**
   * An operator or parenthesis is produced exactly when its character is the
   * first one after the spaces, and it consumes that one character.
   */
  lemma LexSymbol(s: string, p: nat, t: Token)
    requires p <= |s| && !t.IsNum()
    ensures var q := RunEnd(s, p, IsSpace);
      Lex(s, p).Ok? && Lex(s, p).value.0 == Some(t) <==> q < |s| && s[q] == Symbol(t)
    ensures Lex(s, p).Ok? && Lex(s, p).value.0 == Some(t) ==>
      Lex(s, p).value.1 == RunEnd(s, p, IsSpace) + 1
  {
    var q := RunEnd(s, p, IsSpace);
    if q < |s| && IsDigit(s[q]) {
      var r := LexNumber(s, q);
      assert r.Ok? ==> r.value.0.IsNum();
    }
  }

  /**
   * The scanner rejects a character exactly when the first character after
   * the spaces is neither a digit nor one of `+ - * / ^ ( )`: a letter, a
   * tab, a `.` that no digit precedes.
   */
  lemma LexUnexpected(s: string, p: nat)
    requires p <= |s|
    ensures var q := RunEnd(s, p, IsSpace);
      Lex(s, p).Err? && Lex(s, p).error.UnexpectedChar? <==>
      q < |s| && !IsDigit(s[q]) && !IsSymbol(s[q])
    ensures Lex(s, p).Err? && Lex(s, p).error.UnexpectedChar? ==>
      Lex(s, p).error.c == s[RunEnd(s, p, IsSpace)]
    ensures Lex(s, p).Err? ==> Lex(s, p).error.UnexpectedChar? || Lex(s, p).error == IntOverflow
  {
    var q := RunEnd(s, p, IsSpace);
    if q < |s| && IsDigit(s[q]) {
      var r := LexNumber(s, q);
      assert r.Err? ==> r.error == IntOverflow;
    }
  }

  /**
   * An `Int` token is the value of a maximal, non-empty digit run that starts
   * after the spaces and is not followed by a `.`.
   */
  lemma LexInt(s: string, p: nat)
    requires p <= |s|
    requires Lex(s, p).Ok? && Lex(s, p).value.0.Some? && Lex(s, p).value.0.value.Int?
    ensures var q, e := RunEnd(s, p, IsSpace), Lex(s, p).value.1;
      && q < e && Run(s, q, e, IsDigit)
      && (e == |s| || (!IsDigit(s[e]) && s[e] != '.'))
      && AllDigits(s[q..e])
      && Lex(s, p).value.0.value.n == DigitsValue(s[q..e])
  {
    var q := RunEnd(s, p, IsSpace);
    assert q < |s| && IsDigit(s[q]);
  }

  /**
   * A `Float` token is the text of a maximal run made of a non-empty digit
   * run, a `.`, and a possibly empty digit run.
   */
  lemma LexFloat(s: string, p: nat)
    requires p <= |s|
    requires Lex(s, p).Ok? && Lex(s, p).value.0.Some? && Lex(s, p).value.0.value.Float?
    ensures var q, f := RunEnd(s, p, IsSpace), Lex(s, p).value.1;
      && q < f
      && Lex(s, p).value.0.value.x == Literal(s[q..f])
      && (f == |s| || !IsDigit(s[f]))
      && exists d :: q < d < f && s[d] == '.' && Run(s, q, d, IsDigit) && Run(s, d + 1, f, IsDigit)
  {
    var q := RunEnd(s, p, IsSpace);
    assert q < |s| && IsDigit(s[q]);
    var d := RunEnd(s, q, IsDigit);
    assert q < d && s[d] == '.';
  }

  /** A digit run is rejected exactly when it is not followed by `.` and exceeds i32::MAX. */
  lemma LexOverflow(s: string, p: nat)
    requires p <= |s|
    ensures var q := RunEnd(s, p, IsSpace);
      Lex(s, p) == Err(IntOverflow) <==>
      && q < |s| && IsDigit(s[q])
      && var e := RunEnd(s, q, IsDigit);
         && (e == |s| || s[e] != '.')
         && AllDigits(s[q..e])
         && DigitsValue(s[q..e]) > I32_MAX
  {
  }

  /**
   * Round trip: the decimal text of an `i32` value, after any spaces and
   * followed by anything that cannot continue a number, scans back to that
   * value.
   */
  lemma LexDecimal(s: string, p: nat, q: nat, n: nat)
    requires n <= I32_MAX
    requires p <= q && q + |Decimal(n)| <= |s|
    requires Run(s, p, q, IsSpace) && s[q..q + |Decimal(n)|] == Decimal(n)
    requires var e := q + |Decimal(n)|; e == |s| || (!IsDigit(s[e]) && s[e] != '.')
    ensures Lex(s, p) == Ok((Some(Int(n)), q + |Decimal(n)|))
  {
    var ds := Decimal(n);
    var e := q + |ds|;
    assert s[q] == ds[0];
    RunEndUnique(s, p, q, IsSpace);
    assert Run(s, q, e, IsDigit) by {
      forall i | q <= i < e ensures IsDigit(s[i]) {
        assert s[i] == s[q..e][i - q] == ds[i - q];
      }
    }
    RunEndUnique(s, q, e, IsDigit);
    DecimalRoundTrip(n);
    assert ParseInt(s[q..e]) == Ok(n);
    assert LexNumber(s, q) == Ok((Int(n), e));
  }

  /** A lone digit after the spaces is the `Int` it denotes. */
  lemma LexDigit(s: string, p: nat, q: nat)
    requires p <= q < |s| && Run(s, p, q, IsSpace) && IsDigit(s[q])
    requires q + 1 == |s| || (!IsDigit(s[q + 1]) && s[q + 1] != '.')
    ensures Lex(s, p) == Ok((Some(Int(DigitValue(s[q]))), q + 1))
  {
    assert Decimal(DigitValue(s[q])) == s[q..q + 1];
    LexDecimal(s, p, q, DigitValue(s[q]));
  }

}
