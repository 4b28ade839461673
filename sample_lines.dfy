/**
 * The calculator on particular lines: precedence, grouping, integer
 * division, the empty line and each way a line is rejected.
 */
module SampleLines {
  import opened Tokens
  import opened Arithmetic
  import opened Scanner
  import opened ShuntingYard
  import opened Reducer
  import opened Calculator

  /** "2+3*4" scans to the tokens of 2 + (3 * 4). */
  lemma ScanPrecedence()
    ensures ScanAll("2+3*4", 0) == Ok([Int(2), Add, Int(3), Mul, Int(4)])
  {
    var s := "2+3*4";
    LexAtEnd(s, 5);
    LexDigit(s, 4, 4);
    ScanStep(s, 4, Int(4), 5);
    assert [Int(4)] + [] == [Int(4)];
    ScanStep(s, 3, Mul, 4);
    assert [Mul] + [Int(4)] == [Mul, Int(4)];
    LexDigit(s, 2, 2);
    ScanStep(s, 2, Int(3), 3);
    assert [Int(3)] + [Mul, Int(4)] == [Int(3), Mul, Int(4)];
    ScanStep(s, 1, Add, 2);
    assert [Add] + [Int(3), Mul, Int(4)] == [Add, Int(3), Mul, Int(4)];
    LexDigit(s, 0, 0);
    ScanStep(s, 0, Int(2), 1);
    assert [Int(2)] + [Add, Int(3), Mul, Int(4)] == [Int(2), Add, Int(3), Mul, Int(4)];
  }

  /** Multiplication binds tighter than addition: 2 + 3 * 4 is 14. */
  lemma PrecedenceTokens()
    ensures EvaluateTokens([Int(2), Add, Int(3), Mul, Int(4)]) == Value(Int(14))
  {
    var e := Bin(Add, Num(Int(2)), Bin(Mul, Num(Int(3)), Num(Int(4))));
    assert WellFormed(e);
    assert Infix(e) == [Int(2), Add, Int(3), Mul, Int(4)];
    EvaluateInfix(e);
    assert Eval(e) == Int(14);
  }

  lemma PrecedenceLine()
    ensures Evaluate("2+3*4") == Value(Int(14))
  {
    ScanPrecedence();
    EvaluateScanned("2+3*4");
    PrecedenceTokens();
  }

  /** "(2+3)*4" scans to the tokens of (2 + 3) * 4. */
  lemma ScanGrouping()
    ensures ScanAll("(2+3)*4", 0) == Ok([LeftParen, Int(2), Add, Int(3), RightParen, Mul, Int(4)])
  {
    var s := "(2+3)*4";
    LexAtEnd(s, 7);
    LexDigit(s, 6, 6);
    ScanStep(s, 6, Int(4), 7);
    assert [Int(4)] + [] == [Int(4)];
    ScanStep(s, 5, Mul, 6);
    assert [Mul] + [Int(4)] == [Mul, Int(4)];
    ScanStep(s, 4, RightParen, 5);
    assert [RightParen] + [Mul, Int(4)] == [RightParen, Mul, Int(4)];
    LexDigit(s, 3, 3);
    ScanStep(s, 3, Int(3), 4);
    assert [Int(3)] + [RightParen, Mul, Int(4)] == [Int(3), RightParen, Mul, Int(4)];
    ScanStep(s, 2, Add, 3);
    assert [Add] + [Int(3), RightParen, Mul, Int(4)] == [Add, Int(3), RightParen, Mul, Int(4)];
    LexDigit(s, 1, 1);
    ScanStep(s, 1, Int(2), 2);
    assert [Int(2)] + [Add, Int(3), RightParen, Mul, Int(4)] == [Int(2), Add, Int(3), RightParen, Mul, Int(4)];
    ScanStep(s, 0, LeftParen, 1);
    assert [LeftParen] + [Int(2), Add, Int(3), RightParen, Mul, Int(4)]
        == [LeftParen, Int(2), Add, Int(3), RightParen, Mul, Int(4)];
  }

  /** Parentheses override precedence: (2 + 3) * 4 is 20. */
  lemma GroupingTokens()
    ensures EvaluateTokens([LeftParen, Int(2), Add, Int(3), RightParen, Mul, Int(4)]) == Value(Int(20))
  {
    var e := Bin(Mul, Group(Bin(Add, Num(Int(2)), Num(Int(3)))), Num(Int(4)));
    assert WellFormed(e);
    assert Infix(e) == [LeftParen, Int(2), Add, Int(3), RightParen, Mul, Int(4)];
    EvaluateInfix(e);
    assert Eval(e) == Int(20);
  }

  lemma GroupingLine()
    ensures Evaluate("(2+3)*4") == Value(Int(20))
  {
    ScanGrouping();
    EvaluateScanned("(2+3)*4");
    GroupingTokens();
  }

  /** "2^3^2" scans to two powers between three numbers. */
  lemma ScanPowers()
    ensures ScanAll("2^3^2", 0) == Ok([Int(2), Pow, Int(3), Pow, Int(2)])
  {
    var s := "2^3^2";
    LexAtEnd(s, 5);
    LexDigit(s, 4, 4);
    ScanStep(s, 4, Int(2), 5);
    assert [Int(2)] + [] == [Int(2)];
    ScanStep(s, 3, Pow, 4);
    assert [Pow] + [Int(2)] == [Pow, Int(2)];
    LexDigit(s, 2, 2);
    ScanStep(s, 2, Int(3), 3);
    assert [Int(3)] + [Pow, Int(2)] == [Int(3), Pow, Int(2)];
    ScanStep(s, 1, Pow, 2);
    assert [Pow] + [Int(3), Pow, Int(2)] == [Pow, Int(3), Pow, Int(2)];
    LexDigit(s, 0, 0);
    ScanStep(s, 0, Int(2), 1);
    assert [Int(2)] + [Pow, Int(3), Pow, Int(2)] == [Int(2), Pow, Int(3), Pow, Int(2)];
  }

  /** `^` groups to the left like the other operators: 2^3^2 is (2^3)^2 = 64, not 2^9. */
  lemma PowersTokens()
    ensures EvaluateTokens([Int(2), Pow, Int(3), Pow, Int(2)]) == Value(Int(64))
  {
    var e := Bin(Pow, Bin(Pow, Num(Int(2)), Num(Int(3))), Num(Int(2)));
    assert WellFormed(e);
    assert Infix(e) == [Int(2), Pow, Int(3), Pow, Int(2)];
    EvaluateInfix(e);
    assert Arithmetic.Pow(2, 3) == 8 && Arithmetic.Pow(8, 2) == 64;
    assert Eval(e) == Int(64);
  }

  lemma PowersLine()
    ensures Evaluate("2^3^2") == Value(Int(64))
  {
    ScanPowers();
    EvaluateScanned("2^3^2");
    PowersTokens();
  }

  /** "7/2" and "7/0" scan to a division of two numbers. */
  lemma ScanDivision(d: char)
    requires '0' <= d <= '9'
    ensures ScanAll(['7', '/', d], 0) == Ok([Int(7), Div, Int(DigitValue(d))])
  {
    var s := ['7', '/', d];
    LexAtEnd(s, 3);
    LexDigit(s, 2, 2);
    ScanStep(s, 2, Int(DigitValue(d)), 3);
    assert [Int(DigitValue(d))] + [] == [Int(DigitValue(d))];
    ScanStep(s, 1, Div, 2);
    assert [Div] + [Int(DigitValue(d))] == [Div, Int(DigitValue(d))];
    LexDigit(s, 0, 0);
    ScanStep(s, 0, Int(7), 1);
    assert [Int(7)] + [Div, Int(DigitValue(d))] == [Int(7), Div, Int(DigitValue(d))];
  }

  /** Integer division truncates, and dividing by zero saturates instead of failing. */
  lemma DivisionTokens(y: I32)
    ensures y == 2 ==> EvaluateTokens([Int(7), Div, Int(y)]) == Value(Int(3))
    ensures y == 0 ==> EvaluateTokens([Int(7), Div, Int(y)]) == Value(Int(I32_MAX))
  {
    var e := Bin(Div, Num(Int(7)), Num(Int(y)));
    assert WellFormed(Num(Int(7))) && WellFormed(Num(Int(y)));
    assert Level(Num(Int(7))) == Level(Num(Int(y))) == 4;
    assert WellFormed(e);
    assert Infix(e) == [Int(7), Div, Int(y)];
    EvaluateInfix(e);
    if y == 2 {
      assert TruncDiv(7, 2) == 3;
    }
  }

  lemma DivisionLines()
    ensures Evaluate("7/2") == Value(Int(3))
    ensures Evaluate("7/0") == Value(Int(I32_MAX))
  {
    ScanDivision('2');
    assert "7/2" == ['7', '/', '2'];
    EvaluateScanned("7/2");
    DivisionTokens(2);
    ScanDivision('0');
    assert "7/0" == ['7', '/', '0'];
    EvaluateScanned("7/0");
    DivisionTokens(0);
  }

  /** A line of spaces, or no characters at all, has no value. */
  lemma BlankLines()
    ensures Evaluate("") == Empty
    ensures Evaluate("   ") == Empty
  {
  }

  /** Two numbers with no operator leave two values: the line is rejected. */
  lemma TwoNumbersTokens()
    ensures EvaluateTokens([Int(1), Int(2)]) == Failed(TooManyValues)
  {
  }

  lemma TwoNumbersLine()
    ensures Evaluate("1 2") == Failed(TooManyValues)
  {
    var s := "1 2";
    LexAtEnd(s, 3);
    LexDigit(s, 1, 2);
    ScanStep(s, 1, Int(2), 3);
    assert [Int(2)] + [] == [Int(2)];
    LexDigit(s, 0, 0);
    ScanStep(s, 0, Int(1), 1);
    assert [Int(1)] + [Int(2)] == [Int(1), Int(2)];
    EvaluateScanned(s);
    TwoNumbersTokens();
  }

  /** "5^-1" scans to a power followed by a subtraction: there is no unary minus. */
  lemma ScanNegativeExponent()
    ensures ScanAll("5^-1", 0) == Ok([Int(5), Pow, Sub, Int(1)])
  {
    var s := "5^-1";
    LexAtEnd(s, 4);
    LexDigit(s, 3, 3);
    ScanStep(s, 3, Int(1), 4);
    assert [Int(1)] + [] == [Int(1)];
    ScanStep(s, 2, Sub, 3);
    assert [Sub] + [Int(1)] == [Sub, Int(1)];
    ScanStep(s, 1, Pow, 2);
    assert [Pow] + [Sub, Int(1)] == [Pow, Sub, Int(1)];
    LexDigit(s, 0, 0);
    ScanStep(s, 0, Int(5), 1);
    assert [Int(5)] + [Pow, Sub, Int(1)] == [Int(5), Pow, Sub, Int(1)];
  }

  lemma PowerThenMinus()
    ensures Steps([Int(5), Pow], [], []) == Ok(([Int(5)], [Pow]))
  {
    assert [] + [Int(5)] == [Int(5)] && [] + [Pow] == [Pow];
    assert Push(Int(5), [], []) == Ok(([Int(5)], []));
    assert Push(Pow, [Int(5)], []) == Ok(([Int(5)], [Pow]));
    StepsCons(Int(5), [Pow], [], []);
    StepsCons(Pow, [], [Int(5)], []);
    assert [Pow] + [] == [Pow];
  }

  lemma MinusPopsPower()
    ensures Steps([Sub, Int(1)], [Int(5)], [Pow]) == Ok(([Int(5), Pow, Int(1)], [Sub]))
  {
    assert [] + [Sub] == [Sub];
    assert [Int(5)] + [Pow] == [Int(5), Pow] && [Pow][..0] == [];
    assert [Int(5), Pow] + [Int(1)] == [Int(5), Pow, Int(1)];
    assert Push(Sub, [Int(5)], [Pow]) == Ok(([Int(5), Pow], [Sub]));
    assert Push(Int(1), [Int(5), Pow], [Sub]) == Ok(([Int(5), Pow, Int(1)], [Sub]));
    StepsCons(Sub, [Int(1)], [Int(5)], [Pow]);
    StepsCons(Int(1), [], [Int(5), Pow], [Sub]);
    assert [Int(1)] + [] == [Int(1)];
  }

  /** The `^` of 5 ^ - 1 finds one value only: a negative exponent cannot be written. */
  lemma NegativeExponentTokens()
    ensures EvaluateTokens([Int(5), Pow, Sub, Int(1)]) == Failed(TooFewOperands)
  {
    var ts := [Int(5), Pow, Sub, Int(1)];
    PowerThenMinus();
    MinusPopsPower();
    StepsAppend([Int(5), Pow], [Sub, Int(1)], [], []);
    assert [Int(5), Pow] + [Sub, Int(1)] == ts;
    assert Reverse([Sub]) == [Sub] && [Int(5), Pow, Int(1)] + [Sub] == [Int(5), Pow, Int(1), Sub];
    assert ShuntTokens(ts) == Ok([Int(5), Pow, Int(1), Sub]);
    assert RunPostfix([Int(5), Pow, Int(1), Sub]) == Failed(TooFewOperands);
  }

  lemma NegativeExponentLine()
    ensures Evaluate("5^-1") == Failed(TooFewOperands)
  {
    ScanNegativeExponent();
    EvaluateScanned("5^-1");
    NegativeExponentTokens();
  }

  /** "(1+2" scans to an unclosed group. */
  lemma ScanUnclosed()
    ensures ScanAll("(1+2", 0) == Ok([LeftParen, Int(1), Add, Int(2)])
  {
    var s := "(1+2";
    LexAtEnd(s, 4);
    LexDigit(s, 3, 3);
    ScanStep(s, 3, Int(2), 4);
    assert [Int(2)] + [] == [Int(2)];
    ScanStep(s, 2, Add, 3);
    assert [Add] + [Int(2)] == [Add, Int(2)];
    LexDigit(s, 1, 1);
    ScanStep(s, 1, Int(1), 2);
    assert [Int(1)] + [Add, Int(2)] == [Int(1), Add, Int(2)];
    ScanStep(s, 0, LeftParen, 1);
    assert [LeftParen] + [Int(1), Add, Int(2)] == [LeftParen, Int(1), Add, Int(2)];
  }

  /** "1+2)" scans to a group closed without being opened. */
  lemma ScanUnopened()
    ensures ScanAll("1+2)", 0) == Ok([Int(1), Add, Int(2), RightParen])
  {
    var s := "1+2)";
    LexAtEnd(s, 4);
    ScanStep(s, 3, RightParen, 4);
    assert [RightParen] + [] == [RightParen];
    LexDigit(s, 2, 2);
    ScanStep(s, 2, Int(2), 3);
    assert [Int(2)] + [RightParen] == [Int(2), RightParen];
    ScanStep(s, 1, Add, 2);
    assert [Add] + [Int(2), RightParen] == [Add, Int(2), RightParen];
    LexDigit(s, 0, 0);
    ScanStep(s, 0, Int(1), 1);
    assert [Int(1)] + [Add, Int(2), RightParen] == [Int(1), Add, Int(2), RightParen];
  }

  /** A `(` left open at the end of the line is rejected. */
  lemma UnclosedTokens()
    ensures EvaluateTokens([LeftParen, Int(1), Add, Int(2)]) == Failed(UnmatchedLeftParen)
  {
  }

  lemma UnclosedLine()
    ensures Evaluate("(1+2") == Failed(UnmatchedLeftParen)
  {
    ScanUnclosed();
    EvaluateScanned("(1+2");
    UnclosedTokens();
  }

  /** A `)` with no `(` open is rejected. */
  lemma UnopenedTokens()
    ensures EvaluateTokens([Int(1), Add, Int(2), RightParen]) == Failed(UnmatchedRightParen)
  {
  }

  lemma UnopenedLine()
    ensures Evaluate("1+2)") == Failed(UnmatchedRightParen)
  {
    ScanUnopened();
    EvaluateScanned("1+2)");
    UnopenedTokens();
  }

  /** A number with a `.` is a `Float`, a trailing `.` included. */
  lemma FloatLine()
    ensures Evaluate("12.") == Value(Float(Literal("12.")))
  {
    var s := "12.";
    assert s[0..3] == s;
    assert Lex(s, 0) == Ok((Some(Float(Literal(s))), 3));
    assert Lex(s, 3) == Ok((None, 3));
  }

  /** A second `.` is a character the scanner does not know. */
  lemma SecondDotLine()
    ensures Evaluate("1.2.3") == Failed(UnexpectedChar('.'))
  {
    var s := "1.2.3";
    assert s[0..3] == "1.2";
    RunEndUnique(s, 0, 1, IsDigit);
    RunEndUnique(s, 2, 3, IsDigit);
    assert Lex(s, 0) == Ok((Some(Float(Literal("1.2"))), 3));
    assert Lex(s, 3) == Err(UnexpectedChar('.'));
  }

  /** So is a letter. */
  lemma LetterLine()
    ensures Evaluate("2 x") == Failed(UnexpectedChar('x'))
  {
    LexDigit("2 x", 0, 0);
    assert Lex("2 x", 1) == Err(UnexpectedChar('x'));
  }
}
