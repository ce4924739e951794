/**
 * The Pratt parser (parser.cpp, parser.hpp and the rule table KEYS_DEF of
 * scanner.hpp): it pulls tokens from the scanner and builds the expression
 * tree, reporting errors once per panic and resynchronising at statement
 * boundaries.
 */
module Parsers {
  import Value
  import opened Scanners

  /** Precedence (parser.hpp), from the loosest to the tightest binding. */
  const PrecNone := 0
  const PrecAssignment := 1
  const PrecTernary := 2
  const PrecLogicalOr := 3
  const PrecLogicalAnd := 4
  const PrecBitwiseOr := 5
  const PrecBitwiseXor := 6
  const PrecBitwiseAnd := 7
  const PrecEquality := 8
  const PrecComparison := 9
  const PrecShift := 10
  const PrecTerm := 11
  const PrecFactor := 12
  const PrecUnary := 13
  const PrecCall := 14
  const PrecMember := 15
  const PrecPrimary := 16

  /** The prefix parse functions of the rule table; NoPrefix is a NULL entry. */
  datatype PrefixRule = NoPrefix | GroupingPrefix | UnaryPrefix | VariablePrefix | StringPrefix
    | IntPrefix | FloatPrefix | TypePrefix | LiteralPrefix

  /** The infix parse functions of the rule table; NoInfix is a NULL entry. */
  datatype InfixRule = NoInfix | CallInfix | DotInfix | TernaryInfix | BinaryInfix | AssignmentInfix | SuffixInfix

  datatype ParseRule = ParseRule(prefix: PrefixRule, infix: InfixRule, precedence: int)

  /** getExpRule: the entry of KEYS_DEF for a token type; every precedence is below PREC_PRIMARY. */
  function Rule(t: TokenType): (r: ParseRule)
    ensures PrecNone <= r.precedence < PrecPrimary
  {
    if t == LeftParen then ParseRule(GroupingPrefix, CallInfix, PrecCall)
    else if t == LeftBrace || t == LeftBracket then ParseRule(GroupingPrefix, NoInfix, PrecNone)
    else if t == Dot then ParseRule(NoPrefix, DotInfix, PrecMember)
    else if t == Percent then ParseRule(NoPrefix, NoInfix, PrecFactor)
    else if t == Question then ParseRule(NoPrefix, TernaryInfix, PrecTernary)
    else if t == Bang || t == New then ParseRule(UnaryPrefix, NoInfix, PrecNone)
    else if t == BangEqual || t == EqualEqual then ParseRule(NoPrefix, BinaryInfix, PrecEquality)
    else if t == Equal then ParseRule(NoPrefix, AssignmentInfix, PrecAssignment)
    else if t == Greater || t == GreaterEqual || t == Less || t == LessEqual then
      ParseRule(NoPrefix, BinaryInfix, PrecComparison)
    else if t == GreaterGreater || t == GreaterGreaterGreater || t == LessLess then
      ParseRule(NoPrefix, BinaryInfix, PrecShift)
    else if t == GreaterGreaterEqual || t == LessLessEqual || t == MinusEqual || t == PlusEqual
      || t == SlashEqual || t == StarEqual || t == AndEqual || t == OrEqual || t == XorEqual then
      ParseRule(NoPrefix, NoInfix, PrecAssignment)
    else if t == Minus then ParseRule(UnaryPrefix, BinaryInfix, PrecTerm)
    else if t == MinusMinus || t == PlusPlus then ParseRule(UnaryPrefix, SuffixInfix, PrecCall)
    else if t == Plus then ParseRule(NoPrefix, BinaryInfix, PrecTerm)
    else if t == Slash || t == Star then ParseRule(NoPrefix, BinaryInfix, PrecFactor)
    else if t == And then ParseRule(NoPrefix, BinaryInfix, PrecBitwiseAnd)
    else if t == AndAnd then ParseRule(NoPrefix, BinaryInfix, PrecLogicalAnd)
    else if t == Or then ParseRule(NoPrefix, BinaryInfix, PrecBitwiseOr)
    else if t == OrOr then ParseRule(NoPrefix, BinaryInfix, PrecLogicalOr)
    else if t == Xor then ParseRule(NoPrefix, NoInfix, PrecBitwiseXor)
    else if t == Identifier then ParseRule(VariablePrefix, NoInfix, PrecNone)
    else if t == String then ParseRule(StringPrefix, NoInfix, PrecNone)
    else if t == Int then ParseRule(IntPrefix, NoInfix, PrecNone)
    else if t == Float then ParseRule(FloatPrefix, NoInfix, PrecNone)
    else if t == TypeLiteral then ParseRule(TypePrefix, NoInfix, PrecNone)
    else if t == False || t == True then ParseRule(LiteralPrefix, NoInfix, PrecNone)
    else ParseRule(NoPrefix, NoInfix, PrecNone)
  }

  /**
   * The loop condition of parsePrecedence as written: the next token binds
   * at least as tightly as `p`, whether or not it has an infix function.
   */
  predicate AppliesAsWritten(p: int, t: TokenType)
  {
    p <= Rule(t).precedence
  }

  /** The corrected loop condition: the next token has an infix function and binds at least as tightly as `p`. */
  predicate Applies(p: int, t: TokenType)
  {
    Rule(t).infix != NoInfix && p <= Rule(t).precedence
  }

  /** The tokens with a precedence but no infix function: `%`, `^` and the compound assignments. */
  predicate NullInfix(t: TokenType)
  {
    t == Percent || t == Xor || t == GreaterGreaterEqual || t == LessLessEqual || t == MinusEqual
    || t == PlusEqual || t == SlashEqual || t == StarEqual || t == AndEqual || t == OrEqual || t == XorEqual
  }

  /**
   * In `x += 1`, `a % b` and `a ^ b` the loop as written goes on to call the
   * operator's infix function, which is NULL.
   */
  lemma NullInfixCalled()
    ensures AppliesAsWritten(PrecAssignment, PlusEqual) && Rule(PlusEqual).infix == NoInfix
    ensures AppliesAsWritten(PrecAssignment, Percent) && Rule(Percent).infix == NoInfix
    ensures AppliesAsWritten(PrecAssignment, Xor) && Rule(Xor).infix == NoInfix
  {
  }

  /** The two loop conditions differ exactly on the tokens with a precedence and no infix function. */
  lemma AppliesDiffersOnNullInfix(p: int, t: TokenType)
    requires PrecAssignment <= p
    ensures AppliesAsWritten(p, t) && !Applies(p, t) <==> NullInfix(t) && p <= Rule(t).precedence
  {
  }

  /** A binary operator's right operand stops before an operator of its own level: the operators associate to the left. */
  lemma BinaryLeftAssociative(t: TokenType, u: TokenType)
    requires Rule(t).infix == BinaryInfix && Rule(u).precedence <= Rule(t).precedence
    ensures !Applies(Rule(t).precedence + 1, u)
  {
  }

  /** An assignment's right side takes a further assignment: `=` associates to the right, and so does `?:`. */
  lemma AssignmentRightAssociative()
    ensures Applies(Rule(Equal).precedence, Equal)
    ensures Applies(Rule(Question).precedence, Question)
  {
  }

  /** The levels of the table, loosest first, as the binary operators see them. */
  lemma OperatorLevels()
    ensures Rule(Equal).precedence < Rule(Question).precedence < Rule(OrOr).precedence < Rule(AndAnd).precedence
    ensures Rule(AndAnd).precedence < Rule(Or).precedence < Rule(And).precedence < Rule(EqualEqual).precedence
    ensures Rule(EqualEqual).precedence < Rule(Less).precedence < Rule(LessLess).precedence
    ensures Rule(LessLess).precedence < Rule(Plus).precedence < Rule(Star).precedence < Rule(LeftParen).precedence
    ensures Rule(LeftParen).precedence < Rule(Dot).precedence
  {
  }

  /** A literal's value (LiteralExpr); a float keeps its lexeme, strtod is not modelled. */
  datatype LiteralValue = BoolLiteral(b: bool) | IntLiteral(i: int) | FloatLiteral(lexeme: string) | StringLiteral(s: string)

  /** The Type readType returns: a primitive, the string type, or a type named by an identifier. */
  datatype DeclaredType = Primitive(valueType: Value.ValueType) | StringType | NamedType(name: Token)

  /** The expression tree (expr.hpp); Missing stands for a NULL expression. */
  datatype Expr =
    | Missing
    | AssignExpr(variable: Expr, op: Token, value: Expr)
    | BinaryExpr(left: Expr, op: Token, right: Expr)
    | CallExpr(callee: Expr, paren: Token, args: seq<Expr>, newFlag: bool, handler: Expr)
    | DeclarationExpr(declType: DeclaredType, name: Token, initializer: Expr)
    | GetExpr(obj: Expr, name: Token)
    | GroupingExpr(name: Token, exprs: seq<Expr>, ui: Expr)
    | ListExpr(exprs: seq<Expr>)
    | LiteralExpr(literal: LiteralValue)
    | SetExpr(obj: Expr, name: Token, op: Token, value: Expr)
    | StatementExpr(expr: Expr)
    | TernaryExpr(op: Token, left: Expr, middle: Expr, right: Expr)
    | UnaryExpr(op: Token, right: Expr)
    | VariableExpr(name: Token, index: int)
    | UIAttributeExpr(name: Token, handler: Expr)
    | UIDirectiveExpr(attributes: seq<Expr>, sibling: Expr, lastChild: Expr)

  /** An error declared on a token (Token::declareError). */
  datatype Report = Report(token: Token, message: string)

  const ExpectExpression := "Expect expression."
  const InvalidAssignmentTarget := "Invalid assignment target."
  const ExpectExpressionAfterQuestion := "Expect expression after '?'"
  const ExpectColon := "Expect ':' after expression."
  const ExpectPropertyName := "Expect property name after '.'."
  const TooManyArguments := "Can't have more than 255 arguments."
  const ExpectParenAfterArguments := "Expect ')' after arguments."
  const UseNewOnce := "Use 'new' once before call"
  const NewBeforeNonCallable := "Cannot use 'new' before non-callable expression"
  const ExpectEndOfFile := "Expect end of file."
  const ExpectAttributeName := "Expect attribute name"
  const ExpectColonAfterAttribute := "Expect colon after attribute name"
  const ExpectChildDirective := "Expect '<' to start a child directive"
  const ExpectDirectiveEnd := "Expect '>' to end a directive"
  const ExpectType := "Expect type."
  const ExpectVariableName := "Expect variable name."
  const ExpectSeparatorAfterDeclaration := "Expect ';' or newline after variable declaration."
  const ExpectSeparatorAfterExpression := "Expect ';' or newline after expression."
  const ExpectParenAfterFor := "Expect '(' after 'for'."
  const ExpectSeparatorAfterCondition := "Expect ';' or newline after loop condition."
  const ExpectParenAfterClauses := "Expect ')' after for clauses."
  const ExpectParenAfterIf := "Expect '(' after 'if'."
  const ExpectParenAfterCondition := "Expect ')' after condition."
  const ExpectParenAfterWhile := "Expect '(' after 'while'."
  const ExpectSeparatorAfterValue := "Expect ';' after value."

  /** The tokens forStatement builds for the loop it desugars to (buildToken, line -1). */
  const PrintToken := Token(Print, "print", -1)
  const WhileToken := Token(While, "while", -1)
  const BraceToken := Token(RightBrace, "}", -1)

  /** The closing token and the message of a bracketed group, by its opening token (grouping()). */
  function Closing(t: TokenType): (r: (TokenType, string))
    requires t == LeftParen || t == LeftBracket || t == LeftBrace
    ensures Rule(r.0).prefix == NoPrefix && Rule(r.0).infix == NoInfix && r.0 != Eof
  {
    if t == LeftParen then (RightParen, "Expect ')' after expression.")
    else if t == LeftBracket then (RightBracket, "Expect ']' after expression.")
    else (RightBrace, "Expect '}' after expression.")
  }

  /** Only the three opening brackets have grouping as their prefix function. */
  lemma GroupingOpeners(t: TokenType)
    requires Rule(t).prefix == GroupingPrefix
    ensures t == LeftParen || t == LeftBracket || t == LeftBrace
  {
  }

  // ---------------------------------------------------------------------
  // Checking a token against a list of end types.

  /** The end types check(types) is meant to test: every entry before the terminating TOKEN_EOF. */
  ghost predicate Listed(types: seq<TokenType>, t: TokenType)
  {
    exists i :: 0 <= i < |types| - 1 && types[i] == t
  }

  /** The end types check(types) tests as written: the entries before the first TOKEN_EOF. */
  ghost predicate ListedBeforeEof(types: seq<TokenType>, t: TokenType)
  {
    exists i :: 0 <= i < |types| && types[i] == t && forall j :: 0 <= j <= i ==> types[j] != Eof
  }

  /**
   * At the top level the end type of a statement is TOKEN_EOF itself, so the
   * list {SEPARATOR, EOF, ELSE, EOF} stops after the separator and `else`
   * never ends the expression of `if (c) x else y`: the expression parser
   * takes `else` as a further operand and reports "Expect expression.".
   */
  lemma ElseHiddenAtTopLevel()
    ensures Listed([Separator, Eof, Else, Eof], Else)
    ensures !ListedBeforeEof([Separator, Eof, Else, Eof], Else)
  {
    var types := [Separator, Eof, Else, Eof];
    assert types[2] == Else;
    forall i | 0 <= i < |types| && types[i] == Else
      ensures types[1] == Eof && 1 <= i
    {
    }
  }

  /** When no entry but the last is TOKEN_EOF, the two readings agree. */
  lemma ListedWithoutInnerEof(types: seq<TokenType>, t: TokenType)
    requires |types| >= 1 && types[|types| - 1] == Eof
    requires forall j :: 0 <= j < |types| - 1 ==> types[j] != Eof
    ensures Listed(types, t) <==> ListedBeforeEof(types, t)
  {
    if ListedBeforeEof(types, t) {
      var i :| 0 <= i < |types| && types[i] == t && forall j :: 0 <= j <= i ==> types[j] != Eof;
      assert i < |types| - 1;
    }
  }

  // ---------------------------------------------------------------------
  // The value of an integer literal (intNumber, through strtol).

  /** LONG_MAX on a 64-bit target, where strtol saturates. */
  const LongMax := 0x7fff_ffff_ffff_ffff

  /** The value strtol gives a digit character in any base up to 36; 36 for a non-digit. */
  function DigitValue(c: char): nat
  {
    if '0' <= c <= '9' then c as nat - '0' as nat
    else if 'a' <= c <= 'z' then c as nat - 'a' as nat + 10
    else if 'A' <= c <= 'Z' then c as nat - 'A' as nat + 10
    else 36
  }

  /** The length of the longest prefix of `s` made of digits of `base`. */
  function DigitRun(s: string, base: nat): (n: nat)
    ensures n <= |s|
    ensures forall i :: 0 <= i < n ==> DigitValue(s[i]) < base
    ensures n < |s| ==> base <= DigitValue(s[n])
  {
    if s == [] || base <= DigitValue(s[0]) then 0 else 1 + DigitRun(s[1..], base)
  }

  /** The number the digits of `s` write in `base`, most significant first. */
  function Numeral(s: string, base: nat): nat
  {
    if s == [] then 0 else Numeral(s[..|s| - 1], base) * base + DigitValue(s[|s| - 1])
  }

  /**
   * strtol(s, NULL, base) on a string with no leading blanks or sign: an
   * optional `0x` when the base is 16, the longest run of digits, and the
   * value clamped to LONG_MAX.
   */
  function StrToLong(s: string, base: nat): int
  {
    var digits := if base == 16 && |s| >= 2 && s[0] == '0' && (s[1] == 'x' || s[1] == 'X') then s[2..] else s;
    var n := Numeral(digits[..DigitRun(digits, base)], base);
    if n > LongMax then LongMax else n
  }

  /** The base intNumber passes to strtol: 16 when the second character is `x`. */
  function LiteralBase(lexeme: string): nat
  {
    if |lexeme| >= 2 && lexeme[1] == 'x' then 16 else 10
  }

  /** intNumber: the value of an integer literal. */
  function IntNumber(lexeme: string): (v: int)
    ensures 0 <= v <= LongMax
  {
    StrToLong(lexeme, LiteralBase(lexeme))
  }

  /** A string made of digits of a base is its own longest run of digits. */
  lemma {:induction false} AllDigitsRun(s: string, base: nat)
    requires forall i :: 0 <= i < |s| ==> DigitValue(s[i]) < base
    ensures DigitRun(s, base) == |s|
  {
    if s != [] {
      AllDigitsRun(s[1..], base);
    }
  }

  /** A decimal literal is read whole, in base 10, clamped to LONG_MAX. */
  lemma DecimalValue(lexeme: string)
    requires |lexeme| >= 1 && AllDigits(lexeme)
    ensures IntNumber(lexeme) == if Numeral(lexeme, 10) > LongMax then LongMax else Numeral(lexeme, 10)
  {
    assert |lexeme| >= 2 ==> IsDigit(lexeme[1]);
    AllDigitsRun(lexeme, 10);
    assert lexeme[..|lexeme|] == lexeme;
  }

  /** A hexadecimal literal is read whole after its `0x`, in base 16, clamped to LONG_MAX. */
  lemma HexValue(lexeme: string)
    requires |lexeme| >= 2 && lexeme[0] == '0' && lexeme[1] == 'x' && AllHexDigits(lexeme[2..])
    ensures var digits := lexeme[2..];
      IntNumber(lexeme) == if Numeral(digits, 16) > LongMax then LongMax else Numeral(digits, 16)
  {
    var digits := lexeme[2..];
    forall i | 0 <= i < |digits|
      ensures DigitValue(digits[i]) < 16
    {
      HexLetterExactly(digits[i]);
    }
    AllDigitsRun(digits, 16);
    assert digits[..|digits|] == digits;
  }

  /** Leading zeros do not change a numeral. */
  lemma {:induction false} LeadingZero(s: string, base: nat)
    ensures Numeral(['0'] + s, base) == Numeral(s, base)
  {
    if s != [] {
      var t := ['0'] + s;
      assert t[..|t| - 1] == ['0'] + s[..|s| - 1];
      LeadingZero(s[..|s| - 1], base);
    } else {
      assert (['0'] + s)[..0] == [];
    }
  }

  /** A decimal literal, by example. */
  lemma DecimalExample()
    ensures IntNumber("42") == 42
  {
    var s := "42";
    DecimalValue(s);
    assert s[..1] == "4" && s[1] == '2';
    assert "4"[..0] == "" && "4"[0] == '4';
    assert Numeral("4", 10) == 4;
  }

  /** A hexadecimal literal, by example. */
  lemma HexExample()
    ensures IntNumber("0x1f") == 31
  {
    var s := "0x1f";
    assert s[2..] == "1f";
    HexValue(s);
    assert "1f"[..1] == "1" && "1f"[1] == 'f';
    assert "1"[..0] == "" && "1"[0] == '1';
    assert Numeral("1", 16) == 1;
  }

  /** A decimal literal of twenty digits or more, not starting with 0, is past LONG_MAX and reads as LONG_MAX. */
  lemma IntNumberSaturates(lexeme: string)
    requires |lexeme| >= 20 && AllDigits(lexeme) && lexeme[0] != '0'
    ensures IntNumber(lexeme) == LongMax
  {
    NumeralAtLeastFirst(lexeme, 10);
    var rest := |lexeme| - 20;
    PowerProduct(10, 19, rest);
    assert Power(10, 19) == 10000000000000000000 by {
      PowerProduct(10, 9, 10);
      assert Power(10, 9) == 1000000000;
      assert Power(10, 10) == 10000000000;
    }
    PowerAtLeastOne(10, rest);
    MultiplyMonotone(Power(10, rest), 1, Power(10, 19));
    assert Power(10, |lexeme| - 1) >= 10000000000000000000;
    assert DigitValue(lexeme[0]) >= 1;
    MultiplyMonotone(DigitValue(lexeme[0]), 1, Power(10, |lexeme| - 1));
    DecimalValue(lexeme);
  }

  lemma {:induction false} PowerAtLeastOne(b: nat, n: nat)
    requires b >= 1
    ensures Power(b, n) >= 1
  {
    if n > 0 {
      PowerAtLeastOne(b, n - 1);
      MultiplyMonotone(b, 1, Power(b, n - 1));
    }
  }

  /** A numeral is at least its leading digit times the base to the power of its remaining length. */
  lemma {:induction false} NumeralAtLeastFirst(s: string, base: nat)
    requires |s| >= 1
    ensures Numeral(s, base) >= DigitValue(s[0]) * Power(base, |s| - 1)
  {
    if |s| > 1 {
      var init := s[..|s| - 1];
      assert init[0] == s[0];
      NumeralAtLeastFirst(init, base);
      var d: int, p: int := DigitValue(s[0]), Power(base, |s| - 2);
      assert Numeral(s, base) >= Numeral(init, base) * base;
      MultiplyMonotone(Numeral(init, base), d * p, base);
      MultiplyRegroup(d, p, base);
      assert Power(base, |s| - 1) == base * p;
    } else {
      assert s[..0] == [];
    }
  }

  lemma MultiplyMonotone(a: int, b: int, c: nat)
    requires a >= b
    ensures a * c >= b * c
  {
  }

  lemma MultiplyAssociate(a: int, b: int, c: int)
    ensures a * (b * c) == a * b * c
  {
  }

  lemma MultiplyRegroup(a: int, b: int, c: int)
    ensures a * b * c == a * (c * b)
  {
  }

  /** b to the power n. */
  function Power(b: nat, n: nat): nat
  {
    if n == 0 then 1 else b * Power(b, n - 1)
  }

  lemma {:induction false} PowerProduct(b: nat, m: nat, n: nat)
    ensures Power(b, m + n) == Power(b, m) * Power(b, n)
  {
    if m > 0 {
      PowerProduct(b, m - 1, n);
      assert Power(b, m + n) == b * Power(b, m - 1 + n);
      MultiplyAssociate(b, Power(b, m - 1), Power(b, n));
    }
  }

  // ---------------------------------------------------------------------
  // The prefix parse functions that only read the previous token.

  /** literal(): `true` and `false`; no other token has it as its prefix function. */
  function Literal(t: TokenType): (e: Expr)
    requires Rule(t).prefix == LiteralPrefix
    ensures e == LiteralExpr(BoolLiteral(t == True))
  {
    if t == False then LiteralExpr(BoolLiteral(false)) else LiteralExpr(BoolLiteral(true))
  }

  /**
   * primitiveType(): a type name as an expression, a variable whose index is
   * the ValueType code (5 for `var`); `v` followed by anything else than
   * `a` or `o` falls through to the `b` case.
   */
  function PrimitiveType(token: Token): (e: Expr)
    ensures e == Missing || (e.VariableExpr? && e.name == token && 0 <= e.index <= 5)
    ensures e != Missing <==> |token.text| >= 1 && token.text[0] in "vbifS"
  {
    var s := token.text;
    if |s| == 0 then Missing
    else if s[0] == 'v' && |s| >= 2 && s[1] == 'a' then VariableExpr(token, 5)
    else if s[0] == 'v' && |s| >= 2 && s[1] == 'o' then VariableExpr(token, TypeCode(Value.Void))
    else if s[0] == 'v' || s[0] == 'b' then VariableExpr(token, TypeCode(Value.Bool))
    else if s[0] == 'i' then VariableExpr(token, TypeCode(Value.Int))
    else if s[0] == 'f' then VariableExpr(token, TypeCode(Value.Float))
    else if s[0] == 'S' then VariableExpr(token, TypeCode(Value.Obj))
    else Missing
  }

  /** The numeric code of a ValueType (value.h). */
  function TypeCode(t: Value.ValueType): (n: int)
    ensures 0 <= n <= 4
  {
    match t
    case Void => 0
    case Bool => 1
    case Int => 2
    case Float => 3
    case Obj => 4
  }

  /** The type names of the language map to their type codes. */
  lemma PrimitiveTypeCodes(line: int)
    ensures PrimitiveType(Token(TypeLiteral, "var", line)).index == 5
    ensures PrimitiveType(Token(TypeLiteral, "void", line)).index == 0
    ensures PrimitiveType(Token(TypeLiteral, "bool", line)).index == 1
    ensures PrimitiveType(Token(TypeLiteral, "int", line)).index == 2
    ensures PrimitiveType(Token(TypeLiteral, "float", line)).index == 3
    ensures PrimitiveType(Token(TypeLiteral, "String", line)).index == 4
  {
  }

  /** readType on a type literal: the first letter picks the type; one the source leaves undefined reads as void. */
  function LiteralType(lexeme: string): (t: DeclaredType)
    ensures t.Primitive? || t == StringType
    ensures t == StringType <==> |lexeme| >= 1 && lexeme[0] == 'S'
  {
    if |lexeme| == 0 then Primitive(Value.Void)
    else if lexeme[0] == 'b' then Primitive(Value.Bool)
    else if lexeme[0] == 'i' then Primitive(Value.Int)
    else if lexeme[0] == 'f' then Primitive(Value.Float)
    else if lexeme[0] == 'S' then StringType
    else Primitive(Value.Void)
  }

  /** string(): the characters between the quotes. */
  function StringContents(lexeme: string): (s: string)
    ensures |lexeme| >= 2 ==> |s| == |lexeme| - 2 && forall i :: 0 <= i < |s| ==> s[i] == lexeme[i + 1]
  {
    if |lexeme| >= 2 then lexeme[1..|lexeme| - 1] else ""
  }

  /** A scanned string literal loses exactly its quotes, and no quote is left inside. */
  lemma StringContentsUnquoted(lexeme: string)
    requires StringLexeme(lexeme)
    ensures ['"'] + StringContents(lexeme) + ['"'] == lexeme && '"' !in StringContents(lexeme)
  {
  }

  // ---------------------------------------------------------------------
  // `new` in front of an expression (unary()).

  /**
   * The operand of `new`: a call not yet marked gets its newFlag; a call
   * already marked and anything else keep their form and give the error.
   */
  function NewOperand(right: Expr): (r: (Expr, Value.Maybe<string>))
    ensures r.1.None? <==> right.CallExpr? && !right.newFlag
    ensures r.1.None? ==> r.0.CallExpr? && r.0.newFlag && r.0 == right.(newFlag := true)
    ensures r.1.Some? ==> r.0 == right && (r.1.value == UseNewOnce <==> right.CallExpr?)
  {
    if right.CallExpr? then
      if right.newFlag then (right, Value.Some(UseNewOnce)) else (right.(newFlag := true), Value.None)
    else (right, Value.Some(NewBeforeNonCallable))
  }

  datatype NewOutcome = Parsed(e: Expr, error: Value.Maybe<string>) | NullDereference

  /** unary() as written reads the type of its operand without checking that there is one. */
  function NewOperandAsWritten(right: Expr): (r: NewOutcome)
    ensures r == NullDereference <==> right == Missing
    ensures right != Missing ==> r == Parsed(NewOperand(right).0, NewOperand(right).1)
  {
    if right == Missing then NullDereference
    else var n := NewOperand(right); Parsed(n.0, n.1)
  }

  /** `new` followed by a token that starts no expression (the end of input, say) reaches the dereference. */
  lemma NewWithoutOperand()
    ensures Rule(Eof).prefix == NoPrefix
    ensures NewOperandAsWritten(Missing) == NullDereference
    ensures NewOperand(Missing).1 == Value.Some(NewBeforeNonCallable)
  {
  }

  // ---------------------------------------------------------------------
  // The conditional expression (ternary()).

  /** The branch code generation evaluates when the condition is `c` (visitTernaryExpr: middle when true). */
  function Taken(e: Expr, c: bool): Expr
    requires e.TernaryExpr?
  {
    if c then e.middle else e.right
  }

  /** ternary() as written: the false branch is stored in the middle. */
  function TernaryNodeAsWritten(op: Token, cond: Expr, ifTrue: Expr, ifFalse: Expr): (e: Expr)
    ensures e.TernaryExpr? && e.op == op && e.left == cond
  {
    TernaryExpr(op, cond, ifFalse, ifTrue)
  }

  /** The corrected node: the true branch in the middle, where code generation looks for it. */
  function TernaryNode(op: Token, cond: Expr, ifTrue: Expr, ifFalse: Expr): (e: Expr)
    ensures e.TernaryExpr? && e.op == op && e.left == cond
  {
    TernaryExpr(op, cond, ifTrue, ifFalse)
  }

  /** As written, `c ? a : b` evaluates `b` when `c` holds; corrected, each branch is taken on its own condition. */
  lemma TernaryBranches(op: Token, cond: Expr, a: Expr, b: Expr)
    requires a != b
    ensures Taken(TernaryNodeAsWritten(op, cond, a, b), true) == b != a
    ensures Taken(TernaryNode(op, cond, a, b), true) == a && Taken(TernaryNode(op, cond, a, b), false) == b
  {
  }

  /** A statement boundary synchronize() stops at. */
  predicate SyncPoint(previous: Token, current: Token)
  {
    current.tokenType == Eof || previous.tokenType == Separator || current.tokenType == TypeLiteral
    || current.tokenType == If || current.tokenType == While || current.tokenType == Print
  }

  /** The expression a group unwraps when it ends in an expression statement: its inner expression. */
  function Unwrapped(last: Expr): Expr
  {
    if last.StatementExpr? then last.expr else Missing
  }

  /** The expression a group yields: a lone trailing statement unwrapped, else the group of its elements. */
  function GroupResult(name: Token, exprs: seq<Expr>, ui: Expr, unwrap: bool): (e: Expr)
    ensures unwrap && |exprs| == 1 && Unwrapped(exprs[0]) != Missing ==> e == exprs[0].expr
    ensures !unwrap ==> e == GroupingExpr(name, exprs, ui)
    ensures |exprs| != 1 ==> e.GroupingExpr? && e.name == name && e.ui == ui && |e.exprs| == |exprs|
    ensures |exprs| >= 2 ==> e.exprs[..|exprs| - 1] == exprs[..|exprs| - 1]
  {
    if unwrap && |exprs| >= 1 && Unwrapped(exprs[|exprs| - 1]) != Missing then
      var inner := Unwrapped(exprs[|exprs| - 1]);
      var kept := exprs[..|exprs| - 1];
      assert (kept + [inner])[..|exprs| - 1] == kept;
      if |exprs| == 1 then inner else GroupingExpr(name, kept + [inner], ui)
    else GroupingExpr(name, exprs, ui)
  }

  class Parser {
    const scanner: Scanner
    var current: Token
    var previous: Token
    var panicMode: bool
    var hadError: bool
    /** The errors declared so far, in order. */
    var errors: seq<Report>
    /** The file-level scopeDepth: the nesting depth of the group being parsed. */
    var scopeDepth: int
    /** statementExprs: the depths whose group has just parsed an expression statement. */
    var statementExprs: set<int>
    /** The tree parse() builds. */
    var expr: Expr

    ghost predicate Valid()
      reads this, scanner
    {
      scanner.Valid() && current.tokenType != Error &&
      (current.tokenType == Eof ==> scanner.current == |scanner.source|) &&
      (hadError <==> errors != []) && (panicMode ==> hadError)
    }

    /** The input left: the unscanned source, and the current token unless it is the end. */
    ghost function Remaining(): int
      reads this, scanner
    {
      |scanner.source| - scanner.current + (if current.tokenType == Eof then 0 else 1)
    }

    /** What every parse step keeps: validity, no input given back, errors and tokens only appended, the depth. */
    twostate predicate Steps()
      reads this, scanner
    {
      Valid() && Remaining() <= old(Remaining()) && |old(errors)| <= |errors| && scopeDepth == old(scopeDepth)
    }

    /** The step consumed input unless it started at the end. */
    twostate predicate Consumed()
      reads this, scanner
    {
      old(current).tokenType != Eof ==> Remaining() < old(Remaining())
    }

    /** Parser(scanner): no error yet, then the first token. */
    constructor (scanner: Scanner)
      requires scanner.Valid()
      modifies scanner
      ensures Valid() && this.scanner == scanner
      ensures scopeDepth == -1 && statementExprs == {} && expr == Missing
      ensures forall r :: r in errors ==> r.token.tokenType == Error
    {
      this.scanner := scanner;
      current := Token(Identifier, "", 0);
      previous := Token(Identifier, "", 0);
      panicMode := false;
      hadError := false;
      errors := [];
      scopeDepth := -1;
      statementExprs := {};
      expr := Missing;
      new;
      Advance();
    }

    /**
     * errorAt: reports the first error of a panic and sets panicMode;
     * reports nothing while in panic mode.
     */
    method ErrorAt(token: Token, message: string)
      requires (hadError <==> errors != []) && (panicMode ==> hadError)
      modifies this`panicMode, this`hadError, this`errors
      ensures panicMode && hadError && errors != []
      ensures errors == old(errors) + (if old(panicMode) then [] else [Report(token, message)])
    {
      if panicMode {
        return;
      }
      panicMode := true;
      errors := errors + [Report(token, message)];
      hadError := true;
    }

    /** scanToken, as the parser relies on it: the end of input only at the end of the source, and progress otherwise. */
    method Scan() returns (token: Token)
      requires scanner.Valid()
      modifies scanner
      ensures scanner.Valid() && old(scanner.current) <= scanner.current
      ensures token.tokenType == Eof ==> scanner.current == |scanner.source|
      ensures old(scanner.current) == |scanner.source| ==> token.tokenType == Eof
      ensures token.tokenType != Eof ==> old(scanner.current) < scanner.current
    {
      token := scanner.ScanToken();
    }

    /** advance: the next token that is not an error; each error token is reported where it stands. */
    method Advance()
      requires Valid()
      modifies this, scanner
      ensures Steps() && Consumed()
      ensures previous == old(current)
      ensures old(current).tokenType == Eof ==> current.tokenType == Eof
      ensures statementExprs == old(statementExprs) && expr == old(expr)
      ensures forall i :: |old(errors)| <= i < |errors| ==> errors[i].token.tokenType == Error
      ensures |errors| == |old(errors)| ==> panicMode == old(panicMode)
    {
      previous := current;
      var token := Scan();
      while token.tokenType == Error
        invariant scanner.Valid() && old(scanner.current) <= scanner.current
        invariant token.tokenType != Eof ==> old(scanner.current) < scanner.current
        invariant token.tokenType == Eof ==> scanner.current == |scanner.source|
        invariant previous == old(current) && old(errors) <= errors
        invariant statementExprs == old(statementExprs) && expr == old(expr) && scopeDepth == old(scopeDepth)
        invariant (hadError <==> errors != []) && (panicMode ==> hadError)
        invariant forall i :: |old(errors)| <= i < |errors| ==> errors[i].token.tokenType == Error
        invariant |errors| == |old(errors)| ==> panicMode == old(panicMode)
        decreases |scanner.source| - scanner.current + (if token.tokenType == Error then 1 else 0)
      {
        ErrorAt(token, token.text);
        token := Scan();
      }
      current := token;
    }

    /** check(type). */
    predicate Check(t: TokenType)
      reads this
    {
      current.tokenType == t
    }

    /** check(types) as written: stops at the first TOKEN_EOF of the list. */
    method CheckAnyAsWritten(types: seq<TokenType>) returns (checked: bool)
      requires Eof in types
      ensures checked == ListedBeforeEof(types, current.tokenType)
    {
      var t := current.tokenType;
      checked := false;
      var index := 0;
      while !checked && types[index] != Eof
        invariant 0 <= index <= |types|
        invariant !checked ==> index < |types| && Eof in types[index..]
        invariant forall j :: 0 <= j < index ==> types[j] != Eof
        invariant checked <==> index > 0 && types[index - 1] == t
        invariant forall j :: 0 <= j < index - 1 ==> types[j] != t
        decreases |types| - index
      {
        checked := t == types[index];
        index := index + 1;
      }
      if !checked {
        forall i | 0 <= i < |types| && types[i] == t
          ensures types[index] == Eof && index <= i
        {
        }
      }
    }

    /** The corrected check(types): every entry before the terminating TOKEN_EOF. */
    method CheckAny(types: seq<TokenType>) returns (checked: bool)
      requires |types| >= 1 && types[|types| - 1] == Eof
      ensures checked == Listed(types, current.tokenType)
    {
      var t := current.tokenType;
      checked := false;
      var index := 0;
      while !checked && index < |types| - 1
        invariant 0 <= index <= |types| - 1
        invariant checked <==> index > 0 && types[index - 1] == t
        invariant forall j :: 0 <= j < index - 1 ==> types[j] != t
        decreases |types| - index
      {
        checked := t == types[index];
        index := index + 1;
      }
    }

    /** match: consumes the current token when it has the type. */
    method Match(t: TokenType) returns (matched: bool)
      requires Valid()
      modifies this, scanner
      ensures Steps() && matched == (old(current).tokenType == t)
      ensures matched ==> Consumed() && previous == old(current)
      ensures matched ==> statementExprs == old(statementExprs) && expr == old(expr)
      ensures !matched ==> unchanged(this, scanner)
    {
      if !Check(t) {
        return false;
      }
      Advance();
      return true;
    }

    /** consume: the token of the type, or the error at the current token, which stays. */
    method Consume(t: TokenType, message: string)
      requires Valid()
      modifies this, scanner
      ensures Steps() && statementExprs == old(statementExprs) && expr == old(expr)
      ensures old(current).tokenType == t ==> Consumed() && previous == old(current)
      ensures old(current).tokenType == Eof ==> current.tokenType == Eof
      ensures old(current).tokenType != t ==>
        current == old(current) && previous == old(previous) && panicMode && hadError &&
        errors == old(errors) + (if old(panicMode) then [] else [Report(old(current), message)])
    {
      if Check(t) {
        Advance();
        return;
      }
      ErrorAt(current, message);
    }

    /** passSeparator: one optional separator. */
    method PassSeparator()
      requires Valid()
      modifies this, scanner
      ensures Steps() && statementExprs == old(statementExprs) && expr == old(expr)
      ensures old(current).tokenType == Separator ==> Consumed() && previous == old(current)
      ensures old(current).tokenType != Separator ==> unchanged(this, scanner)
    {
      var _ := Match(Separator);
    }

    /** error: at the previous token. */
    method ErrorAtPrevious(message: string)
      requires Valid()
      modifies this`panicMode, this`hadError, this`errors
      ensures Valid() && hadError && old(errors) <= errors
    {
      ErrorAt(previous, message);
    }

    /**
     * synchronize: leaves panic mode and skips tokens up to the first
     * statement boundary; a token skipped there may report a new error.
     * `run` is the previous token followed by every token made current,
     * and the only boundary in it is its last token.
     */
    method Synchronize() returns (ghost run: seq<Token>)
      requires Valid()
      modifies this, scanner
      ensures Steps() && statementExprs == old(statementExprs) && expr == old(expr)
      ensures SyncPoint(previous, current)
      ensures 2 <= |run| && run[0] == old(previous) && run[1] == old(current)
      ensures run[|run| - 2] == previous && run[|run| - 1] == current
      ensures forall i :: 1 <= i < |run| - 1 ==> !SyncPoint(run[i - 1], run[i])
      ensures panicMode ==> |old(errors)| < |errors|
    {
      panicMode := false;
      run := [previous, current];
      while current.tokenType != Eof
        invariant Steps() && statementExprs == old(statementExprs) && expr == old(expr)
        invariant 2 <= |run| && run[0] == old(previous) && run[1] == old(current)
        invariant run[|run| - 2] == previous && run[|run| - 1] == current
        invariant forall i :: 1 <= i < |run| - 1 ==> !SyncPoint(run[i - 1], run[i])
        invariant panicMode ==> |old(errors)| < |errors|
        decreases Remaining()
      {
        if previous.tokenType == Separator {
          return;
        }
        if current.tokenType == TypeLiteral || current.tokenType == If || current.tokenType == While
          || current.tokenType == Print {
          return;
        }
        Advance();
        run := run + [current];
      }
    }

    /**
     * parsePrecedence: a prefix expression, then every infix operator that
     * binds at least as tightly as `precedence`.  Nothing when the first
     * token starts no expression.
     */
    method ParsePrecedence(precedence: int) returns (e: Expr)
      requires Valid() && PrecAssignment <= precedence
      modifies this, scanner
      decreases Remaining(), 0
      ensures Steps() && Consumed()
      ensures Rule(old(current).tokenType).prefix == NoPrefix ==> e == Missing && previous == old(current)
      ensures Rule(old(current).tokenType).prefix != NoPrefix ==> !Applies(precedence, current.tokenType)
      ensures e != Missing ==> !Applies(precedence, current.tokenType)
    {
      Advance();
      if Rule(previous.tokenType).prefix == NoPrefix {
        return Missing;
      }
      e := ApplyPrefix();
      while Applies(precedence, current.tokenType)
        invariant Steps() && Remaining() < old(Remaining())
        decreases Remaining()
      {
        Advance();
        e := ApplyInfix(e);
      }
    }

    /** The prefix function of the rule for the token just consumed. */
    method ApplyPrefix() returns (e: Expr)
      requires Valid() && Rule(previous.tokenType).prefix != NoPrefix
      modifies this, scanner
      decreases Remaining(), 80
      ensures Steps()
    {
      var token := previous;
      match Rule(token.tokenType).prefix
      case GroupingPrefix =>
        GroupingOpeners(token.tokenType);
        e := Grouping();
      case UnaryPrefix => e := Unary();
      case VariablePrefix => e := VariableExpr(token, -1);
      case StringPrefix => e := LiteralExpr(StringLiteral(StringContents(token.text)));
      case IntPrefix => e := LiteralExpr(IntLiteral(IntNumber(token.text)));
      case FloatPrefix => e := LiteralExpr(FloatLiteral(token.text));
      case TypePrefix => e := PrimitiveType(token);
      case LiteralPrefix => e := Literal(token.tokenType);
    }

    /** The infix function of the rule for the operator just consumed, applied to the left operand. */
    method ApplyInfix(left: Expr) returns (e: Expr)
      requires Valid() && Applies(PrecAssignment, previous.tokenType)
      modifies this, scanner
      decreases Remaining(), 40
      ensures Steps()
    {
      match Rule(previous.tokenType).infix
      case CallInfix =>
        ghost var count;
        e, count := Call(left);
      case DotInfix => e := Dot(left);
      case TernaryInfix =>
        ghost var ifTrue, ifFalse;
        e, ifTrue, ifFalse := Ternary(left);
      case BinaryInfix => e := Binary(left);
      case AssignmentInfix => e := Assignment(left);
      case SuffixInfix => e := UnaryExpr(previous, left);
    }

    /** An operand after an optional separator, at the given level. */
    method Operand(precedence: int) returns (e: Expr)
      requires Valid() && PrecAssignment <= precedence
      modifies this, scanner
      decreases Remaining(), 10
      ensures Steps()
      ensures e != Missing ==> !Applies(precedence, current.tokenType)
    {
      PassSeparator();
      e := ParsePrecedence(precedence);
    }

    /**
     * binary: the right operand binds one level tighter than the operator,
     * so operators of one level group to the left; a missing operand is an
     * error.
     */
    method Binary(left: Expr) returns (e: Expr)
      requires Valid() && Applies(PrecAssignment, previous.tokenType)
      modifies this, scanner
      decreases Remaining(), 20
      ensures Steps()
      ensures e.BinaryExpr? && e.left == left && e.op == old(previous)
      ensures e.right == Missing ==> hadError
      ensures e.right != Missing ==> !Applies(Rule(e.op.tokenType).precedence + 1, current.tokenType)
    {
      var op := previous;
      var right := Operand(Rule(op.tokenType).precedence + 1);
      if right == Missing {
        ErrorAtPrevious(ExpectExpression);
      }
      e := BinaryExpr(left, op, right);
    }

    /**
     * assignment: the value at the operator's own level, so assignments
     * group to the right; a variable becomes an assignment, a property a
     * set, anything else is an invalid target and stays as it was.
     */
    method Assignment(left: Expr) returns (e: Expr)
      requires Valid() && Applies(PrecAssignment, previous.tokenType)
      modifies this, scanner
      decreases Remaining(), 20
      ensures Steps()
      ensures left.VariableExpr? ==> e.AssignExpr? && e.variable == left && e.op == old(previous)
      ensures left.GetExpr? ==> e.SetExpr? && e.obj == left.obj && e.name == left.name && e.op == old(previous)
      ensures !left.VariableExpr? && !left.GetExpr? ==> e == left && hadError
      ensures (left.VariableExpr? || left.GetExpr?) && e.value == Missing ==> hadError
      ensures (left.VariableExpr? || left.GetExpr?) && e.value != Missing ==>
        !Applies(Rule(e.op.tokenType).precedence, current.tokenType)
    {
      var op := previous;
      var right := Operand(Rule(op.tokenType).precedence);
      if right == Missing {
        ErrorAtPrevious(ExpectExpression);
      }
      if left.VariableExpr? {
        e := AssignExpr(left, op, right);
      } else if left.GetExpr? {
        e := SetExpr(left.obj, left.name, op, right);
      } else {
        ErrorAt(op, InvalidAssignmentTarget);
        e := left;
      }
    }

    /**
     * ternary: the true branch one level tighter, then `:` and the false
     * branch at the operator's own level, so conditionals nest to the right.
     */
    method Ternary(left: Expr) returns (e: Expr, ghost ifTrue: Expr, ghost ifFalse: Expr)
      requires Valid() && Applies(PrecAssignment, previous.tokenType)
      modifies this, scanner
      decreases Remaining(), 20
      ensures Steps()
      ensures e == TernaryNode(old(previous), left, ifTrue, ifFalse)
      ensures ifTrue == Missing ==> hadError
      ensures ifFalse != Missing ==> !Applies(Rule(e.op.tokenType).precedence, current.tokenType)
    {
      var op := previous;
      var t := Operand(Rule(op.tokenType).precedence + 1);
      if t == Missing {
        ErrorAtPrevious(ExpectExpressionAfterQuestion);
      }
      PassSeparator();
      Consume(Colon, ExpectColon);
      var f := Operand(Rule(op.tokenType).precedence);
      ifTrue, ifFalse := t, f;
      e := TernaryNode(op, left, t, f);
    }

    /** dot: a property name after the `.`. */
    method Dot(left: Expr) returns (e: Expr)
      requires Valid()
      modifies this, scanner
      ensures Steps()
      ensures e.GetExpr? && e.obj == left
      ensures e.name.tokenType == Identifier || hadError
    {
      var dot := previous;
      Consume(Identifier, ExpectPropertyName);
      e := GetExpr(left, previous);
    }

    /**
     * call: the arguments up to `)`, then an optional `->` handler
     * statement.  The count is a uint8_t: the 256th argument is reported and
     * the count wraps.
     */
    method Call(left: Expr) returns (e: Expr, ghost count: nat)
      requires Valid()
      modifies this, scanner
      decreases Remaining(), 30
      ensures Steps()
      ensures e.CallExpr? && e.callee == left && !e.newFlag
      ensures |e.args| == count % 256 && (count > 255 ==> hadError)
      ensures old(current).tokenType == RightParen ==> count == 0
    {
      var args: seq<Expr> := [];
      count := 0;
      if !Check(RightParen) {
        args, count := Arguments();
      }
      Consume(RightParen, ExpectParenAfterArguments);
      var handler := Handler();
      e := CallExpr(left, previous, args, false, handler);
    }

    /** The handler of a call: the statement after an optional `->`, or nothing. */
    method Handler() returns (handler: Expr)
      requires Valid()
      modifies this, scanner
      decreases Remaining(), 5
      ensures Steps()
      ensures old(current).tokenType != Arrow ==> handler == Missing && unchanged(this, scanner)
    {
      handler := Missing;
      var arrow := Match(Arrow);
      if arrow {
        PassSeparator();
        handler := Statement(Separator);
      }
    }

    /**
     * The argument loop of call: expressions separated by commas.  The
     * count is a uint8_t, so the 256th argument is reported and the count
     * wraps; the list is regrown to the wrapped count.
     */
    method Arguments() returns (args: seq<Expr>, ghost count: nat)
      requires Valid()
      modifies this, scanner
      decreases Remaining(), 20
      ensures Steps()
      ensures |args| == count % 256 && count >= 1 && (count > 255 ==> hadError)
    {
      var ends := [RightParen, Comma, Else, Eof];
      var argCount := 0;
      args := [];
      count := 0;
      while true
        invariant Steps()
        invariant |args| == argCount == count % 256 && (count > 255 ==> hadError)
        decreases Remaining()
      {
        var arg, items := Expression(ends);
        if argCount == 255 {
          ErrorAtPrevious(TooManyArguments);
        }
        args := if argCount == 255 then [] else args + [arg];
        argCount := (argCount + 1) % 256;
        count := count + 1;
        var more := Match(Comma);
        if !more {
          break;
        }
      }
    }

    /**
     * unary: `new` marks the call that follows it, once; any other prefix
     * operator applies to an operand at unary level.
     */
    method Unary() returns (e: Expr)
      requires Valid()
      modifies this, scanner
      decreases Remaining(), 10
      ensures Steps()
      ensures old(previous).tokenType != New ==> e.UnaryExpr? && e.op == old(previous)
      ensures old(previous).tokenType == New && !(e.CallExpr? && e.newFlag) ==> hadError
    {
      var op := previous;
      if op.tokenType == New {
        var right := ParsePrecedence(PrecCall);
        var outcome := NewOperand(right);
        if outcome.1.Some? {
          ErrorAt(op, outcome.1.value);
        }
        e := outcome.0;
      } else {
        var right := ParsePrecedence(PrecUnary);
        e := UnaryExpr(op, right);
      }
    }

    /** One expression of a list: a missing one is reported. */
    method Item() returns (e: Expr)
      requires Valid()
      modifies this, scanner
      decreases Remaining(), 10
      ensures Steps() && Consumed()
      ensures e == Missing ==> hadError
    {
      e := ParsePrecedence(PrecAssignment);
      if e == Missing {
        ErrorAtPrevious(ExpectExpression);
      }
    }

    /**
     * expression: one or more expressions up to one of the end types or the
     * end of input; several make a list.  Each missing one is reported.
     */
    method Expression(ends: seq<TokenType>) returns (e: Expr, ghost items: seq<Expr>)
      requires Valid() && |ends| >= 1 && ends[|ends| - 1] == Eof
      modifies this, scanner
      decreases Remaining(), 15
      ensures Steps() && Consumed()
      ensures |items| >= 1 && e == (if |items| == 1 then items[0] else ListExpr(items))
      ensures Missing in items ==> hadError
      ensures Listed(ends, current.tokenType) || current.tokenType == Eof
    {
      var first := Item();
      items := [first];
      var list: seq<Expr> := [];
      while true
        invariant Steps() && Consumed()
        invariant |items| >= 1 && items[0] == first && (list == [] <==> |items| == 1)
        invariant list != [] ==> list == items
        invariant Missing in items ==> hadError
        decreases Remaining()
      {
        var end := CheckAny(ends);
        if end || Check(Eof) {
          break;
        }
        var next := Item();
        if list == [] {
          list := [first];
        }
        list := list + [next];
        items := items + [next];
      }
      e := if list == [] then first else ListExpr(list);
    }

    /** declareVariable: the declared name and, after `=`, its initializer. */
    method DeclareVariable(declType: DeclaredType, end: TokenType) returns (e: Expr)
      requires Valid()
      modifies this, scanner
      decreases Remaining(), 20
      ensures Steps()
      ensures e.DeclarationExpr? && e.declType == declType && e.name == old(previous)
      ensures old(current).tokenType != Equal ==> e.initializer == Missing && unchanged(this, scanner)
    {
      var name := previous;
      var initializer := Missing;
      var hasInitializer := Match(Equal);
      if hasInitializer {
        ghost var items;
        initializer, items := Expression([Separator, end, Else, Eof]);
      }
      e := DeclarationExpr(declType, name, initializer);
    }

    /** readType: a type literal, or else an identifier naming the type. */
    method ReadType() returns (t: DeclaredType)
      requires Valid()
      modifies this, scanner
      ensures Steps() && statementExprs == old(statementExprs)
      ensures old(current).tokenType == TypeLiteral ==> t == LiteralType(old(current).text)
      ensures old(current).tokenType != TypeLiteral ==>
        t.NamedType? && (t.name.tokenType == Identifier || hadError)
    {
      var literal := Match(TypeLiteral);
      if literal {
        t := LiteralType(previous.text);
      } else {
        Consume(Identifier, ExpectType);
        t := NamedType(previous);
      }
    }

    /** parseVariable: a type, then the variable's name, then its declaration. */
    method ParseVariable(end: TokenType, message: string) returns (e: Expr)
      requires Valid()
      modifies this, scanner
      decreases Remaining(), 30
      ensures Steps()
      ensures e.DeclarationExpr? && (e.name.tokenType == Identifier || hadError)
    {
      var declType := ReadType();
      Consume(Identifier, message);
      e := DeclareVariable(declType, end);
    }

    /** varDeclaration: a declaration closed by a separator unless the group ends there. */
    method VarDeclaration(end: TokenType) returns (e: Expr)
      requires Valid()
      modifies this, scanner
      decreases Remaining(), 40
      ensures Steps()
      ensures e.DeclarationExpr?
      ensures current.tokenType != end && previous.tokenType != Separator ==> hadError
    {
      e := ParseVariable(end, ExpectVariableName);
      if !Check(end) {
        Consume(Separator, ExpectSeparatorAfterDeclaration);
      }
    }

    /**
     * expressionStatement: an expression closed by a separator unless the
     * group ends or `else` follows; it marks the current group as ending in
     * an expression statement.
     */
    method ExpressionStatement(end: TokenType) returns (e: Expr)
      requires Valid()
      modifies this, scanner
      decreases Remaining(), 20
      ensures Steps() && Consumed()
      ensures e.StatementExpr? && scopeDepth in statementExprs
      ensures current.tokenType != end && current.tokenType != Else && previous.tokenType != Separator ==> hadError
    {
      var value, items := Expression([Separator, end, Else, Eof]);
      if !Check(end) && !Check(Else) {
        Consume(Separator, ExpectSeparatorAfterExpression);
      }
      statementExprs := statementExprs + {scopeDepth};
      e := StatementExpr(value);
    }

    /** printStatement: `print` and an expression, as a unary node on a built `print` token. */
    method PrintStatement(end: TokenType) returns (e: Expr)
      requires Valid()
      modifies this, scanner
      decreases Remaining(), 40
      ensures Steps()
      ensures e.UnaryExpr? && e.op == PrintToken
      ensures current.tokenType != end && previous.tokenType != Separator ==> hadError
    {
      var value, items := Expression([Separator, end, Else, Eof]);
      if !Check(end) {
        Consume(Separator, ExpectSeparatorAfterValue);
      }
      e := UnaryExpr(PrintToken, value);
    }

    /** ifStatement: `if (condition) statement [else statement]`, as a ternary node on the `if` token. */
    method IfStatement(end: TokenType) returns (e: Expr)
      requires Valid()
      modifies this, scanner
      decreases Remaining(), 40
      ensures Steps()
      ensures e.TernaryExpr? && e.op == old(previous)
    {
      var name := previous;
      Consume(LeftParen, ExpectParenAfterIf);
      var condition, items := Expression([RightParen, Else, Eof]);
      Consume(RightParen, ExpectParenAfterCondition);
      var thenBranch := Statement(end);
      var elseBranch := Missing;
      var hasElse := Match(Else);
      if hasElse {
        elseBranch := Statement(end);
      }
      e := TernaryNode(name, condition, thenBranch, elseBranch);
    }

    /** whileStatement: `while (condition) statement`, as a binary node on the `while` token. */
    method WhileStatement(end: TokenType) returns (e: Expr)
      requires Valid()
      modifies this, scanner
      decreases Remaining(), 40
      ensures Steps()
      ensures e.BinaryExpr? && e.op == old(previous)
    {
      var name := previous;
      Consume(LeftParen, ExpectParenAfterWhile);
      var condition, items := Expression([RightParen, Else, Eof]);
      Consume(RightParen, ExpectParenAfterCondition);
      var body := Statement(end);
      e := BinaryExpr(condition, name, body);
    }

    /**
     * forStatement: `for (initializer; condition; increment) statement`,
     * desugared to a while node whose body runs the statement and then the
     * increment, inside a group that holds the initializer first.
     */
    method ForStatement(end: TokenType) returns (e: Expr)
      requires Valid()
      modifies this, scanner
      decreases Remaining(), 50
      ensures Steps()
      ensures e.BinaryExpr? ==> e.op == WhileToken
      ensures e.GroupingExpr? ==> e.name == BraceToken && |e.exprs| == 2 && e.exprs[1].BinaryExpr? && e.exprs[1].op == WhileToken
      ensures e.BinaryExpr? || e.GroupingExpr?
    {
      Consume(LeftParen, ExpectParenAfterFor);
      var initializer := ForInitializer(end);
      var condition, increment := ForClauses();
      var body := Statement(end);
      if increment != Missing {
        body := GroupingExpr(BraceToken, [UnaryExpr(PrintToken, body), UnaryExpr(PrintToken, increment)], Missing);
      }
      e := BinaryExpr(condition, WhileToken, body);
      if initializer != Missing {
        e := GroupingExpr(BraceToken, [initializer, e], Missing);
      }
    }

    /** The initializer clause of a for statement: nothing after a bare separator, else a declaration or an expression statement. */
    method ForInitializer(end: TokenType) returns (initializer: Expr)
      requires Valid()
      modifies this, scanner
      decreases Remaining(), 45
      ensures Steps()
      ensures old(current).tokenType == Separator ==> initializer == Missing
    {
      initializer := Missing;
      var empty := Match(Separator);
      if !empty {
        var declared := Match(Var);
        if declared {
          initializer := VarDeclaration(end);
        } else {
          initializer := ExpressionStatement(end);
        }
      }
    }

    /**
     * The condition and increment clauses of a for statement, up to the
     * closing parenthesis: an absent condition is `true`, an absent
     * increment is nothing.
     */
    method ForClauses() returns (condition: Expr, increment: Expr)
      requires Valid()
      modifies this, scanner
      decreases Remaining(), 20
      ensures Steps()
      ensures old(current).tokenType == Separator ==> condition == LiteralExpr(BoolLiteral(true))
    {
      condition := LiteralExpr(BoolLiteral(true));
      if !Check(Separator) {
        ghost var items;
        condition, items := Expression([Separator, Else, Eof]);
      }
      Consume(Separator, ExpectSeparatorAfterCondition);
      increment := Missing;
      if !Check(RightParen) {
        ghost var items;
        increment, items := Expression([RightParen, Separator, Else, Eof]);
      }
      Consume(RightParen, ExpectParenAfterClauses);
    }

    /** statement: after an optional separator, a print, if, while or for statement, or else an expression statement. */
    method Statement(end: TokenType) returns (e: Expr)
      requires Valid()
      modifies this, scanner
      decreases Remaining(), 30
      ensures Steps() && Consumed()
    {
      PassSeparator();
      var m := Match(Print);
      if m {
        e := PrintStatement(end);
        return;
      }
      m := Match(If);
      if m {
        e := IfStatement(end);
        return;
      }
      m := Match(While);
      if m {
        e := WhileStatement(end);
        return;
      }
      m := Match(For);
      if m {
        e := ForStatement(end);
        return;
      }
      e := ExpressionStatement(end);
    }

    /** declaration: a statement, after which a panic is resolved by synchronize. */
    method Declaration(end: TokenType) returns (e: Expr)
      requires Valid()
      modifies this, scanner
      decreases Remaining(), 40
      ensures Steps() && Consumed()
      ensures panicMode ==> |old(errors)| < |errors|
    {
      e := Statement(end);
      if panicMode {
        ghost var run := Synchronize();
      }
    }

    /** attribute: `name: statement`, the statement unwrapped when it is an expression statement. */
    method Attribute(end: TokenType) returns (e: Expr)
      requires Valid()
      modifies this, scanner
      decreases Remaining(), 40
      ensures Steps()
      ensures old(current).tokenType == Identifier ==> Consumed()
      ensures e.UIAttributeExpr? && (e.name.tokenType == Identifier || e.name.tokenType == Separator || hadError)
    {
      Consume(Identifier, ExpectAttributeName);
      PassSeparator();
      var name := previous;
      Consume(Colon, ExpectColonAfterAttribute);
      PassSeparator();
      var handler := Statement(end);
      if handler.StatementExpr? {
        handler := handler.expr;
      }
      e := UIAttributeExpr(name, handler);
    }

    /**
     * directive: the attributes of a UI directive, then its child
     * directives, each between `<` and `>`; each child links to the one
     * before it.
     */
    method Directive(end: TokenType, sibling: Expr) returns (e: Expr)
      requires Valid()
      modifies this, scanner
      decreases Remaining(), 50
      ensures Steps()
      ensures e.UIDirectiveExpr? && e.sibling == sibling
      ensures old(current).tokenType == Less ==> Consumed()
      ensures forall a :: a in e.attributes ==> a.UIAttributeExpr?
      ensures e.lastChild == Missing || e.lastChild.UIDirectiveExpr?
    {
      var attributes := Attributes(end);
      var lastChild := Children(end);
      e := UIDirectiveExpr(attributes, sibling, lastChild);
    }

    /** The attributes of a directive: one for each leading identifier. */
    method Attributes(end: TokenType) returns (attributes: seq<Expr>)
      requires Valid()
      modifies this, scanner
      decreases Remaining(), 45
      ensures Steps()
      ensures forall a :: a in attributes ==> a.UIAttributeExpr?
      ensures old(current).tokenType != Identifier ==> attributes == [] && unchanged(this, scanner)
    {
      attributes := [];
      while Check(Identifier)
        invariant Steps()
        invariant forall a :: a in attributes ==> a.UIAttributeExpr?
        invariant old(current).tokenType != Identifier ==> attributes == [] && unchanged(this, scanner)
        decreases Remaining()
      {
        var attribute := Attribute(end);
        attributes := attributes + [attribute];
        PassSeparator();
      }
    }

    /** The child directives of a directive, each between `<` and `>`, each linked to the one before; the last is kept. */
    method Children(end: TokenType) returns (lastChild: Expr)
      requires Valid()
      modifies this, scanner
      decreases Remaining(), 45
      ensures Steps()
      ensures lastChild == Missing || lastChild.UIDirectiveExpr?
      ensures old(current).tokenType == Less ==> Consumed()
    {
      lastChild := Missing;
      while Check(Less) && !Check(Eof)
        invariant Steps()
        invariant lastChild == Missing || lastChild.UIDirectiveExpr?
        invariant old(current).tokenType == Less ==> current == old(current) || Remaining() < old(Remaining())
        decreases Remaining()
      {
        Consume(Less, ExpectChildDirective);
        PassSeparator();
        lastChild := Directive(end, lastChild);
        PassSeparator();
        Consume(Greater, ExpectDirectiveEnd);
        PassSeparator();
      }
    }

    /** grouping(): a bracketed group, closed by the bracket that matches the one just consumed. */
    method Grouping() returns (e: Expr)
      requires Valid() && (previous.tokenType == LeftParen || previous.tokenType == LeftBracket || previous.tokenType == LeftBrace)
      modifies this, scanner
      decreases Remaining(), 70
      ensures Steps()
    {
      var closing := Closing(previous.tokenType);
      ghost var exprs;
      var ui;
      e, exprs, ui := GroupingUntil(closing.0, closing.1);
    }

    /**
     * grouping(end, message): declarations up to the end token (or, outside
     * parentheses, a UI directive from the first `<`), then the end token.
     * A parenthesised group whose last declaration is an expression
     * statement yields that statement's expression in its place; a group of
     * that statement alone yields the expression itself.
     */
    method GroupingUntil(end: TokenType, message: string) returns (e: Expr, ghost exprs: seq<Expr>, ui: Expr)
      requires Valid()
      modifies this, scanner
      decreases Remaining(), 60
      ensures Steps()
      ensures end != RightParen ==> e == GroupingExpr(previous, exprs, ui)
      ensures ui == Missing || (end != RightParen && ui.UIDirectiveExpr?)
      ensures e == GroupResult(previous, exprs, ui, end == RightParen && old(scopeDepth) + 1 in statementExprs)
      ensures old(current).tokenType != end && old(current).tokenType != Eof && old(current).tokenType != Separator ==>
        Consumed()
      ensures end == Eof ==> current.tokenType == Eof || hadError
    {
      PassSeparator();
      scopeDepth := scopeDepth + 1;
      statementExprs := statementExprs - {scopeDepth};
      var list, uiFlag := Declarations(end);
      ui := Missing;
      if uiFlag {
        ui := Directive(end, Missing);
      }
      Consume(end, message);
      var unwrap := end == RightParen && scopeDepth in statementExprs;
      scopeDepth := scopeDepth - 1;
      exprs := list;
      e := GroupResult(previous, list, ui, unwrap);
    }

    /**
     * The declarations of a group, up to its end token or the end of input;
     * outside parentheses a `<` stops them and starts a UI directive.  Each
     * declaration starts with no expression statement recorded at this depth.
     */
    method Declarations(end: TokenType) returns (list: seq<Expr>, uiFlag: bool)
      requires Valid()
      modifies this, scanner
      decreases Remaining(), 55
      ensures Steps()
      ensures uiFlag ==> end != RightParen && current.tokenType == Less
      ensures !uiFlag ==> current.tokenType == end || current.tokenType == Eof
      ensures old(current).tokenType != end && old(current).tokenType != Eof ==> uiFlag || Remaining() < old(Remaining())
    {
      list := [];
      uiFlag := false;
      while !Check(end) && !Check(Eof)
        invariant Steps()
        invariant old(current).tokenType != end && old(current).tokenType != Eof ==>
          current == old(current) || Remaining() < old(Remaining())
        decreases Remaining()
      {
        uiFlag := end != RightParen && Check(Less);
        if uiFlag {
          return;
        }
        statementExprs := statementExprs - {scopeDepth};
        var declaration := Declaration(end);
        list := list + [declaration];
      }
    }

    /** parse: the whole source as a group ended by the end of input; true when no error was reported. */
    method Parse() returns (ok: bool)
      requires Valid()
      modifies this, scanner
      decreases Remaining(), 90
      ensures Steps()
      ensures ok <==> errors == []
      ensures ok ==> expr.GroupingExpr? && current.tokenType == Eof
    {
      ghost var exprs;
      var ui;
      expr, exprs, ui := GroupingUntil(Eof, ExpectEndOfFile);
      ok := !hadError;
    }
  }
}
