/**
 * The scanner (scanner.cpp): a cursor over the source text that yields one
 * token per call.  `start` marks the first character of the token being
 * scanned, `current` the next character to read and `line` the line
 * number.  The source is a NUL-terminated C string, modelled as the text
 * before its terminator: reading at `|source|` yields '\0'.
 */
module Scanners {
  import Value

  /**
   * TokenType: the enumeration KEYS_DEF builds, numbered in its order.
   * TOKEN_INSERT, which scanToken returns for `$EXPR`, is not part of that
   * enumeration; it takes the next number.
   */
  newtype TokenType = n: int | 0 <= n <= 72

  const LeftParen: TokenType := 0
  const RightParen: TokenType := 1
  const LeftBrace: TokenType := 2
  const RightBrace: TokenType := 3
  const LeftBracket: TokenType := 4
  const RightBracket: TokenType := 5
  const Comma: TokenType := 6
  const Dot: TokenType := 7
  const Comp: TokenType := 8
  const Percent: TokenType := 9
  const Question: TokenType := 10
  const Bang: TokenType := 11
  const BangEqual: TokenType := 12
  const Equal: TokenType := 13
  const EqualEqual: TokenType := 14
  const Greater: TokenType := 15
  const GreaterEqual: TokenType := 16
  const GreaterGreater: TokenType := 17
  const GreaterGreaterEqual: TokenType := 18
  const GreaterGreaterGreater: TokenType := 19
  const Less: TokenType := 20
  const LessEqual: TokenType := 21
  const LessLess: TokenType := 22
  const LessLessEqual: TokenType := 23
  const Minus: TokenType := 24
  const MinusEqual: TokenType := 25
  const MinusMinus: TokenType := 26
  const Arrow: TokenType := 27
  const Plus: TokenType := 28
  const PlusEqual: TokenType := 29
  const PlusPlus: TokenType := 30
  const Slash: TokenType := 31
  const SlashEqual: TokenType := 32
  const Star: TokenType := 33
  const StarEqual: TokenType := 34
  const And: TokenType := 35
  const AndAnd: TokenType := 36
  const AndEqual: TokenType := 37
  const Or: TokenType := 38
  const OrOr: TokenType := 39
  const OrEqual: TokenType := 40
  const Xor: TokenType := 41
  const XorEqual: TokenType := 42
  const Colon: TokenType := 43
  const ColonColon: TokenType := 44
  const Identifier: TokenType := 45
  const String: TokenType := 46
  const Int: TokenType := 47
  const Float: TokenType := 48
  const Val: TokenType := 49
  const Var: TokenType := 50
  const TypeLiteral: TokenType := 51
  const As: TokenType := 52
  const Def: TokenType := 53
  const Else: TokenType := 54
  const False: TokenType := 55
  const For: TokenType := 56
  const Fun: TokenType := 57
  const If: TokenType := 58
  const Import: TokenType := 59
  const Mod: TokenType := 60
  const New: TokenType := 61
  const Package: TokenType := 62
  const Print: TokenType := 63
  const Return: TokenType := 64
  const Super: TokenType := 65
  const This: TokenType := 66
  const True: TokenType := 67
  const While: TokenType := 68
  const Separator: TokenType := 69
  const Error: TokenType := 70
  const Eof: TokenType := 71
  const Insert: TokenType := 72

  /**
   * A token: its type, its text and its line.  The text is the lexeme
   * (the source from `start` to `current`) or, for an error token, the
   * message.
   */
  datatype Token = Token(tokenType: TokenType, text: string, line: int)

  const UnclosedComment := "Unclosed comment"
  const UnterminatedString := "Unterminated string."
  const UnexpectedCharacter := "Unexpected character."

  /** isAlpha: clears bit 5 (`c & ~0x20`) to fold lower case onto upper case. */
  predicate IsAlpha(c: char)
  {
    var n := c as int;
    var folded := if (n / 32) % 2 == 1 then n - 32 else n;
    ('A' as int <= folded <= 'Z' as int) || c == '_'
  }

  predicate IsDigit(c: char)
  {
    '0' <= c <= '9'
  }

  /** isHexLetter, with the same case folding as isAlpha. */
  predicate IsHexLetter(c: char)
  {
    var n := c as int;
    var folded := if (n / 32) % 2 == 1 then n - 32 else n;
    'A' as int <= folded <= 'F' as int
  }

  predicate IsAlnum(c: char)
  {
    IsAlpha(c) || IsDigit(c)
  }

  /** The case folding accepts exactly the ASCII letters and the underscore. */
  lemma AlphaExactly(c: char)
    ensures IsAlpha(c) <==> ('a' <= c <= 'z') || ('A' <= c <= 'Z') || c == '_'
  {
    var n := c as int;
    if (n / 32) % 2 == 1 {
      assert 'a' <= c <= 'z' ==> 'A' as int <= n - 32 <= 'Z' as int;
      assert 'A' as int <= n - 32 <= 'Z' as int ==> 'a' <= c <= 'z';
    } else {
      assert !('a' <= c <= 'z');
    }
  }

  /** The hexadecimal letters are a to f in either case. */
  lemma HexLetterExactly(c: char)
    ensures IsHexLetter(c) <==> ('a' <= c <= 'f') || ('A' <= c <= 'F')
  {
    var n := c as int;
    if (n / 32) % 2 == 1 {
      assert 'a' <= c <= 'f' ==> 'A' as int <= n - 32 <= 'F' as int;
      assert 'A' as int <= n - 32 <= 'F' as int ==> 'a' <= c <= 'f';
    } else {
      assert !('a' <= c <= 'f');
    }
  }

  /** The number of newlines among the first n characters of s. */
  function NewlinesBefore(s: string, n: nat): nat
    requires n <= |s|
  {
    if n == 0 then 0 else NewlinesBefore(s, n - 1) + (if s[n - 1] == '\n' then 1 else 0)
  }

  /** The number of newlines in s[a..b]. */
  function NewlinesBetween(s: string, a: nat, b: nat): int
    requires a <= b <= |s|
  {
    NewlinesBefore(s, b) - NewlinesBefore(s, a)
  }

  /** The keyword table: the type of each reserved word. */
  function Keyword(s: string): Value.Maybe<TokenType>
  {
    match s
    case "as" => Value.Some(As)
    case "bool" => Value.Some(TypeLiteral)
    case "def" => Value.Some(Def)
    case "else" => Value.Some(Else)
    case "false" => Value.Some(False)
    case "float" => Value.Some(TypeLiteral)
    case "for" => Value.Some(For)
    case "fun" => Value.Some(Fun)
    case "if" => Value.Some(If)
    case "import" => Value.Some(Import)
    case "int" => Value.Some(TypeLiteral)
    case "mod" => Value.Some(Mod)
    case "new" => Value.Some(New)
    case "package" => Value.Some(Package)
    case "print" => Value.Some(Print)
    case "return" => Value.Some(Return)
    case "String" => Value.Some(TypeLiteral)
    case "super" => Value.Some(Super)
    case "this" => Value.Some(This)
    case "true" => Value.Some(True)
    case "val" => Value.Some(Val)
    case "var" => Value.Some(TypeLiteral)
    case "void" => Value.Some(TypeLiteral)
    case "while" => Value.Some(While)
    case _ => Value.None
  }

  /** checkKeyword: the rest of the lexeme from `from` on is exactly `rest`. */
  function CheckKeyword(lexeme: string, from: nat, rest: string, t: TokenType): TokenType
  {
    if |lexeme| == from + |rest| && lexeme[from..] == rest then t else Identifier
  }

  /** identifierType: a trie over the first characters of the lexeme. */
  function IdentifierType(lexeme: string): (t: TokenType)
    requires |lexeme| >= 1
  {
    match lexeme[0]
    case 'a' => CheckKeyword(lexeme, 1, "s", As)
    case 'b' => CheckKeyword(lexeme, 1, "ool", TypeLiteral)
    case 'd' => CheckKeyword(lexeme, 1, "ef", Def)
    case 'e' => CheckKeyword(lexeme, 1, "lse", Else)
    case 'f' =>
      if |lexeme| > 1 then
        match lexeme[1]
        case 'a' => CheckKeyword(lexeme, 2, "lse", False)
        case 'l' => CheckKeyword(lexeme, 2, "oat", TypeLiteral)
        case 'o' => CheckKeyword(lexeme, 2, "r", For)
        case 'u' => CheckKeyword(lexeme, 2, "n", Fun)
        case _ => Identifier
      else Identifier
    case 'i' =>
      if |lexeme| > 1 then
        match lexeme[1]
        case 'f' => CheckKeyword(lexeme, 2, "", If)
        case 'm' => CheckKeyword(lexeme, 2, "port", Import)
        case 'n' => CheckKeyword(lexeme, 2, "t", TypeLiteral)
        case _ => Identifier
      else Identifier
    case 'm' => CheckKeyword(lexeme, 1, "od", Mod)
    case 'n' => CheckKeyword(lexeme, 1, "ew", New)
    case 'p' =>
      if |lexeme| > 1 then
        match lexeme[1]
        case 'a' => CheckKeyword(lexeme, 2, "ckage", Package)
        case 'r' => CheckKeyword(lexeme, 2, "int", Print)
        case _ => Identifier
      else Identifier
    case 'r' => CheckKeyword(lexeme, 1, "eturn", Return)
    case 'S' => CheckKeyword(lexeme, 1, "tring", TypeLiteral)
    case 's' => CheckKeyword(lexeme, 1, "uper", Super)
    case 't' =>
      if |lexeme| > 1 then
        match lexeme[1]
        case 'h' => CheckKeyword(lexeme, 2, "is", This)
        case 'r' => CheckKeyword(lexeme, 2, "ue", True)
        case _ => Identifier
      else Identifier
    case 'v' =>
      if |lexeme| > 1 then
        match lexeme[1]
        case 'a' =>
          if |lexeme| > 2 then
            match lexeme[2]
            case 'l' => CheckKeyword(lexeme, 3, "", Val)
            case 'r' => CheckKeyword(lexeme, 3, "", TypeLiteral)
            case _ => Identifier
          else Identifier
        case 'o' => CheckKeyword(lexeme, 2, "id", TypeLiteral)
        case _ => Identifier
      else Identifier
    case 'w' => CheckKeyword(lexeme, 1, "hile", While)
    case _ => Identifier
  }

  /** The trie finds the first keywords of the table. */
  lemma FindsKeywordsAToF()
    ensures IdentifierType("as") == As && IdentifierType("bool") == TypeLiteral
    ensures IdentifierType("def") == Def && IdentifierType("else") == Else
    ensures IdentifierType("false") == False && IdentifierType("float") == TypeLiteral
  {
  }

  lemma FindsKeywordsFToM()
    ensures IdentifierType("for") == For && IdentifierType("fun") == Fun
    ensures IdentifierType("if") == If && IdentifierType("import") == Import
    ensures IdentifierType("int") == TypeLiteral && IdentifierType("mod") == Mod
  {
  }

  lemma FindsKeywordsNToS()
    ensures IdentifierType("new") == New && IdentifierType("package") == Package
    ensures IdentifierType("print") == Print && IdentifierType("return") == Return
    ensures IdentifierType("String") == TypeLiteral && IdentifierType("super") == Super
  {
  }

  lemma FindsKeywordsTToW()
    ensures IdentifierType("this") == This && IdentifierType("true") == True
    ensures IdentifierType("val") == Val && IdentifierType("var") == TypeLiteral
    ensures IdentifierType("void") == TypeLiteral && IdentifierType("while") == While
  {
  }

  /** The words of the keyword table. */
  lemma KeywordCases(lexeme: string)
    requires Keyword(lexeme).Some?
    ensures lexeme == "as" || lexeme == "bool" || lexeme == "def" || lexeme == "else" || lexeme == "false" ||
            lexeme == "float" || lexeme == "for" || lexeme == "fun" || lexeme == "if" || lexeme == "import" ||
            lexeme == "int" || lexeme == "mod" || lexeme == "new" || lexeme == "package" || lexeme == "print" ||
            lexeme == "return" || lexeme == "String" || lexeme == "super" || lexeme == "this" || lexeme == "true" ||
            lexeme == "val" || lexeme == "var" || lexeme == "void" || lexeme == "while"
  {
  }

  /** Below: what the trie recognises is in the keyword table with that type, a few first letters at a time. */
  lemma SoundABDE(lexeme: string)
    requires |lexeme| >= 1 && IdentifierType(lexeme) != Identifier
    requires lexeme[0] == 'a' || lexeme[0] == 'b' || lexeme[0] == 'd' || lexeme[0] == 'e'
    ensures Keyword(lexeme) == Value.Some(IdentifierType(lexeme))
  {
    if lexeme[0] == 'a' { assert lexeme == "as"; }
    else if lexeme[0] == 'b' { assert lexeme == "bool"; }
    else if lexeme[0] == 'd' { assert lexeme == "def"; }
    else { assert lexeme == "else"; }
  }

  lemma SoundF(lexeme: string)
    requires |lexeme| >= 1 && IdentifierType(lexeme) != Identifier && lexeme[0] == 'f'
    ensures Keyword(lexeme) == Value.Some(IdentifierType(lexeme))
  {
    if lexeme[1] == 'a' { assert lexeme == "false"; }
    else if lexeme[1] == 'l' { assert lexeme == "float"; }
    else if lexeme[1] == 'o' { assert lexeme == "for"; }
    else { assert lexeme == "fun"; }
  }

  lemma SoundIP(lexeme: string)
    requires |lexeme| >= 1 && IdentifierType(lexeme) != Identifier && (lexeme[0] == 'i' || lexeme[0] == 'p')
    ensures Keyword(lexeme) == Value.Some(IdentifierType(lexeme))
  {
    if lexeme[0] == 'i' {
      if lexeme[1] == 'f' { assert lexeme == "if"; }
      else if lexeme[1] == 'm' { assert lexeme == "import"; }
      else { assert lexeme == "int"; }
    } else {
      if lexeme[1] == 'a' { assert lexeme == "package"; }
      else { assert lexeme == "print"; }
    }
  }

  lemma SoundMNRS(lexeme: string)
    requires |lexeme| >= 1 && IdentifierType(lexeme) != Identifier
    requires lexeme[0] == 'm' || lexeme[0] == 'n' || lexeme[0] == 'r' || lexeme[0] == 'S' || lexeme[0] == 's'
    ensures Keyword(lexeme) == Value.Some(IdentifierType(lexeme))
  {
    if lexeme[0] == 'm' { assert lexeme == "mod"; }
    else if lexeme[0] == 'n' { assert lexeme == "new"; }
    else if lexeme[0] == 'r' { assert lexeme == "return"; }
    else if lexeme[0] == 'S' { assert lexeme == "String"; }
    else { assert lexeme == "super"; }
  }

  lemma SoundTVW(lexeme: string)
    requires |lexeme| >= 1 && IdentifierType(lexeme) != Identifier
    requires lexeme[0] == 't' || lexeme[0] == 'v' || lexeme[0] == 'w'
    ensures Keyword(lexeme) == Value.Some(IdentifierType(lexeme))
  {
    if lexeme[0] == 't' {
      if lexeme[1] == 'h' { assert lexeme == "this"; }
      else { assert lexeme == "true"; }
    } else if lexeme[0] == 'v' {
      if lexeme[1] == 'o' { assert lexeme == "void"; }
      else if lexeme[2] == 'l' { assert lexeme == "val"; }
      else { assert lexeme == "var"; }
    } else {
      assert lexeme == "while";
    }
  }

  /** The trie recognises a keyword only on a whole-lexeme match. */
  lemma TrieSound(lexeme: string)
    requires |lexeme| >= 1 && IdentifierType(lexeme) != Identifier
    ensures Keyword(lexeme) == Value.Some(IdentifierType(lexeme))
  {
    var c := lexeme[0];
    if c == 'a' || c == 'b' || c == 'd' || c == 'e' {
      SoundABDE(lexeme);
    } else if c == 'f' {
      SoundF(lexeme);
    } else if c == 'i' || c == 'p' {
      SoundIP(lexeme);
    } else if c == 'm' || c == 'n' || c == 'r' || c == 'S' || c == 's' {
      SoundMNRS(lexeme);
    } else {
      SoundTVW(lexeme);
    }
  }

  /** Every keyword of the table is recognised by the trie, with its type. */
  lemma TrieComplete(lexeme: string)
    requires Keyword(lexeme).Some?
    ensures |lexeme| >= 1 && IdentifierType(lexeme) == Keyword(lexeme).value
  {
    KeywordCases(lexeme);
    FindsKeywordsAToF();
    FindsKeywordsFToM();
    FindsKeywordsNToS();
    FindsKeywordsTToW();
  }

  /**
   * identifierType agrees with the keyword table: a lexeme is recognised
   * as a keyword exactly when the whole of it is one, with that keyword's
   * type, and is an identifier otherwise.
   */
  lemma IdentifierTypeIsKeyword(lexeme: string)
    requires |lexeme| >= 1
    ensures IdentifierType(lexeme) == (if Keyword(lexeme).Some? then Keyword(lexeme).value else Identifier)
  {
    if IdentifierType(lexeme) != Identifier {
      TrieSound(lexeme);
    } else if Keyword(lexeme).Some? {
      TrieComplete(lexeme);
    }
  }

  /** The one-character operators and punctuation. */
  function Single(a: char): Value.Maybe<TokenType>
  {
    match a
    case '(' => Value.Some(LeftParen)
    case ')' => Value.Some(RightParen)
    case '{' => Value.Some(LeftBrace)
    case '}' => Value.Some(RightBrace)
    case '[' => Value.Some(LeftBracket)
    case ']' => Value.Some(RightBracket)
    case ',' => Value.Some(Comma)
    case '.' => Value.Some(Dot)
    case '~' => Value.Some(Comp)
    case '%' => Value.Some(Percent)
    case '?' => Value.Some(Question)
    case '-' => Value.Some(Minus)
    case '+' => Value.Some(Plus)
    case '/' => Value.Some(Slash)
    case '*' => Value.Some(Star)
    case '!' => Value.Some(Bang)
    case '=' => Value.Some(Equal)
    case '<' => Value.Some(Less)
    case '>' => Value.Some(Greater)
    case ':' => Value.Some(Colon)
    case '&' => Value.Some(And)
    case '|' => Value.Some(Or)
    case '^' => Value.Some(Xor)
    case _ => Value.None
  }

  /** The two-character operators. */
  function Double(a: char, b: char): Value.Maybe<TokenType>
  {
    match (a, b)
    case ('-', '=') => Value.Some(MinusEqual)
    case ('-', '-') => Value.Some(MinusMinus)
    case ('-', '>') => Value.Some(Arrow)
    case ('+', '=') => Value.Some(PlusEqual)
    case ('+', '+') => Value.Some(PlusPlus)
    case ('/', '=') => Value.Some(SlashEqual)
    case ('*', '=') => Value.Some(StarEqual)
    case ('!', '=') => Value.Some(BangEqual)
    case ('=', '=') => Value.Some(EqualEqual)
    case ('<', '=') => Value.Some(LessEqual)
    case ('<', '<') => Value.Some(LessLess)
    case ('>', '=') => Value.Some(GreaterEqual)
    case ('>', '>') => Value.Some(GreaterGreater)
    case (':', ':') => Value.Some(ColonColon)
    case ('&', '=') => Value.Some(AndEqual)
    case ('&', '&') => Value.Some(AndAnd)
    case ('|', '=') => Value.Some(OrEqual)
    case ('|', '|') => Value.Some(OrOr)
    case ('^', '=') => Value.Some(XorEqual)
    case _ => Value.None
  }

  /** The three-character operators. */
  function Triple(a: char, b: char, c: char): Value.Maybe<TokenType>
  {
    match (a, b, c)
    case ('<', '<', '=') => Value.Some(LessLessEqual)
    case ('>', '>', '>') => Value.Some(GreaterGreaterGreater)
    case ('>', '>', '=') => Value.Some(GreaterGreaterEqual)
    case _ => Value.None
  }

  /** The operator table, read at s[i..i + n]. */
  function OperatorAt(s: string, i: nat, n: nat): Value.Maybe<TokenType>
    requires i + n <= |s|
  {
    if n == 1 then Single(s[i])
    else if n == 2 then Double(s[i], s[i + 1])
    else if n == 3 then Triple(s[i], s[i + 1], s[i + 2])
    else Value.None
  }

  /** The type of an operator lexeme, if it is one. */
  function OperatorType(s: string): Value.Maybe<TokenType>
  {
    OperatorAt(s, 0, |s|)
  }

  /** The operator at s[i..i + n] is the one the table finds in the lexeme itself. */
  lemma OperatorAtSlice(s: string, i: nat, n: nat)
    requires i + n <= |s|
    ensures OperatorAt(s, i, n) == OperatorType(s[i..i + n])
  {
    var t := s[i..i + n];
    if n >= 1 { assert t[0] == s[i]; }
    if n >= 2 { assert t[1] == s[i + 1]; }
    if n >= 3 { assert t[2] == s[i + 2]; }
  }

  /**
   * s[i..i + n] is an operator and no longer lexeme from i on is one
   * (operators have at most three characters).
   */
  ghost predicate LongestOperator(s: string, i: nat, n: nat)
  {
    1 <= n <= 3 && i + n <= |s| && OperatorAt(s, i, n).Some? &&
    (n < 2 && i + 2 <= |s| ==> OperatorAt(s, i, 2).None?) &&
    (n < 3 && i + 3 <= |s| ==> OperatorAt(s, i, 3).None?)
  }

  predicate AllDigits(s: string)
  {
    forall i :: 0 <= i < |s| ==> IsDigit(s[i])
  }

  predicate AllHexDigits(s: string)
  {
    forall i :: 0 <= i < |s| ==> IsDigit(s[i]) || IsHexLetter(s[i])
  }

  predicate AllAlnum(s: string)
  {
    forall i :: 0 <= i < |s| ==> IsAlnum(s[i])
  }

  /** Decimal digits, or `0x` and hexadecimal digits (possibly none). */
  predicate IntLexeme(s: string)
  {
    (|s| >= 1 && AllDigits(s)) || (|s| >= 2 && s[0] == '0' && s[1] == 'x' && AllHexDigits(s[2..]))
  }

  /** Decimal digits, a point and at least one more decimal digit. */
  ghost predicate FloatLexeme(s: string)
  {
    exists k :: 0 < k < |s| - 1 && s[k] == '.' && AllDigits(s[..k]) && AllDigits(s[k + 1..])
  }

  /** A double quote, anything but a double quote, a double quote. */
  predicate StringLexeme(s: string)
  {
    |s| >= 2 && s[0] == '"' && s[|s| - 1] == '"' && '"' !in s[1..|s| - 1]
  }

  /** An identifier or a keyword: a letter or underscore, then letters, digits and underscores. */
  predicate Word(s: string)
  {
    |s| >= 1 && IsAlpha(s[0]) && AllAlnum(s)
  }

  /** The trie yields an identifier or a keyword type, never the error or end types. */
  lemma WordTypes(s: string)
    requires |s| >= 1
    ensures IdentifierType(s) != Error && IdentifierType(s) != Eof
  {
  }

  /** The operator table holds no error or end type. */
  lemma OperatorTypes(s: string, i: nat, n: nat)
    requires i + n <= |s| && OperatorAt(s, i, n).Some?
    ensures OperatorAt(s, i, n).value != Error && OperatorAt(s, i, n).value != Eof
  {
  }

  /** A run of decimal digits is a decimal integer lexeme. */
  lemma DecimalLexeme(s: string, a: nat, b: nat)
    requires a < b <= |s| && forall i :: a <= i < b ==> IsDigit(s[i])
    ensures IntLexeme(s[a..b]) && AllDigits(s[a..b])
  {
  }

  /** `0x` and hexadecimal digits is an integer lexeme, and not a decimal one. */
  lemma HexLexeme(s: string, a: nat, b: nat)
    requires a + 2 <= b <= |s| && s[a] == '0' && s[a + 1] == 'x'
    requires forall i :: a + 2 <= i < b ==> IsDigit(s[i]) || IsHexLetter(s[i])
    ensures IntLexeme(s[a..b]) && !AllDigits(s[a..b])
  {
    var t := s[a..b];
    assert t[2..] == s[a + 2..b];
    assert t[1] == 'x';
  }

  /** Digits, a point at p and more digits is a floating-point lexeme. */
  lemma FractionLexeme(s: string, a: nat, p: nat, b: nat)
    requires a < p && p + 1 < b <= |s| && s[p] == '.'
    requires forall i :: a <= i < p ==> IsDigit(s[i])
    requires forall i :: p < i < b ==> IsDigit(s[i])
    ensures FloatLexeme(s[a..b])
  {
    var t := s[a..b];
    assert t[..p - a] == s[a..p];
    assert t[p - a + 1..] == s[p + 1..b];
    assert t[p - a] == '.';
  }

  /** The kinds of token scanToken tells apart by their first character. */
  datatype LexClass = WordStart | DigitStart | QuoteStart | DollarStart | SeparatorStart | OperatorStart

  function Class(c: char): LexClass
  {
    if IsAlpha(c) then WordStart
    else if IsDigit(c) then DigitStart
    else if c == '"' then QuoteStart
    else if c == '$' then DollarStart
    else if c == '\n' || c == ';' then SeparatorStart
    else OperatorStart
  }

  /** Token::equal: the token's text is the given C string. */
  predicate TokenEquals(token: Token, s: string)
  {
    token.text <= s && |s| == |token.text|
  }

  lemma EqualIsText(token: Token, s: string)
    ensures TokenEquals(token, s) <==> token.text == s
  {
  }

  class Scanner {
    const source: string
    var start: nat
    var current: nat
    var line: int

    ghost predicate Valid()
      reads this
    {
      '\0' !in source && start <= current <= |source|
    }

    constructor (source: string)
      requires '\0' !in source
      ensures Valid() && this.source == source && start == 0 && current == 0 && line == 1
    {
      this.source := source;
      start := 0;
      current := 0;
      line := 1;
    }

    predicate IsAtEnd()
      reads this
    {
      current >= |source|
    }

    function Peek(): char
      reads this
    {
      if current < |source| then source[current] else '\0'
    }

    function PeekNext(): char
      reads this
    {
      if IsAtEnd() then '\0' else if current + 1 < |source| then source[current + 1] else '\0'
    }

    method Advance() returns (c: char)
      requires Valid() && current < |source|
      modifies this
      ensures Valid() && c == source[old(current)] && current == old(current) + 1
      ensures start == old(start) && line == old(line)
    {
      c := source[current];
      current := current + 1;
    }

    /** match: consumes `expected` if it is the next character. */
    method Match(expected: char) returns (matched: bool)
      requires Valid()
      modifies this
      ensures Valid() && start == old(start) && line == old(line)
      ensures matched <==> old(current) < |source| && source[old(current)] == expected
      ensures current == old(current) + (if matched then 1 else 0)
    {
      if IsAtEnd() || source[current] != expected {
        return false;
      }
      current := current + 1;
      return true;
    }

    function MakeToken(t: TokenType): (token: Token)
      requires start <= current <= |source|
      reads this
      ensures token.text == source[start..current] && |token.text| == current - start
    {
      Token(t, source[start..current], line)
    }

    function ErrorToken(message: string): Token
      reads this
    {
      Token(Error, message, line)
    }

    /**
     * skipRecursiveComment, entered after a `/*`: skips to the `*/` that
     * closes it, skipping nested comments whole and counting the lines.
     * It fails only by reaching the end of the source.
     */
    method SkipRecursiveComment() returns (closed: bool)
      requires Valid()
      modifies this
      decreases |source| - current
      ensures Valid() && start == old(start) && old(current) <= current
      ensures old(line) <= line == old(line) + NewlinesBetween(source, old(current), current)
      ensures closed ==> old(current) + 2 <= current && source[current - 2] == '*' && source[current - 1] == '/'
      ensures !closed ==> current == |source|
    {
      while true
        invariant Valid() && start == old(start) && old(current) <= current
        invariant old(line) <= line == old(line) + NewlinesBetween(source, old(current), current)
        decreases |source| - current
      {
        if IsAtEnd() {
          return false;
        }
        if Peek() == '\n' {
          line := line + 1;
        }
        var c := Advance();
        assert NewlinesBefore(source, current) == NewlinesBefore(source, current - 1) + (if c == '\n' then 1 else 0);
        if c == '/' && Peek() == '*' {
          c := Advance();
          assert NewlinesBefore(source, current) == NewlinesBefore(source, current - 1);
          closed := SkipRecursiveComment();
          if !closed {
            return false;
          }
        } else if c == '*' && Peek() == '/' {
          c := Advance();
          assert NewlinesBefore(source, current) == NewlinesBefore(source, current - 1);
          return true;
        }
      }
    }

    /** The next character starts blanks or a comment, which skipWhitespace skips. */
    predicate AtBlank()
      reads this
    {
      Peek() == ' ' || Peek() == '\r' || Peek() == '\t' ||
      (Peek() == '/' && (PeekNext() == '/' || PeekNext() == '*'))
    }

    /**
     * skipWhitespace: skips blanks and comments, counting the lines of
     * block comments; a line comment stops before its newline.  It fails
     * on an unclosed block comment, which runs to the end of the source.
     */
    method SkipWhitespace() returns (ok: bool)
      requires Valid()
      modifies this
      ensures Valid() && start == old(start) && old(current) <= current
      ensures old(line) <= line == old(line) + NewlinesBetween(source, old(current), current)
      ensures line != old(line) ==> exists k :: old(current) <= k < current && source[k] == '/'
      ensures ok ==> !AtBlank()
      ensures !ok ==> current == |source| && old(current) < current
    {
      while true
        invariant Valid() && start == old(start) && old(current) <= current
        invariant old(line) <= line == old(line) + NewlinesBetween(source, old(current), current)
        invariant line != old(line) ==> exists k :: old(current) <= k < current && source[k] == '/'
        decreases |source| - current
      {
        if Peek() == ' ' || Peek() == '\r' || Peek() == '\t' {
          var _ := Advance();
        } else if Peek() == '/' && PeekNext() == '/' {
          while Peek() != '\n' && !IsAtEnd()
            invariant Valid() && start == old(start) && old(current) <= current
            invariant old(line) <= line == old(line) + NewlinesBetween(source, old(current), current)
            decreases |source| - current
          {
            var _ := Advance();
          }
        } else if Peek() == '/' && PeekNext() == '*' {
          ghost var slash := current;
          current := current + 2;
          assert NewlinesBefore(source, current) == NewlinesBefore(source, slash);
          var closed := SkipRecursiveComment();
          assert old(current) <= slash < current && source[slash] == '/';
          if !closed {
            return false;
          }
        } else {
          return true;
        }
      }
    }

    /** identifier, after the first letter: the longest run of letters and digits. */
    method ScanIdentifier() returns (token: Token)
      requires Valid() && current == start + 1 && IsAlpha(source[start])
      modifies this
      ensures Valid() && start == old(start) && line == old(line) && start < current
      ensures token == MakeToken(IdentifierType(source[start..current]))
      ensures Word(token.text)
      ensures current == |source| || !IsAlnum(source[current])
    {
      while IsAlpha(Peek()) || IsDigit(Peek())
        invariant Valid() && start == old(start) && line == old(line) && start < current
        invariant Word(source[start..current])
        decreases |source| - current
      {
        var _ := Advance();
        assert source[start..current] == source[start..current - 1] + [source[current - 1]];
      }
      token := MakeToken(IdentifierType(source[start..current]));
    }

    /** The digit loop of number: the longest run of decimal digits, or also of hexadecimal letters when `hex`. */
    method Digits(hex: bool)
      requires Valid()
      modifies this
      ensures Valid() && start == old(start) && line == old(line) && old(current) <= current
      ensures forall i :: old(current) <= i < current ==> IsDigit(source[i]) || (hex && IsHexLetter(source[i]))
      ensures current == |source| || !(IsDigit(source[current]) || (hex && IsHexLetter(source[current])))
    {
      while IsDigit(Peek()) || (hex && IsHexLetter(Peek()))
        invariant Valid() && start == old(start) && line == old(line) && old(current) <= current
        invariant forall i :: old(current) <= i < current ==> IsDigit(source[i]) || (hex && IsHexLetter(source[i]))
        decreases |source| - current
      {
        var _ := Advance();
      }
    }

    /** The fraction of number, at a point followed by a digit: the point and the longest run of digits after it. */
    method Fraction()
      requires Valid() && current + 1 < |source| && source[current] == '.' && IsDigit(source[current + 1])
      modifies this
      ensures Valid() && start == old(start) && line == old(line) && old(current) + 2 <= current
      ensures forall i :: old(current) < i < current ==> IsDigit(source[i])
      ensures current == |source| || !IsDigit(source[current])
    {
      var _ := Advance();
      Digits(false);
    }

    /**
     * number, after the first digit: `0x` and hexadecimal digits, or
     * decimal digits with a fraction only where a digit follows the point.
     */
    method Number() returns (token: Token)
      requires Valid() && current == start + 1 && IsDigit(source[start])
      modifies this
      ensures Valid() && start == old(start) && line == old(line) && start < current
      ensures token == MakeToken(token.tokenType)
      ensures token.tokenType == Int || token.tokenType == Float
      ensures token.tokenType == Int ==> IntLexeme(token.text)
      ensures token.tokenType == Int && AllDigits(token.text) ==>
        current == |source| || (!IsDigit(source[current]) && !(source[current] == '.' && current + 1 < |source| && IsDigit(source[current + 1])))
      ensures token.tokenType == Int && !AllDigits(token.text) ==>
        current == |source| || !(IsDigit(source[current]) || IsHexLetter(source[current]))
      ensures token.tokenType == Float ==> FloatLexeme(token.text) && (current == |source| || !IsDigit(source[current]))
    {
      var hex := source[start] == '0' && Peek() == 'x';
      if hex {
        var _ := Advance();
      }
      Digits(hex);
      if !hex && Peek() == '.' && IsDigit(PeekNext()) {
        ghost var point := current;
        Fraction();
        FractionLexeme(source, start, point, current);
        token := MakeToken(Float);
      } else if hex {
        HexLexeme(source, start, current);
        token := MakeToken(Int);
      } else {
        DecimalLexeme(source, start, current);
        token := MakeToken(Int);
      }
    }

    /** string, after the opening quote: up to the closing quote, counting the lines it spans. */
    method ScanString() returns (token: Token)
      requires Valid() && current == start + 1 && source[start] == '"'
      modifies this
      ensures Valid() && start == old(start) && start < current
      ensures old(line) <= line == old(line) + NewlinesBetween(source, old(current), current)
      ensures token.tokenType == String ==> token == MakeToken(String) && StringLexeme(token.text)
      ensures token.tokenType != String ==> token == ErrorToken(UnterminatedString) && current == |source|
    {
      while Peek() != '"' && !IsAtEnd()
        invariant Valid() && start == old(start) && start < current
        invariant old(line) <= line == old(line) + NewlinesBetween(source, old(current), current)
        invariant forall i :: start < i < current ==> source[i] != '"'
        decreases |source| - current
      {
        if Peek() == '\n' {
          line := line + 1;
        }
        var _ := Advance();
      }
      if IsAtEnd() {
        return ErrorToken(UnterminatedString);
      }
      var _ := Advance();
      token := MakeToken(String);
      assert token.text == source[start..current];
      assert token.text[1..|token.text| - 1] == source[start + 1..current - 1];
    }

    /** The `$` case: letters after it; `$EXPR` is the insertion token, anything else an unexpected character. */
    method Dollar() returns (token: Token)
      requires Valid() && current == start + 1 && source[start] == '$'
      modifies this
      ensures Valid() && start == old(start) && line == old(line) && start < current
      ensures token.tokenType == Insert ==> token == MakeToken(Insert) && token.text == "$EXPR"
      ensures token.tokenType != Insert ==> token == ErrorToken(UnexpectedCharacter) && source[start..current] != "$EXPR"
    {
      while IsAlpha(Peek())
        invariant Valid() && start == old(start) && line == old(line) && start < current
        decreases |source| - current
      {
        var _ := Advance();
      }
      var t := CheckKeyword(source[start..current], 0, "$EXPR", Insert);
      if t != Identifier {
        return MakeToken(t);
      }
      return ErrorToken(UnexpectedCharacter);
    }

    /**
     * The separator case, after a newline or a semicolon: one separator
     * for the whole run of newlines and semicolons and the blanks and
     * comments between them.  Only the first newline of the run counts a
     * line; newlines inside block comments count too.
     */
    method ScanSeparator(c: char) returns (token: Token)
      requires Valid() && current == start + 1 && source[start] == c && (c == '\n' || c == ';')
      modifies this
      ensures Valid() && start == old(start) && start < current
      ensures old(line) <= line
      ensures token.tokenType == Separator ==>
        token == MakeToken(Separator) && !AtBlank() &&
        (current == |source| || (source[current] != '\n' && source[current] != ';'))
      ensures token.tokenType != Separator ==> token == ErrorToken(UnclosedComment) && current == |source|
      ensures (forall k :: start <= k < current ==> source[k] != '/') ==> line == old(line) + (if c == '\n' then 1 else 0)
    {
      if c == '\n' {
        line := line + 1;
      }
      ghost var first := line;
      while true
        invariant Valid() && start == old(start) && start < current && first <= line
        invariant first == old(line) + (if c == '\n' then 1 else 0)
        invariant line != first ==> exists k :: start <= k < current && source[k] == '/'
        decreases |source| - current
      {
        var ok := SkipWhitespace();
        if !ok {
          return ErrorToken(UnclosedComment);
        }
        var more := Match('\n');
        if !more {
          more := Match(';');
        }
        if !more {
          break;
        }
      }
      token := MakeToken(Separator);
    }

    /** What each operator case promises: the longest operator at start, of type t. */
    ghost predicate ScannedOperator(t: TokenType)
      reads this
    {
      start < current <= |source| && OperatorAt(source, start, current - start) == Value.Some(t) &&
      LongestOperator(source, start, current - start)
    }

    /** The operators of at most two characters whose second character is fixed: `/=`, `*=`, `!=`, `==`, `^=`, `::`. */
    method PairOperator(c: char) returns (t: TokenType)
      requires Valid() && current == start + 1 && source[start] == c
      requires c == '/' || c == '*' || c == '!' || c == '=' || c == '^' || c == ':'
      modifies this
      ensures Valid() && start == old(start) && line == old(line) && ScannedOperator(t)
    {
      var second := if c == ':' then ':' else '=';
      var two := Match(second);
      match c
      case '/' => t := if two then SlashEqual else Slash;
      case '*' => t := if two then StarEqual else Star;
      case '!' => t := if two then BangEqual else Bang;
      case '=' => t := if two then EqualEqual else Equal;
      case '^' => t := if two then XorEqual else Xor;
      case ':' => t := if two then ColonColon else Colon;
    }

    /** `-=`, `--`, `->`, `-`, `+=`, `++`, `+`. */
    method SignOperator(c: char) returns (t: TokenType)
      requires Valid() && current == start + 1 && source[start] == c && (c == '-' || c == '+')
      modifies this
      ensures Valid() && start == old(start) && line == old(line) && ScannedOperator(t)
    {
      var eq := Match('=');
      if eq {
        t := if c == '-' then MinusEqual else PlusEqual;
        return;
      }
      var twice := Match(c);
      if twice {
        t := if c == '-' then MinusMinus else PlusPlus;
        return;
      }
      if c == '+' {
        return Plus;
      }
      var arrow := Match('>');
      t := if arrow then Arrow else Minus;
    }

    /** `&=`, `&&`, `&`, `|=`, `||`, `|`. */
    method LogicOperator(c: char) returns (t: TokenType)
      requires Valid() && current == start + 1 && source[start] == c && (c == '&' || c == '|')
      modifies this
      ensures Valid() && start == old(start) && line == old(line) && ScannedOperator(t)
    {
      var eq := Match('=');
      if eq {
        return if c == '&' then AndEqual else OrEqual;
      }
      var twice := Match(c);
      if c == '&' {
        t := if twice then AndAnd else And;
      } else {
        t := if twice then OrOr else Or;
      }
    }

    /** `<=`, `<<=`, `<<`, `<`. */
    method LessOperator() returns (t: TokenType)
      requires Valid() && current == start + 1 && source[start] == '<'
      modifies this
      ensures Valid() && start == old(start) && line == old(line) && ScannedOperator(t)
    {
      var eq := Match('=');
      if eq {
        return LessEqual;
      }
      var shift := Match('<');
      if !shift {
        return Less;
      }
      var assign := Match('=');
      t := if assign then LessLessEqual else LessLess;
    }

    /** `>=`, `>>>`, `>>=`, `>>`, `>`. */
    method GreaterOperator() returns (t: TokenType)
      requires Valid() && current == start + 1 && source[start] == '>'
      modifies this
      ensures Valid() && start == old(start) && line == old(line) && ScannedOperator(t)
    {
      var eq := Match('=');
      if eq {
        return GreaterEqual;
      }
      var shift := Match('>');
      if !shift {
        return Greater;
      }
      var unsigned := Match('>');
      if unsigned {
        return GreaterGreaterGreater;
      }
      var assign := Match('=');
      t := if assign then GreaterGreaterEqual else GreaterGreater;
    }

    /**
     * The operator cases of scanToken, after the first character c: each
     * `match` tries the next character, longest operators first.  None is
     * a character that starts no operator.
     */
    method Punctuation(c: char) returns (t: Value.Maybe<TokenType>)
      requires Valid() && current == start + 1 && source[start] == c
      modifies this
      ensures Valid() && start == old(start) && line == old(line)
      ensures t.Some? ==> ScannedOperator(t.value)
      ensures t.None? ==> current == start + 1 && Single(c).None?
    {
      var u: TokenType;
      if c == '/' || c == '*' || c == '!' || c == '=' || c == '^' || c == ':' {
        u := PairOperator(c);
      } else if c == '-' || c == '+' {
        u := SignOperator(c);
      } else if c == '&' || c == '|' {
        u := LogicOperator(c);
      } else if c == '<' {
        u := LessOperator();
      } else if c == '>' {
        u := GreaterOperator();
      } else {
        return Single(c);
      }
      t := Value.Some(u);
    }

    /** The cases of scanToken after its first character c, which the first character decides. */
    method ScanLexeme(c: char) returns (token: Token)
      requires Valid() && current == start + 1 && source[start] == c
      modifies this
      ensures Valid() && start == old(start) && start < current && old(line) <= line && token.line == line
      ensures token.tokenType == Error ==>
        token.text == UnclosedComment || token.text == UnterminatedString || token.text == UnexpectedCharacter
      ensures token.tokenType != Error ==> token == MakeToken(token.tokenType) && token.tokenType != Eof
      ensures token.tokenType != Error && start < current && Class(source[start]) == WordStart ==>
        Word(token.text) && token.tokenType == IdentifierType(token.text) &&
        (current == |source| || !IsAlnum(source[current]))
      ensures token.tokenType != Error && start < current && Class(source[start]) == DigitStart ==>
        (token.tokenType == Int && IntLexeme(token.text)) || (token.tokenType == Float && FloatLexeme(token.text))
      ensures token.tokenType != Error && start < current && Class(source[start]) == QuoteStart ==>
        token.tokenType == String && StringLexeme(token.text)
      ensures token.tokenType != Error && start < current && Class(source[start]) == DollarStart ==>
        token.tokenType == Insert && token.text == "$EXPR"
      ensures token.tokenType != Error && start < current && Class(source[start]) == SeparatorStart ==>
        token.tokenType == Separator && !AtBlank()
      ensures token.tokenType != Error && start < current && Class(source[start]) == OperatorStart ==>
        OperatorType(token.text) == Value.Some(token.tokenType) && LongestOperator(source, start, current - start)
    {
      if IsAlpha(c) {
        token := ScanIdentifier();
        WordTypes(token.text);
      } else if IsDigit(c) {
        token := Number();
      } else if c == '"' {
        token := ScanString();
      } else if c == '$' {
        token := Dollar();
      } else if c == '\n' || c == ';' {
        token := ScanSeparator(c);
      } else {
        var t := Punctuation(c);
        if t.Some? {
          OperatorTypes(source, start, current - start);
          OperatorAtSlice(source, start, current - start);
          token := MakeToken(t.value);
        } else {
          token := ErrorToken(UnexpectedCharacter);
        }
      }
    }

    /**
     * scanToken: skips blanks and comments, then scans one token.  Every
     * token other than an error carries its lexeme, whose first character
     * decides its kind: a word typed by the keyword trie, a number, a
     * string, the insertion token, a separator or the longest operator.
     * Every token but the end of the source consumes input.
     */
    method ScanToken() returns (token: Token)
      requires Valid()
      modifies this
      ensures Valid() && old(line) <= line && token.line == line
      ensures token.tokenType == Error ==>
        token.text == UnclosedComment || token.text == UnterminatedString || token.text == UnexpectedCharacter
      ensures token.tokenType != Error ==> token == MakeToken(token.tokenType)
      ensures token.tokenType == Eof ==> start == current == |source|
      ensures old(current) == |source| ==> token.tokenType == Eof
      ensures token.tokenType != Eof ==> old(current) < current
      ensures token.tokenType != Error && token.tokenType != Eof ==> start < current
      ensures token.tokenType != Error && start < current && Class(source[start]) == WordStart ==>
        Word(token.text) && token.tokenType == IdentifierType(token.text) &&
        (current == |source| || !IsAlnum(source[current]))
      ensures token.tokenType != Error && start < current && Class(source[start]) == DigitStart ==>
        (token.tokenType == Int && IntLexeme(token.text)) || (token.tokenType == Float && FloatLexeme(token.text))
      ensures token.tokenType != Error && start < current && Class(source[start]) == QuoteStart ==>
        token.tokenType == String && StringLexeme(token.text)
      ensures token.tokenType != Error && start < current && Class(source[start]) == DollarStart ==>
        token.tokenType == Insert && token.text == "$EXPR"
      ensures token.tokenType != Error && start < current && Class(source[start]) == SeparatorStart ==>
        token.tokenType == Separator && !AtBlank()
      ensures token.tokenType != Error && start < current && Class(source[start]) == OperatorStart ==>
        OperatorType(token.text) == Value.Some(token.tokenType) && LongestOperator(source, start, current - start)
    {
      var ok := SkipWhitespace();
      if !ok {
        return ErrorToken(UnclosedComment);
      }
      start := current;
      if IsAtEnd() {
        return MakeToken(Eof);
      }
      var c := Advance();
      token := ScanLexeme(c);
    }
  }
}
