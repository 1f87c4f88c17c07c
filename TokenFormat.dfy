// The golden-output line of one token, as the lexer's format test writes
// it: the lexeme, a tab, and between angle brackets the token's class with
// its number (keywords, operators, separators) or with its text
// (identifiers and literals). The end-of-file token writes nothing.
module TokenFormat {
  import opened Common
  import opened Tokens
  import Decimal

  /**
   * What goes between the angle brackets: a class and a number, a class and
   * the token's text, or UNKNOWN.
   */
  datatype Code = Numbered(cls: string, n: nat) | Tagged(cls: string, text: string) | Unknown

  /** The text of a code: class, comma, number or text. */
  function Render(c: Code): string {
    match c
    case Numbered(cls, n) => cls + "," + Decimal.NatToString(n)
    case Tagged(cls, text) => cls + "," + text
    case Unknown => "UNKNOWN"
  }

  /** The switch of format_token_for_output; None for EndOfFile, which writes nothing. */
  function CodeOf(t: Token): Option<Code> {
    match t.ty
    case KwInt => Some(Numbered("KW", 1))
    case KwVoid => Some(Numbered("KW", 2))
    case KwReturn => Some(Numbered("KW", 3))
    case KwConst => Some(Numbered("KW", 4))
    case KwMain => Some(Numbered("KW", 5))
    case KwFloat => Some(Numbered("KW", 6))
    case KwIf => Some(Numbered("KW", 7))
    case KwElse => Some(Numbered("KW", 8))
    case OpPlus => Some(Numbered("OP", 6))
    case OpMinus => Some(Numbered("OP", 7))
    case OpMultiply => Some(Numbered("OP", 8))
    case OpDivide => Some(Numbered("OP", 9))
    case OpMod => Some(Numbered("OP", 10))
    case OpAssign => Some(Numbered("OP", 11))
    case OpGreater => Some(Numbered("OP", 12))
    case OpLess => Some(Numbered("OP", 13))
    case OpEqual => Some(Numbered("OP", 14))
    case OpLessEqual => Some(Numbered("OP", 15))
    case OpGreaterEqual => Some(Numbered("OP", 16))
    case OpNotEqual => Some(Numbered("OP", 17))
    case OpAnd => Some(Numbered("OP", 18))
    case OpOr => Some(Numbered("OP", 19))
    case SepLParen => Some(Numbered("SE", 20))
    case SepRParen => Some(Numbered("SE", 21))
    case SepLBrace => Some(Numbered("SE", 22))
    case SepRBrace => Some(Numbered("SE", 23))
    case SepSemicolon => Some(Numbered("SE", 24))
    case SepComma => Some(Numbered("SE", 25))
    case Identifier => Some(Tagged("IDN", t.lexeme))
    case LiteralInt => Some(Tagged("INT", t.lexeme))
    case LiteralFloat => Some(Tagged("FLOAT", t.lexeme))
    case EndOfFile => None
    case _ => Some(Unknown)
  }

  /**
   * format_token_for_output: the empty string exactly for the end-of-file
   * token; otherwise a line that starts with the lexeme, continues with a
   * tab and '<', and ends with '>'.
   */
  function FormatToken(t: Token): (r: string)
    ensures r == [] <==> t.ty == EndOfFile
    ensures r != [] ==>
      |r| >= |t.lexeme| + 3 && r[..|t.lexeme|] == t.lexeme
      && r[|t.lexeme|] == '\t' && r[|t.lexeme| + 1] == '<' && r[|r| - 1] == '>'
  {
    match CodeOf(t)
    case None => []
    case Some(c) => t.lexeme + "\t<" + Render(c) + ">"
  }

  // ------------------------------------------------------- the numbering

  /** The keywords in the order of their numbers 1..8. */
  const Keywords: seq<TokenType> := [KwInt, KwVoid, KwReturn, KwConst, KwMain, KwFloat, KwIf, KwElse]

  /** The operators in the order of their numbers 6..19. */
  const Operators: seq<TokenType> :=
    [OpPlus, OpMinus, OpMultiply, OpDivide, OpMod, OpAssign, OpGreater, OpLess,
     OpEqual, OpLessEqual, OpGreaterEqual, OpNotEqual, OpAnd, OpOr]

  /** The separators in the order of their numbers 20..25. */
  const Separators: seq<TokenType> := [SepLParen, SepRParen, SepLBrace, SepRBrace, SepSemicolon, SepComma]

  /** The classes written with the token's own text instead of a number. */
  predicate Textual(ty: TokenType) {
    ty == TokenType.Identifier || ty == LiteralInt || ty == LiteralFloat
  }

  /**
   * The types the switch lists: all but EndOfFile and the four that fall to
   * its default branch.
   */
  predicate Listed(ty: TokenType) {
    !(ty.EndOfFile? || ty.KwIntFunc? || ty.KwFloatFunc? || ty.Invalid? || ty.Spacer?)
  }

  /** The token type a code names, read from the three numbered tables and the textual classes. */
  function TypeOf(c: Code): Option<TokenType> {
    match c
    case Numbered(cls, n) =>
      if cls == "KW" && 1 <= n < 1 + |Keywords| then Some(Keywords[n - 1])
      else if cls == "OP" && 6 <= n < 6 + |Operators| then Some(Operators[n - 6])
      else if cls == "SE" && 20 <= n < 20 + |Separators| then Some(Separators[n - 20])
      else None
    case Tagged(cls, _) =>
      if cls == "IDN" then Some(TokenType.Identifier)
      else if cls == "INT" then Some(LiteralInt)
      else if cls == "FLOAT" then Some(LiteralFloat)
      else None
    case Unknown => None
  }

  /**
   * Keyword i (counting from 0) is numbered "KW" i + 1, operator i "OP"
   * i + 6 and separator i "SE" i + 20.
   */
  lemma KeywordNumbers(t: Token, i: nat)
    requires i < |Keywords| && t.ty == Keywords[i]
    ensures CodeOf(t) == Some(Numbered("KW", i + 1))
  {
  }

  lemma OperatorNumbers(t: Token, i: nat)
    requires i < |Operators| && t.ty == Operators[i]
    ensures CodeOf(t) == Some(Numbered("OP", i + 6))
  {
  }

  lemma SeparatorNumbers(t: Token, i: nat)
    requires i < |Separators| && t.ty == Separators[i]
    ensures CodeOf(t) == Some(Numbered("SE", i + 20))
  {
  }

  /** The code of every listed token names its type back; the textual ones carry its lexeme. */
  lemma CodeNamesType(t: Token)
    requires Listed(t.ty)
    ensures CodeOf(t).Some? && TypeOf(CodeOf(t).value) == Some(t.ty)
  {
  }

  /** Every code the switch writes is well formed, and a tagged one carries the lexeme. */
  lemma CodeWellFormed(t: Token)
    requires t.ty != EndOfFile
    ensures CodeOf(t).Some? && WellFormed(CodeOf(t).value)
    ensures CodeOf(t).value.Tagged? ==> CodeOf(t).value.text == t.lexeme
  {
  }

  /** Every type outside the switch's cases (and not EndOfFile) is written UNKNOWN, and only those. */
  lemma UnknownExactly(t: Token)
    ensures CodeOf(t) == Some(Unknown) <==> !Listed(t.ty) && t.ty != EndOfFile
  {
  }

  // ------------------------------------------------------- reading back

  /** The first position of c in s, or |s|. */
  function FirstIndex(s: string, c: char): (r: nat)
    ensures r <= |s| && (r < |s| ==> s[r] == c)
    ensures forall j :: 0 <= j < r ==> s[j] != c
  {
    if s == [] then 0
    else if s[0] == c then 0
    else 1 + FirstIndex(s[1..], c)
  }

  lemma FirstIndexAt(s: string, c: char, k: nat)
    requires k < |s| && s[k] == c && forall j :: 0 <= j < k ==> s[j] != c
    ensures FirstIndex(s, c) == k
  {
  }

  /** Reads a code back from its text: the class before the first comma, then digits or text. */
  function DecodeCode(s: string): Option<Code> {
    var i := FirstIndex(s, ',');
    if i == |s| then (if s == "UNKNOWN" then Some(Unknown) else None)
    else
      var cls := s[..i];
      var rest := s[i + 1..];
      if cls == "IDN" || cls == "INT" || cls == "FLOAT" then Some(Tagged(cls, rest))
      else if rest != [] && Decimal.AllDigits(rest) && Decimal.NatToString(Decimal.DigitsValue(rest)) == rest then
        Some(Numbered(cls, Decimal.DigitsValue(rest)))
      else None
  }

  /** The shape of every code the switch writes: a class without a comma, tagged exactly for IDN, INT and FLOAT. */
  predicate WellFormed(c: Code) {
    (!c.Unknown? ==> ',' !in c.cls)
    && (c.Tagged? <==> !c.Unknown? && (c.cls == "IDN" || c.cls == "INT" || c.cls == "FLOAT"))
  }

  /** A well-formed code reads back from its text. */
  lemma RenderDecodes(c: Code)
    requires WellFormed(c)
    ensures DecodeCode(Render(c)) == Some(c)
  {
    var s := Render(c);
    if !c.Unknown? {
      FirstIndexAt(s, ',', |c.cls|);
      assert s[..|c.cls|] == c.cls;
      if c.Numbered? {
        assert s[|c.cls| + 1..] == Decimal.NatToString(c.n);
        Decimal.DigitsRoundTrip(c.n);
      } else {
        assert s[|c.cls| + 1..] == c.text;
      }
    }
  }

  /** Splits a line at its first tab into the lexeme and the code between '<' and '>', when it has that shape. */
  function SplitLine(line: string): Option<(string, string)> {
    var i := FirstIndex(line, '\t');
    if i + 3 > |line| || line[i + 1] != '<' || line[|line| - 1] != '>' then None
    else Some((line[..i], line[i + 2..|line| - 1]))
  }

  /** A tab-free lexeme and any code split back out of the line they form. */
  lemma SplitFormatted(lexeme: string, code: string)
    requires '\t' !in lexeme
    ensures SplitLine(lexeme + "\t<" + code + ">") == Some((lexeme, code))
  {
    var line := lexeme + "\t<" + code + ">";
    FirstIndexAt(line, '\t', |lexeme|);
    assert line[..|lexeme|] == lexeme;
    assert line[|lexeme| + 2..|line| - 1] == code;
  }

  /** Reads a formatted line back into its lexeme and token type, when the line has the expected shape. */
  function ParseLine(line: string): Option<(string, TokenType)> {
    match SplitLine(line)
    case None => None
    case Some((lexeme, code)) =>
      match DecodeCode(code)
      case None => None
      case Some(c) =>
        match TypeOf(c)
        case None => None
        case Some(ty) => if c.Tagged? && c.text != lexeme then None else Some((lexeme, ty))
  }

  /**
   * The line of a listed token whose lexeme holds no tab reads back as that
   * token's lexeme and type: the golden files identify the tokens.
   */
  lemma FormatRoundTrip(t: Token)
    requires Listed(t.ty) && '\t' !in t.lexeme
    ensures ParseLine(FormatToken(t)) == Some((t.lexeme, t.ty))
  {
    CodeNamesType(t);
    CodeWellFormed(t);
    var c := CodeOf(t).value;
    assert FormatToken(t) == t.lexeme + "\t<" + Render(c) + ">";
    RenderDecodes(c);
    SplitFormatted(t.lexeme, Render(c));
  }

  /** Two listed tokens with tab-free lexemes print the same line only when they have the same type and lexeme. */
  lemma FormatInjective(t1: Token, t2: Token)
    requires Listed(t1.ty) && '\t' !in t1.lexeme && Listed(t2.ty) && '\t' !in t2.lexeme
    ensures FormatToken(t1) == FormatToken(t2) ==> t1.ty == t2.ty && t1.lexeme == t2.lexeme
  {
    FormatRoundTrip(t1);
    FormatRoundTrip(t2);
  }
}
