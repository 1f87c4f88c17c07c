// The token vocabulary shared by the lexer, the grammar's terminal table,
// the parsers and the AST builders. The files of the front end come from
// different revisions that spell some names differently (include/token.h
// has `SeLParen` and `Seperator`, the grammar and parser use `SepLParen`
// and `Separators`, and only the later revision has `KwConst`, `Spacer`,
// `KwIntFunc`, `KwFloatFunc` and `FuncDef`); this is the union of the
// names, spelled as the grammar and parser spell them.
module Tokens {

  datatype TokenType =
    | KwInt | KwVoid | KwReturn | KwMain | KwFloat | KwIf | KwElse | KwConst
    | KwIntFunc | KwFloatFunc
    | OpEqual | OpLessEqual | OpGreaterEqual | OpNotEqual | OpAnd | OpOr
    | OpPlus | OpMinus | OpMultiply | OpDivide | OpMod | OpAssign | OpGreater | OpLess
    | SepLParen | SepRParen | SepLBrace | SepRBrace | SepComma | SepSemicolon
    | LiteralInt | LiteralFloat
    | Identifier
    | EndOfFile
    | Invalid
    | Spacer

  datatype TokenCategory =
    | Keyword | Operator | Separators | Identifier | IntLiteral | FloatLiteral
    | End | Invalid | Spacer | FuncDef

  /** A source position; both count from 1. */
  datatype Location = Location(line: int, column: int)

  /** A token as the lexer emits it; the defaults are Invalid/Invalid at (1, 1) with no text. */
  datatype Token = Token(ty: TokenType, category: TokenCategory, loc: Location, lexeme: string)
}
