// The C-- grammar of src/grammar/grammar_rules.cpp: the start symbol, the
// productions in the order `init_rules` adds them, each with its semantic
// action, and the token-to-terminal table of `init_token_map`.
//
// The non-terminals of the table are an enumeration whose `Name` is the
// string the source uses, so that reasoning about the table compares
// constructors rather than strings; `Rules` is the table over `Symbol`.
module GrammarRules {
  import opened Common
  import opened Symbols
  import B = AstBuilder
  import Ast
  import Tokens

  datatype Nonterminal =
    | Program
    | CompUnit
    | CompUnitList
    | CompUnitItem
    | Decl
    | ConstDecl
    | ConstDefList
    | BType
    | ConstDef
    | ConstInitVal
    | VarDecl
    | VarDefList
    | VarDef
    | InitVal
    | FuncDef
    | FuncType
    | FuncFParams
    | FuncFParam
    | Block
    | BlockItemList
    | BlockItem
    | Stmt
    | Exp
    | Cond
    | LVal
    | PrimaryExp
    | Number
    | UnaryExp
    | FuncRParamsOpt
    | UnaryOp
    | FuncRParams
    | FuncRParam
    | MulExp
    | AddExp
    | RelExp
    | EqExp
    | LAndExp
    | LOrExp
    | ConstExp
    | IntConst
    | Ident
    | FloatConst

  function Name(n: Nonterminal): string
  {
    match n
    case Program => "Program"
    case CompUnit => "CompUnit"
    case CompUnitList => "CompUnitList"
    case CompUnitItem => "CompUnitItem"
    case Decl => "Decl"
    case ConstDecl => "ConstDecl"
    case ConstDefList => "ConstDefList"
    case BType => "BType"
    case ConstDef => "ConstDef"
    case ConstInitVal => "ConstInitVal"
    case VarDecl => "VarDecl"
    case VarDefList => "VarDefList"
    case VarDef => "VarDef"
    case InitVal => "InitVal"
    case FuncDef => "FuncDef"
    case FuncType => "FuncType"
    case FuncFParams => "FuncFParams"
    case FuncFParam => "FuncFParam"
    case Block => "Block"
    case BlockItemList => "BlockItemList"
    case BlockItem => "BlockItem"
    case Stmt => "Stmt"
    case Exp => "Exp"
    case Cond => "Cond"
    case LVal => "LVal"
    case PrimaryExp => "PrimaryExp"
    case Number => "Number"
    case UnaryExp => "UnaryExp"
    case FuncRParamsOpt => "FuncRParamsOpt"
    case UnaryOp => "UnaryOp"
    case FuncRParams => "FuncRParams"
    case FuncRParam => "FuncRParam"
    case MulExp => "MulExp"
    case AddExp => "AddExp"
    case RelExp => "RelExp"
    case EqExp => "EqExp"
    case LAndExp => "LAndExp"
    case LOrExp => "LOrExp"
    case ConstExp => "ConstExp"
    case IntConst => "IntConst"
    case Ident => "Ident"
    case FloatConst => "FloatConst"
  }

  /** The terminals the productions use. */
  datatype Terminal =
    | LParen
    | RParen
    | LBrace
    | RBrace
    | Comma
    | Semicolon
    | Assign
    | Plus
    | Minus
    | Star
    | Slash
    | Percent
    | Bang
    | Less
    | Greater
    | LessEq
    | GreaterEq
    | EqEq
    | BangEq
    | AndAnd
    | OrOr
    | ConstKw
    | IntKw
    | FloatKw
    | VoidKw
    | IfKw
    | ElseKw
    | ReturnKw
    | FuncIntKw
    | FuncFloatKw
    | IdentTm
    | IdentifierTm
    | LiteralIntTm
    | LiteralFloatTm

  /** The terminal's name in the source's `T(...)`. */
  function TermName(t: Terminal): string
  {
    match t
    case LParen => "("
    case RParen => ")"
    case LBrace => "{"
    case RBrace => "}"
    case Comma => ","
    case Semicolon => ";"
    case Assign => "="
    case Plus => "+"
    case Minus => "-"
    case Star => "*"
    case Slash => "/"
    case Percent => "%"
    case Bang => "!"
    case Less => "<"
    case Greater => ">"
    case LessEq => "<="
    case GreaterEq => ">="
    case EqEq => "=="
    case BangEq => "!="
    case AndAnd => "&&"
    case OrOr => "||"
    case ConstKw => "const"
    case IntKw => "int"
    case FloatKw => "float"
    case VoidKw => "void"
    case IfKw => "if"
    case ElseKw => "else"
    case ReturnKw => "return"
    case FuncIntKw => "func_int"
    case FuncFloatKw => "func_float"
    case IdentTm => "Ident"
    case IdentifierTm => "Identifier"
    case LiteralIntTm => "LiteralInt"
    case LiteralFloatTm => "LiteralFloat"
  }

  /** A body symbol of the table: a non-terminal, a terminal, or `Epsilon()`. */
  datatype TableSymbol = Nt(n: Nonterminal) | Tm(t: Terminal) | EpsSym

  datatype TableRule = ARule(head: Nonterminal, body: seq<TableSymbol>, action: B.Builder)

  datatype Rule = Rule(head: string, body: seq<Symbol>, action: B.Builder)

  /** The number of `add_production` calls in `init_rules`. */
  const RuleCount: nat := 86

  /**
   * Production i of `init_rules`, in the order of the calls, with its
   * semantic action. Stmt -> Block (number 39) and the argument-list
   * append (number 61) are given the builders the rest of the front end
   * needs; TableRuleAsWritten has the source's. The table is split by
   * section of grammar_rules.cpp.
   */
  function TableRuleAt(i: nat): (r: TableRule)
    requires i < RuleCount
  {
    if i < 9 then UnitRules(i)
    else if i < 16 then ConstDeclRules(i)
    else if i < 22 then VarDeclRules(i)
    else if i < 30 then FuncRules(i)
    else if i < 36 then BlockRules(i)
    else if i < 44 then StmtRules(i)
    else if i < 52 then PrimaryRules(i)
    else if i < 57 then UnaryRules(i)
    else if i < 63 then ArgRules(i)
    else if i < 70 then MulAddRules(i)
    else if i < 78 then RelEqRules(i)
    else LogicRules(i)
  }

  /** Productions 0 to 8: the start symbol, the compilation unit and its items, declarations. */
  function UnitRules(i: nat): TableRule
    requires i < 9
  {
    if i == 0 then ARule(Program, [Nt(CompUnit)], B.SingleForward)  // line 11
    else if i == 1 then ARule(CompUnit, [EpsSym], B.ProgramEmpty)  // line 15
    else if i == 2 then ARule(CompUnit, [Nt(CompUnitList)], B.SingleForward)  // line 18
    else if i == 3 then ARule(CompUnitList, [Nt(CompUnitItem)], B.CompUnitListItem)  // line 19
    else if i == 4 then ARule(CompUnitList, [Nt(CompUnitList), Nt(CompUnitItem)], B.CompUnitListAppend)  // line 20
    else if i == 5 then ARule(CompUnitItem, [Nt(Decl)], B.SingleForward)  // line 22
    else if i == 6 then ARule(CompUnitItem, [Nt(FuncDef)], B.SingleForward)  // line 23
    else if i == 7 then ARule(Decl, [Nt(ConstDecl)], B.SingleForward)  // line 27
    else ARule(Decl, [Nt(VarDecl)], B.SingleForward)  // line 29
  }

  /** Productions 9 to 15: constant declarations and types. */
  function ConstDeclRules(i: nat): TableRule
    requires 9 <= i < 16
  {
    if i == 9 then ARule(ConstDecl, [Tm(ConstKw), Nt(BType), Nt(ConstDefList), Tm(Semicolon)], B.ConstDeclB)  // line 33
    else if i == 10 then ARule(ConstDefList, [Nt(ConstDef)], B.DefListItem)  // line 36
    else if i == 11 then ARule(ConstDefList, [Nt(ConstDefList), Tm(Comma), Nt(ConstDef)], B.DefListAppend)  // line 37
    else if i == 12 then ARule(BType, [Tm(IntKw)], B.TypeInt)  // line 42
    else if i == 13 then ARule(BType, [Tm(FloatKw)], B.TypeFloat)  // line 44
    else if i == 14 then ARule(ConstDef, [Tm(IdentTm), Tm(Assign), Nt(ConstInitVal)], B.ConstDef)  // line 48
    else ARule(ConstInitVal, [Nt(ConstExp)], B.SingleForward)  // line 52
  }

  /** Productions 16 to 21: variable declarations. */
  function VarDeclRules(i: nat): TableRule
    requires 16 <= i < 22
  {
    if i == 16 then ARule(VarDecl, [Nt(BType), Nt(VarDefList), Tm(Semicolon)], B.VarDeclB)  // line 56
    else if i == 17 then ARule(VarDefList, [Nt(VarDef)], B.DefListItem)  // line 58
    else if i == 18 then ARule(VarDefList, [Nt(VarDefList), Tm(Comma), Nt(VarDef)], B.DefListAppend)  // line 59
    else if i == 19 then ARule(VarDef, [Tm(IdentTm)], B.VarDefUninit)  // line 63
    else if i == 20 then ARule(VarDef, [Tm(IdentTm), Tm(Assign), Nt(InitVal)], B.VarDefInit)  // line 65
    else ARule(InitVal, [Nt(Exp)], B.SingleForward)  // line 69
  }

  /** Productions 22 to 29: function definitions and their parameters. */
  function FuncRules(i: nat): TableRule
    requires 22 <= i < 30
  {
    if i == 22 then ARule(FuncDef, [Nt(FuncType), Tm(IdentTm), Tm(LParen), Tm(RParen), Nt(Block)], B.FuncDefNoParams)  // line 73
    else if i == 23 then ARule(FuncDef, [Nt(FuncType), Tm(IdentTm), Tm(LParen), Nt(FuncFParams), Tm(RParen), Nt(Block)], B.FuncDefB)  // line 78
    else if i == 24 then ARule(FuncType, [Tm(VoidKw)], B.TypeVoid)  // line 85
    else if i == 25 then ARule(FuncType, [Tm(FuncIntKw)], B.TypeInt)  // line 86
    else if i == 26 then ARule(FuncType, [Tm(FuncFloatKw)], B.TypeFloat)  // line 87
    else if i == 27 then ARule(FuncFParams, [Nt(FuncFParam)], B.FParamsItem)  // line 90
    else if i == 28 then ARule(FuncFParams, [Nt(FuncFParams), Tm(Comma), Nt(FuncFParam)], B.FParamsAppend)  // line 91
    else ARule(FuncFParam, [Nt(BType), Tm(IdentTm)], B.FParam)  // line 95
  }

  /** Productions 30 to 35: blocks and block items. */
  function BlockRules(i: nat): TableRule
    requires 30 <= i < 36
  {
    if i == 30 then ARule(Block, [Tm(LBrace), Tm(RBrace)], B.BlockEmpty)  // line 98
    else if i == 31 then ARule(Block, [Tm(LBrace), Nt(BlockItemList), Tm(RBrace)], B.BlockB)  // line 100
    else if i == 32 then ARule(BlockItemList, [Nt(BlockItem)], B.BlockItemListItem)  // line 103
    else if i == 33 then ARule(BlockItemList, [Nt(BlockItemList), Nt(BlockItem)], B.BlockItemListAppend)  // line 104
    else if i == 34 then ARule(BlockItem, [Nt(Decl)], B.BlockItemDecl)  // line 108
    else ARule(BlockItem, [Nt(Stmt)], B.BlockItemStmt)  // line 110
  }

  /** Productions 36 to 43: statements. */
  function StmtRules(i: nat): TableRule
    requires 36 <= i < 44
  {
    if i == 36 then ARule(Stmt, [Nt(LVal), Tm(Assign), Nt(Exp), Tm(Semicolon)], B.StmtAssign)  // line 114
    else if i == 37 then ARule(Stmt, [Nt(Exp), Tm(Semicolon)], B.StmtExp)  // line 116
    else if i == 38 then ARule(Stmt, [Tm(Semicolon)], B.StmtEmpty)  // line 118
    else if i == 39 then ARule(Stmt, [Nt(Block)], B.BlockAsStmt)  // line 120
    else if i == 40 then ARule(Stmt, [Tm(IfKw), Tm(LParen), Nt(Cond), Tm(RParen), Nt(Stmt)], B.StmtIf)  // line 122
    else if i == 41 then ARule(Stmt, [Tm(IfKw), Tm(LParen), Nt(Cond), Tm(RParen), Nt(Stmt), Tm(ElseKw), Nt(Stmt)], B.StmtIfElse)  // line 125
    else if i == 42 then ARule(Stmt, [Tm(ReturnKw), Nt(Exp), Tm(Semicolon)], B.StmtReturn)  // line 129
    else ARule(Stmt, [Tm(ReturnKw), Tm(Semicolon)], B.StmtReturnVoid)  // line 131
  }

  /** Productions 44 to 51: expressions, conditions, l-values, primary expressions and numbers. */
  function PrimaryRules(i: nat): TableRule
    requires 44 <= i < 52
  {
    if i == 44 then ARule(Exp, [Nt(LOrExp)], B.SingleForward)  // line 136
    else if i == 45 then ARule(Cond, [Nt(LOrExp)], B.SingleForward)  // line 140
    else if i == 46 then ARule(LVal, [Tm(IdentTm)], B.LvalIdent)  // line 145
    else if i == 47 then ARule(PrimaryExp, [Tm(LParen), Nt(Exp), Tm(RParen)], B.ParenForward)  // line 149
    else if i == 48 then ARule(PrimaryExp, [Nt(LVal)], B.ExpLval)  // line 153
    else if i == 49 then ARule(PrimaryExp, [Nt(Number)], B.SingleForward)  // line 155
    else if i == 50 then ARule(Number, [Nt(IntConst)], B.ExpInt)  // line 159
    else ARule(Number, [Nt(FloatConst)], B.ExpFloat)  // line 161
  }

  /** Productions 52 to 56: unary expressions, calls and optional arguments. */
  function UnaryRules(i: nat): TableRule
    requires 52 <= i < 57
  {
    if i == 52 then ARule(UnaryExp, [Nt(PrimaryExp)], B.SingleForward)  // line 165
    else if i == 53 then ARule(UnaryExp, [Tm(IdentTm), Tm(LParen), Nt(FuncRParamsOpt), Tm(RParen)], B.ExpCall)  // line 170
    else if i == 54 then ARule(UnaryExp, [Nt(UnaryOp), Nt(UnaryExp)], B.UnaryExpB)  // line 176
    else if i == 55 then ARule(FuncRParamsOpt, [EpsSym], B.NoValue)  // line 180
    else ARule(FuncRParamsOpt, [Nt(FuncRParams)], B.SingleForward)  // line 182
  }

  /** Productions 57 to 62: unary operators and real parameters. */
  function ArgRules(i: nat): TableRule
    requires 57 <= i < 63
  {
    if i == 57 then ARule(UnaryOp, [Tm(Plus)], B.UnaryPositive)  // line 185
    else if i == 58 then ARule(UnaryOp, [Tm(Minus)], B.UnaryNegative)  // line 186
    else if i == 59 then ARule(UnaryOp, [Tm(Bang)], B.UnaryNot)  // line 187
    else if i == 60 then ARule(FuncRParams, [Nt(FuncRParam)], B.RParamsItem)  // line 190
    else if i == 61 then ARule(FuncRParams, [Nt(FuncRParams), Tm(Comma), Nt(FuncRParam)], B.RParamsAppendArg)  // line 191
    else ARule(FuncRParam, [Nt(Exp)], B.SingleForward)  // line 196
  }

  /** Productions 63 to 69: multiplicative and additive expressions. */
  function MulAddRules(i: nat): TableRule
    requires 63 <= i < 70
  {
    if i == 63 then ARule(MulExp, [Nt(UnaryExp)], B.SingleForward)  // line 202
    else if i == 64 then ARule(MulExp, [Nt(MulExp), Tm(Star), Nt(UnaryExp)], B.Binary(Ast.Mul))  // line 204
    else if i == 65 then ARule(MulExp, [Nt(MulExp), Tm(Slash), Nt(UnaryExp)], B.Binary(Ast.Div))  // line 206
    else if i == 66 then ARule(MulExp, [Nt(MulExp), Tm(Percent), Nt(UnaryExp)], B.Binary(Ast.Mod))  // line 208
    else if i == 67 then ARule(AddExp, [Nt(MulExp)], B.SingleForward)  // line 212
    else if i == 68 then ARule(AddExp, [Nt(AddExp), Tm(Plus), Nt(MulExp)], B.Binary(Ast.Add))  // line 214
    else ARule(AddExp, [Nt(AddExp), Tm(Minus), Nt(MulExp)], B.Binary(Ast.Sub))  // line 216
  }

  /** Productions 70 to 77: relational and equality expressions. */
  function RelEqRules(i: nat): TableRule
    requires 70 <= i < 78
  {
    if i == 70 then ARule(RelExp, [Nt(AddExp)], B.SingleForward)  // line 221
    else if i == 71 then ARule(RelExp, [Nt(RelExp), Tm(Less), Nt(AddExp)], B.Binary(Ast.Lt))  // line 223
    else if i == 72 then ARule(RelExp, [Nt(RelExp), Tm(Greater), Nt(AddExp)], B.Binary(Ast.Gt))  // line 225
    else if i == 73 then ARule(RelExp, [Nt(RelExp), Tm(LessEq), Nt(AddExp)], B.Binary(Ast.Le))  // line 227
    else if i == 74 then ARule(RelExp, [Nt(RelExp), Tm(GreaterEq), Nt(AddExp)], B.Binary(Ast.Ge))  // line 229
    else if i == 75 then ARule(EqExp, [Nt(RelExp)], B.SingleForward)  // line 234
    else if i == 76 then ARule(EqExp, [Nt(EqExp), Tm(EqEq), Nt(RelExp)], B.Binary(Ast.Eq))  // line 236
    else ARule(EqExp, [Nt(EqExp), Tm(BangEq), Nt(RelExp)], B.Binary(Ast.Neq))  // line 238
  }

  /** Productions 78 to 85: logical expressions, constant expressions and the lexical non-terminals. */
  function LogicRules(i: nat): TableRule
    requires 78 <= i < RuleCount
  {
    if i == 78 then ARule(LAndExp, [Nt(EqExp)], B.SingleForward)  // line 243
    else if i == 79 then ARule(LAndExp, [Nt(LAndExp), Tm(AndAnd), Nt(EqExp)], B.Binary(Ast.And))  // line 245
    else if i == 80 then ARule(LOrExp, [Nt(LAndExp)], B.SingleForward)  // line 250
    else if i == 81 then ARule(LOrExp, [Nt(LOrExp), Tm(OrOr), Nt(LAndExp)], B.Binary(Ast.Or))  // line 252
    else if i == 82 then ARule(ConstExp, [Nt(AddExp)], B.SingleForward)  // line 256
    else if i == 83 then ARule(IntConst, [Tm(LiteralIntTm)], B.SingleForward)  // line 261
    else if i == 84 then ARule(Ident, [Tm(IdentifierTm)], B.SingleForward)  // line 263
    else ARule(FloatConst, [Tm(LiteralFloatTm)], B.SingleForward)  // line 265
  }

  /** The index of Stmt -> Block. */
  const StmtBlock: nat := 39

  /** The index of FuncRParams -> FuncRParams , FuncRParam. */
  const ArgAppend: nat := 61

  /**
   * Production i exactly as the source writes it: Stmt -> Block forwards the
   * block unchanged, and the argument list is extended with the list builder.
   */
  function TableRuleAsWritten(i: nat): TableRule
    requires i < RuleCount
  {
    if i == StmtBlock then ARule(Stmt, [Nt(Block)], B.SingleForward)
    else if i == ArgAppend then ARule(FuncRParams, [Nt(FuncRParams), Tm(Comma), Nt(FuncRParam)], B.RParamsAppend)
    else TableRuleAt(i)
  }

  function ToSymbol(s: TableSymbol): (r: Symbol)
  {
    match s
    case Nt(n) => NT(Name(n))
    case Tm(x) => T(TermName(x))
    case EpsSym => Eps()
  }

  function ToRule(r: TableRule): (c: Rule)
  {
    Rule(Name(r.head), seq(|r.body|, j requires 0 <= j < |r.body| => ToSymbol(r.body[j])), r.action)
  }

  /** `start_symbol_ = NT("Program")`. */
  const Start: Symbol := NT("Program")

  /** The productions over grammar symbols, in order. */
  const Rules: seq<Rule> := seq(RuleCount, i requires 0 <= i < RuleCount => ToRule(TableRuleAt(i)))

  /** The terminal and category init_token_map gives a token type, if any. */
  function TerminalFor(ty: Tokens.TokenType): Option<(Tokens.TokenCategory, Symbol)>
  {
    match ty
    case KwInt => Some((Tokens.TokenCategory.Keyword, T("int")))
    case KwVoid => Some((Tokens.TokenCategory.Keyword, T("void")))
    case KwReturn => Some((Tokens.TokenCategory.Keyword, T("return")))
    case KwMain => Some((Tokens.TokenCategory.Keyword, T("Ident")))
    case KwFloat => Some((Tokens.TokenCategory.Keyword, T("float")))
    case KwIf => Some((Tokens.TokenCategory.Keyword, T("if")))
    case KwElse => Some((Tokens.TokenCategory.Keyword, T("else")))
    case KwConst => Some((Tokens.TokenCategory.Keyword, T("const")))
    case OpEqual => Some((Tokens.TokenCategory.Operator, T("==")))
    case OpLessEqual => Some((Tokens.TokenCategory.Operator, T("<=")))
    case OpGreaterEqual => Some((Tokens.TokenCategory.Operator, T(">=")))
    case OpNotEqual => Some((Tokens.TokenCategory.Operator, T("!=")))
    case OpAnd => Some((Tokens.TokenCategory.Operator, T("&&")))
    case OpOr => Some((Tokens.TokenCategory.Operator, T("||")))
    case OpPlus => Some((Tokens.TokenCategory.Operator, T("+")))
    case OpMinus => Some((Tokens.TokenCategory.Operator, T("-")))
    case OpMultiply => Some((Tokens.TokenCategory.Operator, T("*")))
    case OpDivide => Some((Tokens.TokenCategory.Operator, T("/")))
    case OpMod => Some((Tokens.TokenCategory.Operator, T("%")))
    case OpAssign => Some((Tokens.TokenCategory.Operator, T("=")))
    case OpGreater => Some((Tokens.TokenCategory.Operator, T(">")))
    case OpLess => Some((Tokens.TokenCategory.Operator, T("<")))
    case SepLParen => Some((Tokens.TokenCategory.Separators, T("(")))
    case SepRParen => Some((Tokens.TokenCategory.Separators, T(")")))
    case SepLBrace => Some((Tokens.TokenCategory.Separators, T("{")))
    case SepRBrace => Some((Tokens.TokenCategory.Separators, T("}")))
    case SepComma => Some((Tokens.TokenCategory.Separators, T(",")))
    case SepSemicolon => Some((Tokens.TokenCategory.Separators, T(";")))
    case LiteralInt => Some((Tokens.TokenCategory.IntLiteral, T("LiteralInt")))
    case LiteralFloat => Some((Tokens.TokenCategory.FloatLiteral, T("LiteralFloat")))
    case Identifier => Some((Tokens.TokenCategory.Identifier, T("Ident")))
    case EndOfFile => Some((Tokens.TokenCategory.End, EndMark()))
    case KwIntFunc => Some((Tokens.TokenCategory.FuncDef, T("func_int")))
    case KwFloatFunc => Some((Tokens.TokenCategory.FuncDef, T("func_float")))
    case _ => None
  }

  /** The (token type, token category) keys init_token_map writes. */
  const TokenKeys: set<(Tokens.TokenType, Tokens.TokenCategory)> :=
    set ty: Tokens.TokenType | TerminalFor(ty).Some? :: (ty, TerminalFor(ty).value.0)

  /** init_token_map: `token_to_terminal_`, keyed by (token type, token category). */
  const TokenMap: map<(Tokens.TokenType, Tokens.TokenCategory), Symbol> :=
    map k | k in TokenKeys :: TerminalFor(k.0).value.1

  /** Only identifiers and `main` are read as the terminal Ident. */
  lemma IdentTypes(ty: Tokens.TokenType)
    requires TerminalFor(ty).Some? && TerminalFor(ty).value.1 == T(TermName(IdentTm))
    ensures ty.Identifier? || ty.KwMain?
  {
    var name := TerminalFor(ty).value.1.name;
    assert |name| == 5 && name[0] == 'I';
  }

  /** Only integer literals are read as the terminal LiteralInt. */
  lemma LiteralIntType(ty: Tokens.TokenType)
    requires TerminalFor(ty).Some? && TerminalFor(ty).value.1 == T(TermName(LiteralIntTm))
    ensures ty == Tokens.LiteralInt
  {
    var name := TerminalFor(ty).value.1.name;
    assert |name| == 10 && name[0] == 'L';
  }

  /** Only float literals are read as the terminal LiteralFloat. */
  lemma LiteralFloatType(ty: Tokens.TokenType)
    requires TerminalFor(ty).Some? && TerminalFor(ty).value.1 == T(TermName(LiteralFloatTm))
    ensures ty == Tokens.LiteralFloat
  {
    var name := TerminalFor(ty).value.1.name;
    assert |name| == 12 && name[0] == 'L';
  }

  /** A key is present exactly when its type is listed with that very category, and maps to the listed terminal. */
  lemma TokenMapKeys(ty: Tokens.TokenType, c: Tokens.TokenCategory)
    ensures (ty, c) in TokenMap <==> TerminalFor(ty).Some? && TerminalFor(ty).value.0 == c
    ensures (ty, c) in TokenMap ==> TokenMap[(ty, c)] == TerminalFor(ty).value.1
  {
    if (ty, c) in TokenKeys {
      var w :| TerminalFor(w).Some? && (w, TerminalFor(w).value.0) == (ty, c);
    }
    if TerminalFor(ty).Some? && TerminalFor(ty).value.0 == c {
      assert (ty, c) in TokenKeys;
    }
  }

  /** Each token type is mapped under at most one category. */
  lemma OneCategoryPerType(ty: Tokens.TokenType, c1: Tokens.TokenCategory, c2: Tokens.TokenCategory)
    requires (ty, c1) in TokenMap && (ty, c2) in TokenMap
    ensures c1 == c2
  {
    TokenMapKeys(ty, c1);
    TokenMapKeys(ty, c2);
  }

  /** Invalid and spacer tokens have no terminal: they can never be shifted. */
  lemma UnmappedTypes(c: Tokens.TokenCategory)
    ensures (Tokens.TokenType.Invalid, c) !in TokenMap
    ensures (Tokens.TokenType.Spacer, c) !in TokenMap
  {
    assert TerminalFor(Tokens.TokenType.Invalid).None? && TerminalFor(Tokens.TokenType.Spacer).None?;
    TokenMapKeys(Tokens.TokenType.Invalid, c);
    TokenMapKeys(Tokens.TokenType.Spacer, c);
  }

  /** Identifiers and the `main` keyword are both read as the terminal Ident; end of file is the end marker. */
  lemma IdentifierTerminals()
    ensures var k := (Tokens.TokenType.Identifier, Tokens.TokenCategory.Identifier); k in TokenMap && TokenMap[k] == T("Ident")
    ensures var k := (Tokens.KwMain, Tokens.Keyword); k in TokenMap && TokenMap[k] == T("Ident")
    ensures var k := (Tokens.EndOfFile, Tokens.TokenCategory.End); k in TokenMap && TokenMap[k] == EndMark()
  {
    assert TerminalFor(Tokens.TokenType.Identifier) == Some((Tokens.TokenCategory.Identifier, T("Ident")));
    assert TerminalFor(Tokens.KwMain) == Some((Tokens.Keyword, T("Ident")));
    assert TerminalFor(Tokens.EndOfFile) == Some((Tokens.TokenCategory.End, EndMark()));
    TokenMapKeys(Tokens.TokenType.Identifier, Tokens.TokenCategory.Identifier);
    TokenMapKeys(Tokens.KwMain, Tokens.Keyword);
    TokenMapKeys(Tokens.EndOfFile, Tokens.TokenCategory.End);
  }

  /** The first production is the one for the start symbol. */
  lemma StartProduction()
    ensures |Rules| == RuleCount && NT(Rules[0].head) == Start
    ensures Rules[0].body == [NT("CompUnit")]
  {
    assert Rules[0] == ToRule(TableRuleAt(0));
  }

  /** The table as written differs from TableRuleAt only in the actions of productions 39 and 61. */
  lemma AsWrittenDiffers(i: nat)
    requires i < RuleCount
    ensures TableRuleAsWritten(i).head == TableRuleAt(i).head
    ensures TableRuleAsWritten(i).body == TableRuleAt(i).body
    ensures TableRuleAsWritten(i).action != TableRuleAt(i).action <==> i == StmtBlock || i == ArgAppend
  {
  }
}
