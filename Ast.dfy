// The abstract syntax tree of include/ast/ast.h and the token-to-value
// mapping of src/ast/ast.cpp. Owning pointers become values; a null
// expression pointer is the `Null` expression, a null else branch `None`.
module Ast {
  import opened Common
  import Tokens
  import Decimal

  datatype BasicType = Int | Void | Float

  datatype UnaryOp = Positive | Negative | LogicalNot

  datatype BasicOp = Add | Sub | Mul | Div | Mod | Lt | Gt | Le | Ge | Eq | Neq | And | Or

  /** A float literal keeps its lexeme: float conversion is not part of this model. */
  datatype Expr =
    | LiteralInt(value: int)
    | LiteralFloat(text: string)
    | IdentifierExpr(name: string)
    | UnaryExpr(op: UnaryOp, operand: Expr)
    | BinaryExpr(bop: BasicOp, lhs: Expr, rhs: Expr)
    | CallExpr(callee: string, args: seq<Expr>)
    | Null

  datatype VarInit = VarInit(name: string, value: Expr)

  datatype Decl = VarDecl(isConst: bool, ty: BasicType, items: seq<VarInit>)

  datatype Stmt =
    | EmptyStmt
    | ExprStmt(expr: Expr)
    | AssignStmt(target: string, expr: Expr)
    | ReturnStmt(value: Expr)
    | IfStmt(condition: Expr, thenBranch: Stmt, elseBranch: Option<Stmt>)
    | BlockStmt(items: seq<BlockItem>)

  /** `BlockItem::make_decl` / `BlockItem::make_stmt`. */
  datatype BlockItem = DeclItem(decl: Decl) | StmtItem(stmt: Stmt)

  datatype Param = Param(ty: BasicType, name: string)

  datatype FuncDef = FuncDef(ty: BasicType, name: string, params: seq<Param>, body: seq<BlockItem>)

  datatype Program = Program(globals: seq<Decl>, functions: seq<FuncDef>)

  /** The alternatives of the `SemVal` variant, in declaration order. */
  datatype SemVal =
    | Mono
    | Str(s: string)
    | IntV(i: int)
    | FloatV(text: string)
    | TypeV(ty: BasicType)
    | OpV(op: UnaryOp)
    | ItemV(item: BlockItem)
    | InitsV(inits: seq<VarInit>)
    | ParamsV(params: seq<Param>)
    | ExprV(expr: Expr)
    | StmtV(stmt: Stmt)
    | DeclV(decl: Decl)
    | BlockV(block: seq<BlockItem>)
    | FuncV(func: FuncDef)
    | ProgV(prog: Program)

  /**
   * make_semantic: the type keywords give their basic type, identifiers and
   * `main` their lexeme, integer literals their `stoi` value (failing as
   * `stoi` does), float literals their text; every other token carries no
   * value.
   */
  function MakeSemantic(tok: Tokens.Token): (r: Result<SemVal>)
    ensures r.Err? <==> tok.ty == Tokens.LiteralInt && !Decimal.Stoi(tok.lexeme).Parsed?
    ensures r.Ok? && r.value.TypeV? <==>
      tok.ty.KwInt? || tok.ty.KwIntFunc? || tok.ty.KwFloat? || tok.ty.KwFloatFunc? || tok.ty.KwVoid?
    ensures r.Ok? && r.value.Str? <==> (tok.ty.Identifier? || tok.ty.KwMain?)
    ensures r.Ok? && r.value.Str? ==> r.value.s == tok.lexeme
    ensures r.Ok? && r.value.IntV? ==> Decimal.Stoi(tok.lexeme) == Decimal.Parsed(r.value.i)
  {
    match tok.ty
    case KwInt => Ok(TypeV(Int))
    case KwFloat => Ok(TypeV(Float))
    case KwVoid => Ok(TypeV(Void))
    case LiteralInt =>
      (match Decimal.Stoi(tok.lexeme)
       case Parsed(v) => Ok(IntV(v))
       case InvalidArgument => Err("stoi: invalid_argument")
       case OutOfRange => Err("stoi: out_of_range"))
    case LiteralFloat => Ok(FloatV(tok.lexeme))
    case Identifier => Ok(Str(tok.lexeme))
    case KwIntFunc => Ok(TypeV(Int))
    case KwFloatFunc => Ok(TypeV(Float))
    case KwMain => Ok(Str(tok.lexeme))
    case _ => Ok(Mono)
  }

  /** An integer literal token whose lexeme is the decimal text of an `int` carries that `int`. */
  lemma IntLiteralValue(i: int, cat: Tokens.TokenCategory, loc: Tokens.Location)
    requires IsInt32(i)
    ensures MakeSemantic(Tokens.Token(Tokens.LiteralInt, cat, loc, Decimal.IntToString(i))) == Ok(IntV(i))
  {
    var tok := Tokens.Token(Tokens.LiteralInt, cat, loc, Decimal.IntToString(i));
    Decimal.StoiRoundTrip(i);
    LiteralIntSemantic(tok, i);
  }

  /** An integer literal token whose lexeme `stoi` reads as v carries v. */
  lemma LiteralIntSemantic(tok: Tokens.Token, v: int)
    requires tok.ty == Tokens.LiteralInt && Decimal.Stoi(tok.lexeme) == Decimal.Parsed(v)
    ensures MakeSemantic(tok) == Ok(IntV(v))
  {
  }

  /** The type keywords: `int` and `func_int` give Int, `float` and `func_float` give Float, `void` gives Void. */
  lemma KeywordTypes(tok: Tokens.Token)
    ensures tok.ty.KwInt? || tok.ty.KwIntFunc? ==> MakeSemantic(tok) == Ok(TypeV(Int))
    ensures tok.ty.KwFloat? || tok.ty.KwFloatFunc? ==> MakeSemantic(tok) == Ok(TypeV(Float))
    ensures tok.ty == Tokens.KwVoid ==> MakeSemantic(tok) == Ok(TypeV(Void))
  {
  }

  /** to_string(BasicType). */
  function TypeName(t: BasicType): (s: string)
    ensures |s| > 0
  {
    match t
    case Int => "int"
    case Void => "void"
    case Float => "float"
  }

  /** to_string(UnaryOp). */
  function UnaryOpName(op: UnaryOp): (s: string)
    ensures |s| == 1
  {
    match op
    case Positive => "+"
    case Negative => "-"
    case LogicalNot => "!"
  }

  /** to_string(BasicOp): the operator as written in source text. */
  function BasicOpName(op: BasicOp): (s: string)
    ensures 1 <= |s| <= 2
  {
    match op
    case Add => "+"
    case Sub => "-"
    case Mul => "*"
    case Div => "/"
    case Mod => "%"
    case Lt => "<"
    case Gt => ">"
    case Le => "<="
    case Ge => ">="
    case Eq => "=="
    case Neq => "!="
    case And => "&&"
    case Or => "||"
  }

  /** Distinct types, unary operators and binary operators print differently. */
  lemma NamesInjective()
    ensures forall a: BasicType, b: BasicType :: a != b ==> TypeName(a) != TypeName(b)
    ensures forall a: UnaryOp, b: UnaryOp :: a != b ==> UnaryOpName(a) != UnaryOpName(b)
    ensures forall a: BasicOp, b: BasicOp :: a != b ==> BasicOpName(a) != BasicOpName(b)
  {
  }
}
