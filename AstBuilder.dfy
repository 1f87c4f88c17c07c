// The semantic actions of src/ast/ast_builder.cpp (plus the three inline
// actions of src/grammar/grammar_rules.cpp). A builder receives the values
// of the right-hand side of a production and returns the value of its head.
// A `std::get` of the wrong alternative throws `bad_variant_access`, which
// is an `Err` here.
module AstBuilder {
  import opened Common
  import opened Ast

  const BadVariant: string := "bad_variant_access"

  datatype Builder =
    | SingleForward
    | TypeInt | TypeFloat | TypeVoid
    | ProgramEmpty
    | CompUnitListItem | CompUnitListAppend
    | ConstDeclB | VarDeclB
    | DefListItem | DefListAppend
    | ConstDef | VarDefUninit | VarDefInit
    | FuncDefB | FuncDefNoParams
    | FParamsItem | FParamsAppend | FParam
    | BlockB | BlockEmpty
    | BlockItemListItem | BlockItemListAppend
    | BlockItemDecl | BlockItemStmt
    | StmtAssign | StmtExp | StmtEmpty | StmtIf | StmtIfElse | StmtReturn | StmtReturnVoid
    | ExpInt | ExpFloat
    | LvalIdent | ExpLval
    | ParenForward
    | NoValue
    | RParamsItem | RParamsAppend
    | ExpCall | ExpCallVoid
    | UnaryPositive | UnaryNegative | UnaryNot
    | UnaryExpB
    | Binary(op: BasicOp)
    /** Not in the source: the wrapping a statement that is a block needs (see Findings). */
    | BlockAsStmt
    /** Not in the source: appending one argument expression to a real-parameter list (see Findings). */
    | RParamsAppendArg

  /** How many right-hand-side values a builder reads: one more than the highest index it uses. */
  function Arity(b: Builder): nat
  {
    match b
    case SingleForward => 1
    case TypeInt => 0
    case TypeFloat => 0
    case TypeVoid => 0
    case ProgramEmpty => 0
    case CompUnitListItem => 1
    case CompUnitListAppend => 2
    case ConstDeclB => 3
    case VarDeclB => 2
    case DefListItem => 1
    case DefListAppend => 3
    case ConstDef => 3
    case VarDefUninit => 1
    case VarDefInit => 3
    case FuncDefB => 6
    case FuncDefNoParams => 5
    case FParamsItem => 1
    case FParamsAppend => 3
    case FParam => 2
    case BlockB => 2
    case BlockEmpty => 0
    case BlockItemListItem => 1
    case BlockItemListAppend => 2
    case BlockItemDecl => 1
    case BlockItemStmt => 1
    case StmtAssign => 3
    case StmtExp => 1
    case StmtEmpty => 0
    case StmtIf => 5
    case StmtIfElse => 7
    case StmtReturn => 2
    case StmtReturnVoid => 0
    case ExpInt => 1
    case ExpFloat => 1
    case LvalIdent => 1
    case ExpLval => 1
    case ParenForward => 2
    case NoValue => 0
    case RParamsItem => 1
    case RParamsAppend => 3
    case ExpCall => 3
    case ExpCallVoid => 1
    case UnaryPositive => 0
    case UnaryNegative => 0
    case UnaryNot => 0
    case UnaryExpB => 2
    case Binary(_) => 3
    case BlockAsStmt => 1
    case RParamsAppendArg => 3
  }

  /** add_to_program: a declaration joins the globals, a function the functions, anything else is dropped. */
  function AddToProgram(p: Program, item: SemVal): (r: Program)
    ensures item.DeclV? ==> r == Program(p.globals + [item.decl], p.functions)
    ensures item.FuncV? ==> r == Program(p.globals, p.functions + [item.func])
    ensures !item.DeclV? && !item.FuncV? ==> r == p
  {
    match item
    case DeclV(d) => p.(globals := p.globals + [d])
    case FuncV(f) => p.(functions := p.functions + [f])
    case _ => p
  }

  /** The argument expressions carried by the wrappers of a real-parameter list, in order. */
  function WrapperValues(ws: seq<VarInit>): (r: seq<Expr>)
    ensures |r| == |ws|
    ensures forall i :: 0 <= i < |ws| ==> r[i] == ws[i].value
  {
    if ws == [] then [] else WrapperValues(ws[..|ws| - 1]) + [ws[|ws| - 1].value]
  }

  /** make_binary: op with lhs = rhs[0] and rhs = rhs[2]. */
  function MakeBinary(op: BasicOp, rhs: seq<SemVal>): Result<SemVal>
    requires 3 <= |rhs|
  {
    if rhs[0].ExprV? && rhs[2].ExprV? then Ok(ExprV(BinaryExpr(op, rhs[0].expr, rhs[2].expr))) else Err(BadVariant)
  }

  /** Runs one semantic action on the values of a production's right-hand side. */
  function Apply(b: Builder, rhs: seq<SemVal>): Result<SemVal>
    requires Arity(b) <= |rhs|
  {
    match b
    case SingleForward => Ok(rhs[0])
    case TypeInt => Ok(TypeV(Int))
    case TypeFloat => Ok(TypeV(Float))
    case TypeVoid => Ok(TypeV(Void))
    case ProgramEmpty => Ok(ProgV(Program([], [])))
    case CompUnitListItem => Ok(ProgV(AddToProgram(Program([], []), rhs[0])))
    case CompUnitListAppend =>
      if rhs[0].ProgV? then Ok(ProgV(AddToProgram(rhs[0].prog, rhs[1]))) else Err(BadVariant)
    case ConstDeclB =>
      if rhs[1].TypeV? && rhs[2].InitsV? then Ok(DeclV(VarDecl(true, rhs[1].ty, rhs[2].inits))) else Err(BadVariant)
    case VarDeclB =>
      if rhs[0].TypeV? && rhs[1].InitsV? then Ok(DeclV(VarDecl(false, rhs[0].ty, rhs[1].inits))) else Err(BadVariant)
    case DefListItem => Ok(rhs[0])
    case DefListAppend =>
      if rhs[0].InitsV? && rhs[2].InitsV? then Ok(InitsV(rhs[0].inits + rhs[2].inits)) else Err(BadVariant)
    case ConstDef =>
      if rhs[0].Str? && rhs[2].ExprV? then Ok(InitsV([VarInit(rhs[0].s, rhs[2].expr)])) else Err(BadVariant)
    case VarDefUninit =>
      if rhs[0].Str? then Ok(InitsV([VarInit(rhs[0].s, Null)])) else Err(BadVariant)
    case VarDefInit =>
      if rhs[0].Str? && rhs[2].ExprV? then Ok(InitsV([VarInit(rhs[0].s, rhs[2].expr)])) else Err(BadVariant)
    case FuncDefB =>
      if rhs[0].TypeV? && rhs[1].Str? && rhs[3].ParamsV? && rhs[5].BlockV?
      then Ok(FuncV(FuncDef(rhs[0].ty, rhs[1].s, rhs[3].params, rhs[5].block)))
      else Err(BadVariant)
    case FuncDefNoParams =>
      if rhs[0].TypeV? && rhs[1].Str? && rhs[4].BlockV?
      then Ok(FuncV(FuncDef(rhs[0].ty, rhs[1].s, [], rhs[4].block)))
      else Err(BadVariant)
    case FParamsItem => Ok(rhs[0])
    case FParamsAppend =>
      if rhs[0].ParamsV? && rhs[2].ParamsV? then Ok(ParamsV(rhs[0].params + rhs[2].params)) else Err(BadVariant)
    case FParam =>
      if rhs[0].TypeV? && rhs[1].Str? then Ok(ParamsV([Param(rhs[0].ty, rhs[1].s)])) else Err(BadVariant)
    case BlockB => Ok(rhs[1])
    case BlockEmpty => Ok(BlockV([]))
    case BlockItemListItem =>
      if rhs[0].ItemV? then Ok(BlockV([rhs[0].item])) else Err(BadVariant)
    case BlockItemListAppend =>
      if rhs[0].BlockV? && rhs[1].ItemV? then Ok(BlockV(rhs[0].block + [rhs[1].item])) else Err(BadVariant)
    case BlockItemDecl =>
      if rhs[0].DeclV? then Ok(ItemV(DeclItem(rhs[0].decl))) else Err(BadVariant)
    case BlockItemStmt =>
      if rhs[0].StmtV? then Ok(ItemV(StmtItem(rhs[0].stmt))) else Err(BadVariant)
    case StmtAssign =>
      if rhs[0].Str? && rhs[2].ExprV? then Ok(StmtV(AssignStmt(rhs[0].s, rhs[2].expr))) else Err(BadVariant)
    case StmtExp =>
      if rhs[0].ExprV? then Ok(StmtV(ExprStmt(rhs[0].expr))) else Err(BadVariant)
    case StmtEmpty => Ok(StmtV(EmptyStmt))
    case StmtIf =>
      if rhs[2].ExprV? && rhs[4].StmtV? then Ok(StmtV(IfStmt(rhs[2].expr, rhs[4].stmt, None))) else Err(BadVariant)
    case StmtIfElse =>
      if rhs[2].ExprV? && rhs[4].StmtV? && rhs[6].StmtV?
      then Ok(StmtV(IfStmt(rhs[2].expr, rhs[4].stmt, Some(rhs[6].stmt))))
      else Err(BadVariant)
    case StmtReturn =>
      if rhs[1].ExprV? then Ok(StmtV(ReturnStmt(rhs[1].expr))) else Err(BadVariant)
    case StmtReturnVoid => Ok(StmtV(ReturnStmt(Null)))
    case ExpInt =>
      if rhs[0].IntV? then Ok(ExprV(LiteralInt(rhs[0].i))) else Err(BadVariant)
    case ExpFloat =>
      if rhs[0].FloatV? then Ok(ExprV(LiteralFloat(rhs[0].text))) else Err(BadVariant)
    case LvalIdent =>
      if rhs[0].Str? then Ok(rhs[0]) else Err(BadVariant)
    case ExpLval =>
      if rhs[0].Str? then Ok(ExprV(IdentifierExpr(rhs[0].s))) else Err(BadVariant)
    case ParenForward => Ok(rhs[1])
    case NoValue => Ok(Mono)
    case RParamsItem =>
      if rhs[0].ExprV? then Ok(InitsV([VarInit("", rhs[0].expr)])) else Err(BadVariant)
    case RParamsAppend =>
      if rhs[0].InitsV? && rhs[2].InitsV? then Ok(InitsV(rhs[0].inits + rhs[2].inits)) else Err(BadVariant)
    case ExpCall =>
      if !rhs[0].Str? then Err(BadVariant)
      else if rhs[2].InitsV? then Ok(ExprV(CallExpr(rhs[0].s, WrapperValues(rhs[2].inits))))
      else Ok(ExprV(CallExpr(rhs[0].s, [])))
    case ExpCallVoid =>
      if rhs[0].Str? then Ok(ExprV(CallExpr(rhs[0].s, []))) else Err(BadVariant)
    case UnaryPositive => Ok(OpV(Positive))
    case UnaryNegative => Ok(OpV(Negative))
    case UnaryNot => Ok(OpV(LogicalNot))
    case UnaryExpB =>
      if rhs[0].OpV? && rhs[1].ExprV? then Ok(ExprV(UnaryExpr(rhs[0].op, rhs[1].expr))) else Err(BadVariant)
    case Binary(op) => MakeBinary(op, rhs)
    case BlockAsStmt =>
      if rhs[0].BlockV? then Ok(StmtV(BlockStmt(rhs[0].block))) else Err(BadVariant)
    case RParamsAppendArg =>
      if rhs[0].InitsV? && rhs[2].ExprV? then Ok(InitsV(rhs[0].inits + [VarInit("", rhs[2].expr)])) else Err(BadVariant)
  }

  /** The list builders put the left list first and the right list after it, order kept. */
  lemma ListAppendOrder(a: seq<VarInit>, b: seq<VarInit>, p: seq<Param>, q: seq<Param>, sep: SemVal)
    ensures Apply(DefListAppend, [InitsV(a), sep, InitsV(b)]) == Ok(InitsV(a + b))
    ensures Apply(RParamsAppend, [InitsV(a), sep, InitsV(b)]) == Ok(InitsV(a + b))
    ensures Apply(FParamsAppend, [ParamsV(p), sep, ParamsV(q)]) == Ok(ParamsV(p + q))
  {
  }

  /** Chaining the real-parameter builders and then the call builder passes the arguments in order. */
  lemma {:induction false} CallArgsInOrder(callee: string, args: seq<Expr>, ws: seq<VarInit>)
    requires |ws| == |args| && forall i :: 0 <= i < |ws| ==> ws[i].value == args[i]
    ensures Apply(ExpCall, [Str(callee), Mono, InitsV(ws), Mono]) == Ok(ExprV(CallExpr(callee, args)))
    ensures Apply(ExpCall, [Str(callee), Mono, Mono, Mono]) == Ok(ExprV(CallExpr(callee, [])))
  {
    assert WrapperValues(ws) == args;
  }

  /** The block-item list builders: one item makes a one-item block, appending puts the new item last. */
  lemma BlockItems(items: seq<BlockItem>, item: BlockItem)
    ensures Apply(BlockItemListItem, [ItemV(item)]) == Ok(BlockV([item]))
    ensures Apply(BlockItemListAppend, [BlockV(items), ItemV(item)]) == Ok(BlockV(items + [item]))
    ensures var r := Apply(BlockItemListAppend, [BlockV(items), ItemV(item)]);
      r.Ok? && |r.value.block| == |items| + 1 && r.value.block[|items|] == item
  {
  }

  /** Operator and operand positions of the expression builders. */
  lemma ExpressionShapes(op: BasicOp, u: UnaryOp, l: Expr, r: Expr, mid: SemVal)
    ensures Apply(Binary(op), [ExprV(l), mid, ExprV(r)]) == Ok(ExprV(BinaryExpr(op, l, r)))
    ensures Apply(UnaryExpB, [OpV(u), ExprV(l)]) == Ok(ExprV(UnaryExpr(u, l)))
    ensures Apply(Binary(op), [ExprV(l), mid, StmtV(EmptyStmt)]).Err?
  {
  }

  /** Declarations: `const` marks the declaration constant and takes the type at 1, a plain one at 0. */
  lemma DeclarationShapes(t: BasicType, items: seq<VarInit>, k: SemVal, semi: SemVal)
    ensures Apply(ConstDeclB, [k, TypeV(t), InitsV(items), semi]) == Ok(DeclV(VarDecl(true, t, items)))
    ensures Apply(VarDeclB, [TypeV(t), InitsV(items), semi]) == Ok(DeclV(VarDecl(false, t, items)))
  {
  }

  /** Definitions: without an initialiser the value is null, otherwise it is the expression at 2. */
  lemma DefinitionShapes(name: string, e: Expr, eq: SemVal)
    ensures Apply(VarDefUninit, [Str(name)]) == Ok(InitsV([VarInit(name, Null)]))
    ensures Apply(VarDefInit, [Str(name), eq, ExprV(e)]) == Ok(InitsV([VarInit(name, e)]))
    ensures Apply(ConstDef, [Str(name), eq, ExprV(e)]) == Ok(InitsV([VarInit(name, e)]))
  {
  }

  /** Statements: if has no else branch, if-else takes it from 6, a bare return has a null value. */
  lemma StatementShapes(c: Expr, s1: Stmt, s2: Stmt, t: seq<SemVal>)
    requires |t| == 7
    requires t[2] == ExprV(c) && t[4] == StmtV(s1) && t[6] == StmtV(s2)
    ensures Apply(StmtIf, t[..5]) == Ok(StmtV(IfStmt(c, s1, None)))
    ensures Apply(StmtIfElse, t) == Ok(StmtV(IfStmt(c, s1, Some(s2))))
    ensures Apply(StmtReturnVoid, []) == Ok(StmtV(ReturnStmt(Null)))
  {
  }
}
