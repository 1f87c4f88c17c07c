// Bottom-up evaluation of the semantic actions of src/grammar/grammar_rules.cpp
// over parse trees, and the proof that on every parse tree of the grammar
// the actions of src/ast/ast_builder.cpp never read the wrong alternative of
// the semantic value: no `std::get` throws `bad_variant_access`.
//
// Each non-terminal is given the shape of value its productions build.
// `AbsApply` runs a builder on shapes instead of values; it is proved sound
// for every builder, and every production of the table is checked to build,
// from the shapes of its body, the shape of its head. Induction over the
// tree lifts that to whole parses. The table as written fails the same
// check at two productions, and a concrete tree shows each failure.
module AstTyping {
  import opened Common
  import opened Symbols
  import opened GrammarRules
  import Ast
  import B = AstBuilder
  import Tokens

  /** The alternative (or alternatives) of the semantic value a symbol stands for. */
  datatype Shape =
    | MonoS | StrS | IntS | FloatS | TypeS | OpS | ItemS | InitsS | ParamsS
    | ExprS | StmtS | DeclS | BlockS | FuncS | ProgS
    | DeclOrFuncS | MonoOrInitsS | AnyS

  predicate Fits(v: Ast.SemVal, sh: Shape)
  {
    match sh
    case MonoS => v.Mono?
    case StrS => v.Str?
    case IntS => v.IntV?
    case FloatS => v.FloatV?
    case TypeS => v.TypeV?
    case OpS => v.OpV?
    case ItemS => v.ItemV?
    case InitsS => v.InitsV?
    case ParamsS => v.ParamsV?
    case ExprS => v.ExprV?
    case StmtS => v.StmtV?
    case DeclS => v.DeclV?
    case BlockS => v.BlockV?
    case FuncS => v.FuncV?
    case ProgS => v.ProgV?
    case DeclOrFuncS => v.DeclV? || v.FuncV?
    case MonoOrInitsS => v.Mono? || v.InitsV?
    case AnyS => true
  }

  /** Every value of shape a also has shape b. */
  predicate Within(a: Shape, b: Shape)
  {
    a == b || b == AnyS
    || (b == DeclOrFuncS && (a == DeclS || a == FuncS))
    || (b == MonoOrInitsS && (a == MonoS || a == InitsS))
  }

  /**
   * The shape of value each non-terminal stands for. The tests come in
   * order of how often the non-terminal occurs in the productions.
   */
  function NtShape(n: Nonterminal): Shape
  {
    if n.Stmt? then StmtS
    else if n.RelExp? || n.AddExp? || n.MulExp? || n.UnaryExp? || n.Exp? || n.EqExp? || n.LOrExp? || n.LAndExp?
      || n.PrimaryExp? || n.Cond? || n.Number? || n.FuncRParam? || n.ConstInitVal? || n.ConstExp? || n.InitVal? then ExprS
    else if n.BType? || n.FuncType? then TypeS
    else if n.Block? || n.BlockItemList? then BlockS
    else if n.CompUnitList? || n.CompUnit? || n.Program? then ProgS
    else if n.CompUnitItem? then DeclOrFuncS
    else if n.Decl? || n.ConstDecl? || n.VarDecl? then DeclS
    else if n.ConstDefList? || n.VarDefList? || n.VarDef? || n.FuncRParams? || n.ConstDef? then InitsS
    else if n.FuncFParams? || n.FuncFParam? then ParamsS
    else if n.BlockItem? then ItemS
    else if n.UnaryOp? then OpS
    else if n.FuncDef? then FuncS
    else if n.LVal? then StrS
    else if n.FuncRParamsOpt? then MonoOrInitsS
    else if n.IntConst? then IntS
    else if n.FloatConst? then FloatS
    // Ident derives only the terminal Identifier, which no token is mapped to.
    else AnyS
  }

  /** The shape of the value a terminal's token carries; only these three are ever read. */
  function TermShape(x: Terminal): Shape
  {
    match x
    case IdentTm => StrS
    case LiteralIntTm => IntS
    case LiteralFloatTm => FloatS
    case _ => AnyS
  }

  function SymShape(s: TableSymbol): Shape
  {
    match s
    case Nt(n) => NtShape(n)
    case Tm(x) => TermShape(x)
    case EpsSym => AnyS
  }

  predicate IsEpsilonBody(body: seq<TableSymbol>)
  {
    |body| == 1 && body[0] == EpsSym
  }

  /** The number of values a reduction receives: none for an epsilon body, one per symbol otherwise. */
  function RhsLength(body: seq<TableSymbol>): nat
  {
    if IsEpsilonBody(body) then 0 else |body|
  }

  /**
   * A builder run on shapes: the shape of its result when arguments of the
   * given shapes make it succeed, None when they may not.
   */
  function AbsApply(b: B.Builder, body: seq<TableSymbol>): Option<Shape>
  {
    if RhsLength(body) < B.Arity(b) then None else
    match b
    case Binary(_) => if SymShape(body[0]) == ExprS && SymShape(body[2]) == ExprS then Some(ExprS) else None
    case SingleForward => Some(SymShape(body[0]))
    case TypeInt => Some(TypeS)
    case TypeFloat => Some(TypeS)
    case TypeVoid => Some(TypeS)
    case ProgramEmpty => Some(ProgS)
    case CompUnitListItem => Some(ProgS)
    case CompUnitListAppend => if SymShape(body[0]) == ProgS then Some(ProgS) else None
    case ConstDeclB => if SymShape(body[1]) == TypeS && SymShape(body[2]) == InitsS then Some(DeclS) else None
    case VarDeclB => if SymShape(body[0]) == TypeS && SymShape(body[1]) == InitsS then Some(DeclS) else None
    case DefListItem => Some(SymShape(body[0]))
    case DefListAppend => if SymShape(body[0]) == InitsS && SymShape(body[2]) == InitsS then Some(InitsS) else None
    case ConstDef => if SymShape(body[0]) == StrS && SymShape(body[2]) == ExprS then Some(InitsS) else None
    case VarDefUninit => if SymShape(body[0]) == StrS then Some(InitsS) else None
    case VarDefInit => if SymShape(body[0]) == StrS && SymShape(body[2]) == ExprS then Some(InitsS) else None
    case FuncDefB =>
      if SymShape(body[0]) == TypeS && SymShape(body[1]) == StrS && SymShape(body[3]) == ParamsS && SymShape(body[5]) == BlockS then Some(FuncS) else None
    case FuncDefNoParams => if SymShape(body[0]) == TypeS && SymShape(body[1]) == StrS && SymShape(body[4]) == BlockS then Some(FuncS) else None
    case FParamsItem => Some(SymShape(body[0]))
    case FParamsAppend => if SymShape(body[0]) == ParamsS && SymShape(body[2]) == ParamsS then Some(ParamsS) else None
    case FParam => if SymShape(body[0]) == TypeS && SymShape(body[1]) == StrS then Some(ParamsS) else None
    case BlockB => Some(SymShape(body[1]))
    case BlockEmpty => Some(BlockS)
    case BlockItemListItem => if SymShape(body[0]) == ItemS then Some(BlockS) else None
    case BlockItemListAppend => if SymShape(body[0]) == BlockS && SymShape(body[1]) == ItemS then Some(BlockS) else None
    case BlockItemDecl => if SymShape(body[0]) == DeclS then Some(ItemS) else None
    case BlockItemStmt => if SymShape(body[0]) == StmtS then Some(ItemS) else None
    case StmtAssign => if SymShape(body[0]) == StrS && SymShape(body[2]) == ExprS then Some(StmtS) else None
    case StmtExp => if SymShape(body[0]) == ExprS then Some(StmtS) else None
    case StmtEmpty => Some(StmtS)
    case StmtIf => if SymShape(body[2]) == ExprS && SymShape(body[4]) == StmtS then Some(StmtS) else None
    case StmtIfElse => if SymShape(body[2]) == ExprS && SymShape(body[4]) == StmtS && SymShape(body[6]) == StmtS then Some(StmtS) else None
    case StmtReturn => if SymShape(body[1]) == ExprS then Some(StmtS) else None
    case StmtReturnVoid => Some(StmtS)
    case ExpInt => if SymShape(body[0]) == IntS then Some(ExprS) else None
    case ExpFloat => if SymShape(body[0]) == FloatS then Some(ExprS) else None
    case LvalIdent => if SymShape(body[0]) == StrS then Some(StrS) else None
    case ExpLval => if SymShape(body[0]) == StrS then Some(ExprS) else None
    case ParenForward => Some(SymShape(body[1]))
    case NoValue => Some(MonoS)
    case RParamsItem => if SymShape(body[0]) == ExprS then Some(InitsS) else None
    case RParamsAppend => if SymShape(body[0]) == InitsS && SymShape(body[2]) == InitsS then Some(InitsS) else None
    case ExpCall => if SymShape(body[0]) == StrS then Some(ExprS) else None
    case ExpCallVoid => if SymShape(body[0]) == StrS then Some(ExprS) else None
    case UnaryPositive => Some(OpS)
    case UnaryNegative => Some(OpS)
    case UnaryNot => Some(OpS)
    case UnaryExpB => if SymShape(body[0]) == OpS && SymShape(body[1]) == ExprS then Some(ExprS) else None
    case BlockAsStmt => if SymShape(body[0]) == BlockS then Some(StmtS) else None
    case RParamsAppendArg => if SymShape(body[0]) == InitsS && SymShape(body[2]) == ExprS then Some(InitsS) else None
  }

  /** The values of a reduction fit the shapes of the body's symbols, position by position. */
  predicate Conforms(rhs: seq<Ast.SemVal>, body: seq<TableSymbol>)
  {
    |rhs| == RhsLength(body) && (!IsEpsilonBody(body) ==> forall j :: 0 <= j < |rhs| ==> Fits(rhs[j], SymShape(body[j])))
  }

  /** Whatever AbsApply promises, Apply delivers: success, with a value of the promised shape. */
  lemma AbsApplySound(b: B.Builder, body: seq<TableSymbol>, rhs: seq<Ast.SemVal>)
    requires Conforms(rhs, body) && AbsApply(b, body).Some?
    ensures B.Apply(b, rhs).Ok? && Fits(B.Apply(b, rhs).value, AbsApply(b, body).value)
  {
    match b
    case Binary(_) => SoundGroup0(b, body, rhs);
    case SingleForward | TypeInt | TypeFloat | TypeVoid | ProgramEmpty => SoundGroup1(b, body, rhs);
    case CompUnitListItem | CompUnitListAppend | ConstDeclB | VarDeclB | DefListItem => SoundGroup2(b, body, rhs);
    case DefListAppend | ConstDef | VarDefUninit | VarDefInit | FuncDefB => SoundGroup3(b, body, rhs);
    case FuncDefNoParams | FParamsItem | FParamsAppend | FParam | BlockB => SoundGroup4(b, body, rhs);
    case BlockEmpty | BlockItemListItem | BlockItemListAppend | BlockItemDecl | BlockItemStmt => SoundGroup5(b, body, rhs);
    case StmtAssign | StmtExp | StmtEmpty | StmtIf | StmtIfElse => SoundGroup6(b, body, rhs);
    case StmtReturn | StmtReturnVoid | ExpInt | ExpFloat | LvalIdent => SoundGroup7(b, body, rhs);
    case ExpLval | ParenForward | NoValue | RParamsItem | RParamsAppend => SoundGroup8(b, body, rhs);
    case ExpCall | ExpCallVoid | UnaryPositive | UnaryNegative | UnaryNot => SoundGroup9(b, body, rhs);
    case UnaryExpB | BlockAsStmt | RParamsAppendArg => SoundGroup10(b, body, rhs);
  }

  // AbsApplySound, one group of builders at a time.
  lemma SoundGroup0(b: B.Builder, body: seq<TableSymbol>, rhs: seq<Ast.SemVal>)
    requires Conforms(rhs, body) && AbsApply(b, body).Some? && (b.Binary?)
    ensures B.Apply(b, rhs).Ok? && Fits(B.Apply(b, rhs).value, AbsApply(b, body).value)
  {
  }

  lemma SoundGroup1(b: B.Builder, body: seq<TableSymbol>, rhs: seq<Ast.SemVal>)
    requires Conforms(rhs, body) && AbsApply(b, body).Some? && (b.SingleForward? || b.TypeInt? || b.TypeFloat? || b.TypeVoid? || b.ProgramEmpty?)
    ensures B.Apply(b, rhs).Ok? && Fits(B.Apply(b, rhs).value, AbsApply(b, body).value)
  {
  }

  lemma SoundGroup2(b: B.Builder, body: seq<TableSymbol>, rhs: seq<Ast.SemVal>)
    requires Conforms(rhs, body) && AbsApply(b, body).Some? && (b.CompUnitListItem? || b.CompUnitListAppend? || b.ConstDeclB? || b.VarDeclB? || b.DefListItem?)
    ensures B.Apply(b, rhs).Ok? && Fits(B.Apply(b, rhs).value, AbsApply(b, body).value)
  {
  }

  lemma SoundGroup3(b: B.Builder, body: seq<TableSymbol>, rhs: seq<Ast.SemVal>)
    requires Conforms(rhs, body) && AbsApply(b, body).Some? && (b.DefListAppend? || b.ConstDef? || b.VarDefUninit? || b.VarDefInit? || b.FuncDefB?)
    ensures B.Apply(b, rhs).Ok? && Fits(B.Apply(b, rhs).value, AbsApply(b, body).value)
  {
  }

  lemma SoundGroup4(b: B.Builder, body: seq<TableSymbol>, rhs: seq<Ast.SemVal>)
    requires Conforms(rhs, body) && AbsApply(b, body).Some? && (b.FuncDefNoParams? || b.FParamsItem? || b.FParamsAppend? || b.FParam? || b.BlockB?)
    ensures B.Apply(b, rhs).Ok? && Fits(B.Apply(b, rhs).value, AbsApply(b, body).value)
  {
  }

  lemma SoundGroup5(b: B.Builder, body: seq<TableSymbol>, rhs: seq<Ast.SemVal>)
    requires Conforms(rhs, body) && AbsApply(b, body).Some? && (b.BlockEmpty? || b.BlockItemListItem? || b.BlockItemListAppend? || b.BlockItemDecl? || b.BlockItemStmt?)
    ensures B.Apply(b, rhs).Ok? && Fits(B.Apply(b, rhs).value, AbsApply(b, body).value)
  {
  }

  lemma SoundGroup6(b: B.Builder, body: seq<TableSymbol>, rhs: seq<Ast.SemVal>)
    requires Conforms(rhs, body) && AbsApply(b, body).Some? && (b.StmtAssign? || b.StmtExp? || b.StmtEmpty? || b.StmtIf? || b.StmtIfElse?)
    ensures B.Apply(b, rhs).Ok? && Fits(B.Apply(b, rhs).value, AbsApply(b, body).value)
  {
  }

  lemma SoundGroup7(b: B.Builder, body: seq<TableSymbol>, rhs: seq<Ast.SemVal>)
    requires Conforms(rhs, body) && AbsApply(b, body).Some? && (b.StmtReturn? || b.StmtReturnVoid? || b.ExpInt? || b.ExpFloat? || b.LvalIdent?)
    ensures B.Apply(b, rhs).Ok? && Fits(B.Apply(b, rhs).value, AbsApply(b, body).value)
  {
  }

  lemma SoundGroup8(b: B.Builder, body: seq<TableSymbol>, rhs: seq<Ast.SemVal>)
    requires Conforms(rhs, body) && AbsApply(b, body).Some? && (b.ExpLval? || b.ParenForward? || b.NoValue? || b.RParamsItem? || b.RParamsAppend?)
    ensures B.Apply(b, rhs).Ok? && Fits(B.Apply(b, rhs).value, AbsApply(b, body).value)
  {
  }

  lemma SoundGroup9(b: B.Builder, body: seq<TableSymbol>, rhs: seq<Ast.SemVal>)
    requires Conforms(rhs, body) && AbsApply(b, body).Some? && (b.ExpCall? || b.ExpCallVoid? || b.UnaryPositive? || b.UnaryNegative? || b.UnaryNot?)
    ensures B.Apply(b, rhs).Ok? && Fits(B.Apply(b, rhs).value, AbsApply(b, body).value)
  {
  }

  lemma SoundGroup10(b: B.Builder, body: seq<TableSymbol>, rhs: seq<Ast.SemVal>)
    requires Conforms(rhs, body) && AbsApply(b, body).Some? && (b.UnaryExpB? || b.BlockAsStmt? || b.RParamsAppendArg?)
    ensures B.Apply(b, rhs).Ok? && Fits(B.Apply(b, rhs).value, AbsApply(b, body).value)
  {
  }

  /** A production passes the check when its builder, run on the shapes of its body, yields its head's shape. */
  predicate RuleChecks(r: TableRule)
  {
    Builds(AbsApply(r.action, r.body), NtShape(r.head))
  }

  predicate Builds(out: Option<Shape>, target: Shape)
  {
    out.Some? && Within(out.value, target)
  }

  /**
   * Every production of the corrected table passes the check. One lemma per
   * production keeps each evaluation of the table small.
   */
  lemma TableChecks(i: nat)
    requires i < RuleCount
    ensures RuleChecks(TableRuleAt(i))
  {
    if i < 43 { TableChecksLow(i); } else { TableChecksHigh(i); }
  }

  lemma TableChecksLow(i: nat)
    requires i < 43
    ensures RuleChecks(TableRuleAt(i))
  {
    if i == 0 { Checks0(); }
    else if i == 1 { Checks1(); }
    else if i == 2 { Checks2(); }
    else if i == 3 { Checks3(); }
    else if i == 4 { Checks4(); }
    else if i == 5 { Checks5(); }
    else if i == 6 { Checks6(); }
    else if i == 7 { Checks7(); }
    else if i == 8 { Checks8(); }
    else if i == 9 { Checks9(); }
    else if i == 10 { Checks10(); }
    else if i == 11 { Checks11(); }
    else if i == 12 { Checks12(); }
    else if i == 13 { Checks13(); }
    else if i == 14 { Checks14(); }
    else if i == 15 { Checks15(); }
    else if i == 16 { Checks16(); }
    else if i == 17 { Checks17(); }
    else if i == 18 { Checks18(); }
    else if i == 19 { Checks19(); }
    else if i == 20 { Checks20(); }
    else if i == 21 { Checks21(); }
    else if i == 22 { Checks22(); }
    else if i == 23 { Checks23(); }
    else if i == 24 { Checks24(); }
    else if i == 25 { Checks25(); }
    else if i == 26 { Checks26(); }
    else if i == 27 { Checks27(); }
    else if i == 28 { Checks28(); }
    else if i == 29 { Checks29(); }
    else if i == 30 { Checks30(); }
    else if i == 31 { Checks31(); }
    else if i == 32 { Checks32(); }
    else if i == 33 { Checks33(); }
    else if i == 34 { Checks34(); }
    else if i == 35 { Checks35(); }
    else if i == 36 { Checks36(); }
    else if i == 37 { Checks37(); }
    else if i == 38 { Checks38(); }
    else if i == 39 { Checks39(); }
    else if i == 40 { Checks40(); }
    else if i == 41 { Checks41(); }
    else { Checks42(); }
  }

  lemma TableChecksHigh(i: nat)
    requires 43 <= i < RuleCount
    ensures RuleChecks(TableRuleAt(i))
  {
    if i == 43 { Checks43(); }
    else if i == 44 { Checks44(); }
    else if i == 45 { Checks45(); }
    else if i == 46 { Checks46(); }
    else if i == 47 { Checks47(); }
    else if i == 48 { Checks48(); }
    else if i == 49 { Checks49(); }
    else if i == 50 { Checks50(); }
    else if i == 51 { Checks51(); }
    else if i == 52 { Checks52(); }
    else if i == 53 { Checks53(); }
    else if i == 54 { Checks54(); }
    else if i == 55 { Checks55(); }
    else if i == 56 { Checks56(); }
    else if i == 57 { Checks57(); }
    else if i == 58 { Checks58(); }
    else if i == 59 { Checks59(); }
    else if i == 60 { Checks60(); }
    else if i == 61 { Checks61(); }
    else if i == 62 { Checks62(); }
    else if i == 63 { Checks63(); }
    else if i == 64 { Checks64(); }
    else if i == 65 { Checks65(); }
    else if i == 66 { Checks66(); }
    else if i == 67 { Checks67(); }
    else if i == 68 { Checks68(); }
    else if i == 69 { Checks69(); }
    else if i == 70 { Checks70(); }
    else if i == 71 { Checks71(); }
    else if i == 72 { Checks72(); }
    else if i == 73 { Checks73(); }
    else if i == 74 { Checks74(); }
    else if i == 75 { Checks75(); }
    else if i == 76 { Checks76(); }
    else if i == 77 { Checks77(); }
    else if i == 78 { Checks78(); }
    else if i == 79 { Checks79(); }
    else if i == 80 { Checks80(); }
    else if i == 81 { Checks81(); }
    else if i == 82 { Checks82(); }
    else if i == 83 { Checks83(); }
    else if i == 84 { Checks84(); }
    else { Checks85(); }
  }

  // Production i written out: its builder, run on the shapes of its body,
  // yields a shape within its head's (ShapeI); the table holds exactly that
  // production (ChecksI).
  lemma Shape0() ensures AbsApply(B.SingleForward, [Nt(CompUnit)]) == Some(ProgS) && Within(ProgS, NtShape(Program)) {}
  lemma Checks0() ensures RuleChecks(TableRuleAt(0)) { Shape0(); }
  lemma Shape1() ensures AbsApply(B.ProgramEmpty, [EpsSym]) == Some(ProgS) && Within(ProgS, NtShape(CompUnit)) {}
  lemma Checks1() ensures RuleChecks(TableRuleAt(1)) { Shape1(); }
  lemma Shape2() ensures AbsApply(B.SingleForward, [Nt(CompUnitList)]) == Some(ProgS) && Within(ProgS, NtShape(CompUnit)) {}
  lemma Checks2() ensures RuleChecks(TableRuleAt(2)) { Shape2(); }
  lemma Shape3() ensures AbsApply(B.CompUnitListItem, [Nt(CompUnitItem)]) == Some(ProgS) && Within(ProgS, NtShape(CompUnitList)) {}
  lemma Checks3() ensures RuleChecks(TableRuleAt(3)) { Shape3(); }
  lemma Shape4() ensures AbsApply(B.CompUnitListAppend, [Nt(CompUnitList), Nt(CompUnitItem)]) == Some(ProgS) && Within(ProgS, NtShape(CompUnitList)) {}
  lemma Checks4() ensures RuleChecks(TableRuleAt(4)) { Shape4(); }
  lemma Shape5() ensures AbsApply(B.SingleForward, [Nt(Decl)]) == Some(DeclS) && Within(DeclS, NtShape(CompUnitItem)) {}
  lemma Checks5() ensures RuleChecks(TableRuleAt(5)) { Shape5(); }
  lemma Shape6() ensures AbsApply(B.SingleForward, [Nt(FuncDef)]) == Some(FuncS) && Within(FuncS, NtShape(CompUnitItem)) {}
  lemma Checks6() ensures RuleChecks(TableRuleAt(6)) { Shape6(); }
  lemma Shape7() ensures AbsApply(B.SingleForward, [Nt(ConstDecl)]) == Some(DeclS) && Within(DeclS, NtShape(Decl)) {}
  lemma Checks7() ensures RuleChecks(TableRuleAt(7)) { Shape7(); }
  lemma Shape8() ensures AbsApply(B.SingleForward, [Nt(VarDecl)]) == Some(DeclS) && Within(DeclS, NtShape(Decl)) {}
  lemma Checks8() ensures RuleChecks(TableRuleAt(8)) { Shape8(); }
  lemma Shape9() ensures AbsApply(B.ConstDeclB, [Tm(ConstKw), Nt(BType), Nt(ConstDefList), Tm(Semicolon)]) == Some(DeclS) && Within(DeclS, NtShape(ConstDecl)) {}
  lemma Checks9() ensures RuleChecks(TableRuleAt(9)) { Shape9(); }
  lemma Shape10() ensures AbsApply(B.DefListItem, [Nt(ConstDef)]) == Some(InitsS) && Within(InitsS, NtShape(ConstDefList)) {}
  lemma Checks10() ensures RuleChecks(TableRuleAt(10)) { Shape10(); }
  lemma Shape11() ensures AbsApply(B.DefListAppend, [Nt(ConstDefList), Tm(Comma), Nt(ConstDef)]) == Some(InitsS) && Within(InitsS, NtShape(ConstDefList)) {}
  lemma Checks11() ensures RuleChecks(TableRuleAt(11)) { Shape11(); }
  lemma Shape12() ensures AbsApply(B.TypeInt, [Tm(IntKw)]) == Some(TypeS) && Within(TypeS, NtShape(BType)) {}
  lemma Checks12() ensures RuleChecks(TableRuleAt(12)) { Shape12(); }
  lemma Shape13() ensures AbsApply(B.TypeFloat, [Tm(FloatKw)]) == Some(TypeS) && Within(TypeS, NtShape(BType)) {}
  lemma Checks13() ensures RuleChecks(TableRuleAt(13)) { Shape13(); }
  lemma Shape14() ensures AbsApply(B.ConstDef, [Tm(IdentTm), Tm(Assign), Nt(ConstInitVal)]) == Some(InitsS) && Within(InitsS, NtShape(ConstDef)) {}
  lemma Checks14() ensures RuleChecks(TableRuleAt(14)) { Shape14(); }
  lemma Shape15() ensures AbsApply(B.SingleForward, [Nt(ConstExp)]) == Some(ExprS) && Within(ExprS, NtShape(ConstInitVal)) {}
  lemma Checks15() ensures RuleChecks(TableRuleAt(15)) { Shape15(); }
  lemma Shape16() ensures AbsApply(B.VarDeclB, [Nt(BType), Nt(VarDefList), Tm(Semicolon)]) == Some(DeclS) && Within(DeclS, NtShape(VarDecl)) {}
  lemma Checks16() ensures RuleChecks(TableRuleAt(16)) { Shape16(); }
  lemma Shape17() ensures AbsApply(B.DefListItem, [Nt(VarDef)]) == Some(InitsS) && Within(InitsS, NtShape(VarDefList)) {}
  lemma Checks17() ensures RuleChecks(TableRuleAt(17)) { Shape17(); }
  lemma Shape18() ensures AbsApply(B.DefListAppend, [Nt(VarDefList), Tm(Comma), Nt(VarDef)]) == Some(InitsS) && Within(InitsS, NtShape(VarDefList)) {}
  lemma Checks18() ensures RuleChecks(TableRuleAt(18)) { Shape18(); }
  lemma Shape19() ensures AbsApply(B.VarDefUninit, [Tm(IdentTm)]) == Some(InitsS) && Within(InitsS, NtShape(VarDef)) {}
  lemma Checks19() ensures RuleChecks(TableRuleAt(19)) { Shape19(); }
  lemma Shape20() ensures AbsApply(B.VarDefInit, [Tm(IdentTm), Tm(Assign), Nt(InitVal)]) == Some(InitsS) && Within(InitsS, NtShape(VarDef)) {}
  lemma Checks20() ensures RuleChecks(TableRuleAt(20)) { Shape20(); }
  lemma Shape21() ensures AbsApply(B.SingleForward, [Nt(Exp)]) == Some(ExprS) && Within(ExprS, NtShape(InitVal)) {}
  lemma Checks21() ensures RuleChecks(TableRuleAt(21)) { Shape21(); }
  lemma Shape22() ensures AbsApply(B.FuncDefNoParams, [Nt(FuncType), Tm(IdentTm), Tm(LParen), Tm(RParen), Nt(Block)]) == Some(FuncS) && Within(FuncS, NtShape(FuncDef)) {}
  lemma Checks22() ensures RuleChecks(TableRuleAt(22)) { Shape22(); }
  lemma Shape23() ensures AbsApply(B.FuncDefB, [Nt(FuncType), Tm(IdentTm), Tm(LParen), Nt(FuncFParams), Tm(RParen), Nt(Block)]) == Some(FuncS) && Within(FuncS, NtShape(FuncDef)) {}
  lemma Checks23() ensures RuleChecks(TableRuleAt(23)) { Shape23(); }
  lemma Shape24() ensures AbsApply(B.TypeVoid, [Tm(VoidKw)]) == Some(TypeS) && Within(TypeS, NtShape(FuncType)) {}
  lemma Checks24() ensures RuleChecks(TableRuleAt(24)) { Shape24(); }
  lemma Shape25() ensures AbsApply(B.TypeInt, [Tm(FuncIntKw)]) == Some(TypeS) && Within(TypeS, NtShape(FuncType)) {}
  lemma Checks25() ensures RuleChecks(TableRuleAt(25)) { Shape25(); }
  lemma Shape26() ensures AbsApply(B.TypeFloat, [Tm(FuncFloatKw)]) == Some(TypeS) && Within(TypeS, NtShape(FuncType)) {}
  lemma Checks26() ensures RuleChecks(TableRuleAt(26)) { Shape26(); }
  lemma Shape27() ensures AbsApply(B.FParamsItem, [Nt(FuncFParam)]) == Some(ParamsS) && Within(ParamsS, NtShape(FuncFParams)) {}
  lemma Checks27() ensures RuleChecks(TableRuleAt(27)) { Shape27(); }
  lemma Shape28() ensures AbsApply(B.FParamsAppend, [Nt(FuncFParams), Tm(Comma), Nt(FuncFParam)]) == Some(ParamsS) && Within(ParamsS, NtShape(FuncFParams)) {}
  lemma Checks28() ensures RuleChecks(TableRuleAt(28)) { Shape28(); }
  lemma Shape29() ensures AbsApply(B.FParam, [Nt(BType), Tm(IdentTm)]) == Some(ParamsS) && Within(ParamsS, NtShape(FuncFParam)) {}
  lemma Checks29() ensures RuleChecks(TableRuleAt(29)) { Shape29(); }
  lemma Shape30() ensures AbsApply(B.BlockEmpty, [Tm(LBrace), Tm(RBrace)]) == Some(BlockS) && Within(BlockS, NtShape(Block)) {}
  lemma Checks30() ensures RuleChecks(TableRuleAt(30)) { Shape30(); }
  lemma Shape31() ensures AbsApply(B.BlockB, [Tm(LBrace), Nt(BlockItemList), Tm(RBrace)]) == Some(BlockS) && Within(BlockS, NtShape(Block)) {}
  lemma Checks31() ensures RuleChecks(TableRuleAt(31)) { Shape31(); }
  lemma Shape32() ensures AbsApply(B.BlockItemListItem, [Nt(BlockItem)]) == Some(BlockS) && Within(BlockS, NtShape(BlockItemList)) {}
  lemma Checks32() ensures RuleChecks(TableRuleAt(32)) { Shape32(); }
  lemma Shape33() ensures AbsApply(B.BlockItemListAppend, [Nt(BlockItemList), Nt(BlockItem)]) == Some(BlockS) && Within(BlockS, NtShape(BlockItemList)) {}
  lemma Checks33() ensures RuleChecks(TableRuleAt(33)) { Shape33(); }
  lemma Shape34() ensures AbsApply(B.BlockItemDecl, [Nt(Decl)]) == Some(ItemS) && Within(ItemS, NtShape(BlockItem)) {}
  lemma Checks34() ensures RuleChecks(TableRuleAt(34)) { Shape34(); }
  lemma Shape35() ensures AbsApply(B.BlockItemStmt, [Nt(Stmt)]) == Some(ItemS) && Within(ItemS, NtShape(BlockItem)) {}
  lemma Checks35() ensures RuleChecks(TableRuleAt(35)) { Shape35(); }
  lemma Shape36() ensures AbsApply(B.StmtAssign, [Nt(LVal), Tm(Assign), Nt(Exp), Tm(Semicolon)]) == Some(StmtS) && Within(StmtS, NtShape(Stmt)) {}
  lemma Checks36() ensures RuleChecks(TableRuleAt(36)) { Shape36(); }
  lemma Shape37() ensures AbsApply(B.StmtExp, [Nt(Exp), Tm(Semicolon)]) == Some(StmtS) && Within(StmtS, NtShape(Stmt)) {}
  lemma Checks37() ensures RuleChecks(TableRuleAt(37)) { Shape37(); }
  lemma Shape38() ensures AbsApply(B.StmtEmpty, [Tm(Semicolon)]) == Some(StmtS) && Within(StmtS, NtShape(Stmt)) {}
  lemma Checks38() ensures RuleChecks(TableRuleAt(38)) { Shape38(); }
  lemma Shape39() ensures AbsApply(B.BlockAsStmt, [Nt(Block)]) == Some(StmtS) && Within(StmtS, NtShape(Stmt)) {}
  lemma Checks39() ensures RuleChecks(TableRuleAt(39)) { Shape39(); }
  lemma Shape40() ensures AbsApply(B.StmtIf, [Tm(IfKw), Tm(LParen), Nt(Cond), Tm(RParen), Nt(Stmt)]) == Some(StmtS) && Within(StmtS, NtShape(Stmt)) {}
  lemma Checks40() ensures RuleChecks(TableRuleAt(40)) { Shape40(); }
  lemma Shape41() ensures AbsApply(B.StmtIfElse, [Tm(IfKw), Tm(LParen), Nt(Cond), Tm(RParen), Nt(Stmt), Tm(ElseKw), Nt(Stmt)]) == Some(StmtS) && Within(StmtS, NtShape(Stmt)) {}
  lemma Checks41() ensures RuleChecks(TableRuleAt(41)) { Shape41(); }
  lemma Shape42() ensures AbsApply(B.StmtReturn, [Tm(ReturnKw), Nt(Exp), Tm(Semicolon)]) == Some(StmtS) && Within(StmtS, NtShape(Stmt)) {}
  lemma Checks42() ensures RuleChecks(TableRuleAt(42)) { Shape42(); }
  lemma Shape43() ensures AbsApply(B.StmtReturnVoid, [Tm(ReturnKw), Tm(Semicolon)]) == Some(StmtS) && Within(StmtS, NtShape(Stmt)) {}
  lemma Checks43() ensures RuleChecks(TableRuleAt(43)) { Shape43(); }
  lemma Shape44() ensures AbsApply(B.SingleForward, [Nt(LOrExp)]) == Some(ExprS) && Within(ExprS, NtShape(Exp)) {}
  lemma Checks44() ensures RuleChecks(TableRuleAt(44)) { Shape44(); }
  lemma Shape45() ensures AbsApply(B.SingleForward, [Nt(LOrExp)]) == Some(ExprS) && Within(ExprS, NtShape(Cond)) {}
  lemma Checks45() ensures RuleChecks(TableRuleAt(45)) { Shape45(); }
  lemma Shape46() ensures AbsApply(B.LvalIdent, [Tm(IdentTm)]) == Some(StrS) && Within(StrS, NtShape(LVal)) {}
  lemma Checks46() ensures RuleChecks(TableRuleAt(46)) { Shape46(); }
  lemma Shape47() ensures AbsApply(B.ParenForward, [Tm(LParen), Nt(Exp), Tm(RParen)]) == Some(ExprS) && Within(ExprS, NtShape(PrimaryExp)) {}
  lemma Checks47() ensures RuleChecks(TableRuleAt(47)) { Shape47(); }
  lemma Shape48() ensures AbsApply(B.ExpLval, [Nt(LVal)]) == Some(ExprS) && Within(ExprS, NtShape(PrimaryExp)) {}
  lemma Checks48() ensures RuleChecks(TableRuleAt(48)) { Shape48(); }
  lemma Shape49() ensures AbsApply(B.SingleForward, [Nt(Number)]) == Some(ExprS) && Within(ExprS, NtShape(PrimaryExp)) {}
  lemma Checks49() ensures RuleChecks(TableRuleAt(49)) { Shape49(); }
  lemma Shape50() ensures AbsApply(B.ExpInt, [Nt(IntConst)]) == Some(ExprS) && Within(ExprS, NtShape(Number)) {}
  lemma Checks50() ensures RuleChecks(TableRuleAt(50)) { Shape50(); }
  lemma Shape51() ensures AbsApply(B.ExpFloat, [Nt(FloatConst)]) == Some(ExprS) && Within(ExprS, NtShape(Number)) {}
  lemma Checks51() ensures RuleChecks(TableRuleAt(51)) { Shape51(); }
  lemma Shape52() ensures AbsApply(B.SingleForward, [Nt(PrimaryExp)]) == Some(ExprS) && Within(ExprS, NtShape(UnaryExp)) {}
  lemma Checks52() ensures RuleChecks(TableRuleAt(52)) { Shape52(); }
  lemma Shape53() ensures AbsApply(B.ExpCall, [Tm(IdentTm), Tm(LParen), Nt(FuncRParamsOpt), Tm(RParen)]) == Some(ExprS) && Within(ExprS, NtShape(UnaryExp)) {}
  lemma Checks53() ensures RuleChecks(TableRuleAt(53)) { Shape53(); }
  lemma Shape54() ensures AbsApply(B.UnaryExpB, [Nt(UnaryOp), Nt(UnaryExp)]) == Some(ExprS) && Within(ExprS, NtShape(UnaryExp)) {}
  lemma Checks54() ensures RuleChecks(TableRuleAt(54)) { Shape54(); }
  lemma Shape55() ensures AbsApply(B.NoValue, [EpsSym]) == Some(MonoS) && Within(MonoS, NtShape(FuncRParamsOpt)) {}
  lemma Checks55() ensures RuleChecks(TableRuleAt(55)) { Shape55(); }
  lemma Shape56() ensures AbsApply(B.SingleForward, [Nt(FuncRParams)]) == Some(InitsS) && Within(InitsS, NtShape(FuncRParamsOpt)) {}
  lemma Checks56() ensures RuleChecks(TableRuleAt(56)) { Shape56(); }
  lemma Shape57() ensures AbsApply(B.UnaryPositive, [Tm(Plus)]) == Some(OpS) && Within(OpS, NtShape(UnaryOp)) {}
  lemma Checks57() ensures RuleChecks(TableRuleAt(57)) { Shape57(); }
  lemma Shape58() ensures AbsApply(B.UnaryNegative, [Tm(Minus)]) == Some(OpS) && Within(OpS, NtShape(UnaryOp)) {}
  lemma Checks58() ensures RuleChecks(TableRuleAt(58)) { Shape58(); }
  lemma Shape59() ensures AbsApply(B.UnaryNot, [Tm(Bang)]) == Some(OpS) && Within(OpS, NtShape(UnaryOp)) {}
  lemma Checks59() ensures RuleChecks(TableRuleAt(59)) { Shape59(); }
  lemma Shape60() ensures AbsApply(B.RParamsItem, [Nt(FuncRParam)]) == Some(InitsS) && Within(InitsS, NtShape(FuncRParams)) {}
  lemma Checks60() ensures RuleChecks(TableRuleAt(60)) { Shape60(); }
  lemma Shape61() ensures AbsApply(B.RParamsAppendArg, [Nt(FuncRParams), Tm(Comma), Nt(FuncRParam)]) == Some(InitsS) && Within(InitsS, NtShape(FuncRParams)) {}
  lemma Checks61() ensures RuleChecks(TableRuleAt(61)) { Shape61(); }
  lemma Shape62() ensures AbsApply(B.SingleForward, [Nt(Exp)]) == Some(ExprS) && Within(ExprS, NtShape(FuncRParam)) {}
  lemma Checks62() ensures RuleChecks(TableRuleAt(62)) { Shape62(); }
  lemma Shape63() ensures AbsApply(B.SingleForward, [Nt(UnaryExp)]) == Some(ExprS) && Within(ExprS, NtShape(MulExp)) {}
  lemma Checks63() ensures RuleChecks(TableRuleAt(63)) { Shape63(); }
  lemma Shape64() ensures AbsApply(B.Binary(Ast.Mul), [Nt(MulExp), Tm(Star), Nt(UnaryExp)]) == Some(ExprS) && Within(ExprS, NtShape(MulExp)) {}
  lemma Checks64() ensures RuleChecks(TableRuleAt(64)) { Shape64(); }
  lemma Shape65() ensures AbsApply(B.Binary(Ast.Div), [Nt(MulExp), Tm(Slash), Nt(UnaryExp)]) == Some(ExprS) && Within(ExprS, NtShape(MulExp)) {}
  lemma Checks65() ensures RuleChecks(TableRuleAt(65)) { Shape65(); }
  lemma Shape66() ensures AbsApply(B.Binary(Ast.Mod), [Nt(MulExp), Tm(Percent), Nt(UnaryExp)]) == Some(ExprS) && Within(ExprS, NtShape(MulExp)) {}
  lemma Checks66() ensures RuleChecks(TableRuleAt(66)) { Shape66(); }
  lemma Shape67() ensures AbsApply(B.SingleForward, [Nt(MulExp)]) == Some(ExprS) && Within(ExprS, NtShape(AddExp)) {}
  lemma Checks67() ensures RuleChecks(TableRuleAt(67)) { Shape67(); }
  lemma Shape68() ensures AbsApply(B.Binary(Ast.Add), [Nt(AddExp), Tm(Plus), Nt(MulExp)]) == Some(ExprS) && Within(ExprS, NtShape(AddExp)) {}
  lemma Checks68() ensures RuleChecks(TableRuleAt(68)) { Shape68(); }
  lemma Shape69() ensures AbsApply(B.Binary(Ast.Sub), [Nt(AddExp), Tm(Minus), Nt(MulExp)]) == Some(ExprS) && Within(ExprS, NtShape(AddExp)) {}
  lemma Checks69() ensures RuleChecks(TableRuleAt(69)) { Shape69(); }
  lemma Shape70() ensures AbsApply(B.SingleForward, [Nt(AddExp)]) == Some(ExprS) && Within(ExprS, NtShape(RelExp)) {}
  lemma Checks70() ensures RuleChecks(TableRuleAt(70)) { Shape70(); }
  lemma Shape71() ensures AbsApply(B.Binary(Ast.Lt), [Nt(RelExp), Tm(Less), Nt(AddExp)]) == Some(ExprS) && Within(ExprS, NtShape(RelExp)) {}
  lemma Checks71() ensures RuleChecks(TableRuleAt(71)) { Shape71(); }
  lemma Shape72() ensures AbsApply(B.Binary(Ast.Gt), [Nt(RelExp), Tm(Greater), Nt(AddExp)]) == Some(ExprS) && Within(ExprS, NtShape(RelExp)) {}
  lemma Checks72() ensures RuleChecks(TableRuleAt(72)) { Shape72(); }
  lemma Shape73() ensures AbsApply(B.Binary(Ast.Le), [Nt(RelExp), Tm(LessEq), Nt(AddExp)]) == Some(ExprS) && Within(ExprS, NtShape(RelExp)) {}
  lemma Checks73() ensures RuleChecks(TableRuleAt(73)) { Shape73(); }
  lemma Shape74() ensures AbsApply(B.Binary(Ast.Ge), [Nt(RelExp), Tm(GreaterEq), Nt(AddExp)]) == Some(ExprS) && Within(ExprS, NtShape(RelExp)) {}
  lemma Checks74() ensures RuleChecks(TableRuleAt(74)) { Shape74(); }
  lemma Shape75() ensures AbsApply(B.SingleForward, [Nt(RelExp)]) == Some(ExprS) && Within(ExprS, NtShape(EqExp)) {}
  lemma Checks75() ensures RuleChecks(TableRuleAt(75)) { Shape75(); }
  lemma Shape76() ensures AbsApply(B.Binary(Ast.Eq), [Nt(EqExp), Tm(EqEq), Nt(RelExp)]) == Some(ExprS) && Within(ExprS, NtShape(EqExp)) {}
  lemma Checks76() ensures RuleChecks(TableRuleAt(76)) { Shape76(); }
  lemma Shape77() ensures AbsApply(B.Binary(Ast.Neq), [Nt(EqExp), Tm(BangEq), Nt(RelExp)]) == Some(ExprS) && Within(ExprS, NtShape(EqExp)) {}
  lemma Checks77() ensures RuleChecks(TableRuleAt(77)) { Shape77(); }
  lemma Shape78() ensures AbsApply(B.SingleForward, [Nt(EqExp)]) == Some(ExprS) && Within(ExprS, NtShape(LAndExp)) {}
  lemma Checks78() ensures RuleChecks(TableRuleAt(78)) { Shape78(); }
  lemma Shape79() ensures AbsApply(B.Binary(Ast.And), [Nt(LAndExp), Tm(AndAnd), Nt(EqExp)]) == Some(ExprS) && Within(ExprS, NtShape(LAndExp)) {}
  lemma Checks79() ensures RuleChecks(TableRuleAt(79)) { Shape79(); }
  lemma Shape80() ensures AbsApply(B.SingleForward, [Nt(LAndExp)]) == Some(ExprS) && Within(ExprS, NtShape(LOrExp)) {}
  lemma Checks80() ensures RuleChecks(TableRuleAt(80)) { Shape80(); }
  lemma Shape81() ensures AbsApply(B.Binary(Ast.Or), [Nt(LOrExp), Tm(OrOr), Nt(LAndExp)]) == Some(ExprS) && Within(ExprS, NtShape(LOrExp)) {}
  lemma Checks81() ensures RuleChecks(TableRuleAt(81)) { Shape81(); }
  lemma Shape82() ensures AbsApply(B.SingleForward, [Nt(AddExp)]) == Some(ExprS) && Within(ExprS, NtShape(ConstExp)) {}
  lemma Checks82() ensures RuleChecks(TableRuleAt(82)) { Shape82(); }
  lemma Shape83() ensures AbsApply(B.SingleForward, [Tm(LiteralIntTm)]) == Some(IntS) && Within(IntS, NtShape(IntConst)) {}
  lemma Checks83() ensures RuleChecks(TableRuleAt(83)) { Shape83(); }
  lemma Shape84() ensures AbsApply(B.SingleForward, [Tm(IdentifierTm)]) == Some(AnyS) && Within(AnyS, NtShape(Ident)) {}
  lemma Checks84() ensures RuleChecks(TableRuleAt(84)) { Shape84(); }
  lemma Shape85() ensures AbsApply(B.SingleForward, [Tm(LiteralFloatTm)]) == Some(FloatS) && Within(FloatS, NtShape(FloatConst)) {}
  lemma Checks85() ensures RuleChecks(TableRuleAt(85)) { Shape85(); }

  lemma Fitting(v: Ast.SemVal, a: Shape, b: Shape)
    requires Fits(v, a) && Within(a, b)
    ensures Fits(v, b)
  {
  }

  /** As written, Stmt -> Block builds a block where a statement is expected. */
  lemma StmtBlockFailsCheck()
    ensures !RuleChecks(TableRuleAsWritten(StmtBlock))
  {
    assert TableRuleAsWritten(StmtBlock) == ARule(Stmt, [Nt(Block)], B.SingleForward);
  }

  /** As written, the argument-list append expects a list where the grammar supplies an expression. */
  lemma ArgAppendFailsCheck()
    ensures !RuleChecks(TableRuleAsWritten(ArgAppend))
  {
    assert TableRuleAsWritten(ArgAppend) == ARule(FuncRParams, [Nt(FuncRParams), Tm(Comma), Nt(FuncRParam)], B.RParamsAppend);
  }

  /**
   * The token a leaf shifts carries a value of its terminal's shape:
   * identifiers and `main` a string, integer literals an int, float literals
   * their text.
   */
  lemma TokenValueFits(tok: Tokens.Token, x: Terminal)
    requires (tok.ty, tok.category) in TokenMap && TokenMap[(tok.ty, tok.category)] == T(TermName(x))
    requires Ast.MakeSemantic(tok).Ok?
    ensures Fits(Ast.MakeSemantic(tok).value, TermShape(x))
  {
    TokenMapKeys(tok.ty, tok.category);
    if x == IdentTm {
      IdentTypes(tok.ty);
      KindValue(tok);
    } else if x == LiteralIntTm {
      LiteralIntType(tok.ty);
      KindValue(tok);
    } else if x == LiteralFloatTm {
      LiteralFloatType(tok.ty);
      KindValue(tok);
    }
  }

  /** Identifiers and `main` are read as names, integer literals as integers and float literals as floats. */
  lemma KindValue(tok: Tokens.Token)
    requires Ast.MakeSemantic(tok).Ok?
    ensures tok.ty.Identifier? || tok.ty.KwMain? ==> Ast.MakeSemantic(tok).value.Str?
    ensures tok.ty == Tokens.LiteralInt ==> Ast.MakeSemantic(tok).value.IntV?
    ensures tok.ty == Tokens.LiteralFloat ==> Ast.MakeSemantic(tok).value.FloatV?
  {
  }

  /** A parse tree: a shifted token, or a reduction by production `rule` over the subtrees of its body. */
  datatype ParseTree = Leaf(tok: Tokens.Token) | Node(rule: nat, kids: seq<ParseTree>)

  /** Production i of the table as written, or of the corrected table. */
  function Table(written: bool, i: nat): TableRule
    requires i < RuleCount
  {
    if written then TableRuleAsWritten(i) else TableRuleAt(i)
  }

  /**
   * The semantic value an LR parse computes for a tree: a leaf's token goes
   * through make_semantic, a reduction runs its production's builder on the
   * values of its subtrees, which are computed left to right. The first
   * failure (an out-of-range literal, or a builder reading the wrong
   * alternative) is the result.
   */
  function Eval(written: bool, t: ParseTree): Result<Ast.SemVal>
    decreases t, 1
  {
    match t
    case Leaf(tok) => Ast.MakeSemantic(tok)
    case Node(i, kids) =>
      if i >= RuleCount then Err("no such production")
      else
        match EvalKids(written, t, |kids|)
        case Err(m) => Err(m)
        case Ok(vals) =>
          var b := Table(written, i).action;
          if |vals| < B.Arity(b) then Err("too few values") else B.Apply(b, vals)
  }

  /** The values of the first n subtrees of a reduction, or the first failure among them. */
  function EvalKids(written: bool, t: ParseTree, n: nat): Result<seq<Ast.SemVal>>
    requires t.Node? && n <= |t.kids|
    decreases t, 0, n
  {
    if n == 0 then Ok([])
    else
      match EvalKids(written, t, n - 1)
      case Err(m) => Err(m)
      case Ok(vals) =>
        match Eval(written, t.kids[n - 1])
        case Err(m) => Err(m)
        case Ok(v) => Ok(vals + [v])
  }

  /** The values of the first n subtrees are computed exactly when each of them has one, and are those values in order. */
  lemma {:induction false} EvalKidsValues(written: bool, t: ParseTree, n: nat)
    requires t.Node? && n <= |t.kids|
    ensures EvalKids(written, t, n).Ok? <==> forall j :: 0 <= j < n ==> Eval(written, t.kids[j]).Ok?
    ensures EvalKids(written, t, n).Ok? ==>
      |EvalKids(written, t, n).value| == n && forall j :: 0 <= j < n ==> Eval(written, t.kids[j]) == Ok(EvalKids(written, t, n).value[j])
  {
    if n > 0 {
      EvalKidsValues(written, t, n - 1);
    }
  }

  /**
   * t is a parse tree for symbol s: a leaf is a token that init_token_map
   * maps to the terminal s; a node reduces by a production with head s whose
   * body the subtrees derive symbol by symbol (no subtrees for an epsilon body).
   */
  predicate Derives(s: TableSymbol, t: ParseTree)
    decreases t
  {
    match t
    case Leaf(tok) =>
      s.Tm? && (tok.ty, tok.category) in TokenMap && TokenMap[(tok.ty, tok.category)] == ToSymbol(s)
    case Node(i, kids) =>
      i < RuleCount && s == Nt(TableRuleAt(i).head) && |kids| == RhsLength(TableRuleAt(i).body)
      && (!IsEpsilonBody(TableRuleAt(i).body) ==> forall j :: 0 <= j < |kids| ==> Derives(TableRuleAt(i).body[j], kids[j]))
  }

  /** Every token of the tree has a semantic value: no integer literal makes stoi throw. */
  predicate LeavesOk(t: ParseTree)
    decreases t
  {
    match t
    case Leaf(tok) => Ast.MakeSemantic(tok).Ok?
    case Node(_, kids) => forall j :: 0 <= j < |kids| ==> LeavesOk(kids[j])
  }

  /**
   * Soundness of the corrected actions: on every parse tree of the grammar
   * whose literals are in range, evaluation succeeds (no bad_variant_access)
   * and yields a value of the shape of the tree's symbol.
   */
  lemma {:induction false} EvalSound(s: TableSymbol, t: ParseTree)
    requires Derives(s, t) && LeavesOk(t)
    ensures Eval(false, t).Ok? && Fits(Eval(false, t).value, SymShape(s))
    decreases t
  {
    match t
    case Leaf(tok) =>
      TokenValueFits(tok, s.t);
    case Node(i, kids) =>
      var r := TableRuleAt(i);
      forall j | 0 <= j < |kids|
        ensures Eval(false, kids[j]).Ok?
        ensures !IsEpsilonBody(r.body) ==> Fits(Eval(false, kids[j]).value, SymShape(r.body[j]))
      {
        EvalSound(r.body[j], kids[j]);
      }
      EvalKidsValues(false, t, |kids|);
      var vals := EvalKids(false, t, |kids|).value;
      TableChecks(i);
      AbsApplySound(r.action, r.body, vals);
      Fitting(B.Apply(r.action, vals).value, AbsApply(r.action, r.body).value, NtShape(r.head));
  }

  /** Evaluation succeeds only when every token has a semantic value. */
  lemma {:induction false} EvalOkLeaves(written: bool, t: ParseTree)
    requires Eval(written, t).Ok?
    ensures LeavesOk(t)
    decreases t
  {
    match t
    case Leaf(_) =>
    case Node(_, kids) =>
      EvalKidsValues(written, t, |kids|);
      forall j | 0 <= j < |kids|
        ensures LeavesOk(kids[j])
      {
        EvalOkLeaves(written, kids[j]);
      }
  }

  /** No reduction in t uses one of the two productions whose actions the correction changes. */
  predicate AvoidsCorrected(t: ParseTree)
    decreases t
  {
    match t
    case Leaf(_) => true
    case Node(i, kids) => i != StmtBlock && i != ArgAppend && forall j :: 0 <= j < |kids| ==> AvoidsCorrected(kids[j])
  }

  /** Elsewhere the correction changes nothing: trees avoiding the two productions evaluate alike under both tables. */
  lemma {:induction false} AsWrittenAgrees(t: ParseTree)
    requires AvoidsCorrected(t)
    ensures Eval(true, t) == Eval(false, t)
    decreases t
  {
    match t
    case Leaf(_) =>
    case Node(i, kids) =>
      forall j | 0 <= j < |kids|
        ensures Eval(true, kids[j]) == Eval(false, kids[j])
      {
        AsWrittenAgrees(kids[j]);
      }
      KidsAgree(t, |kids|);
      if i < RuleCount {
        AsWrittenDiffers(i);
      }
  }

  lemma {:induction false} KidsAgree(t: ParseTree, n: nat)
    requires t.Node? && n <= |t.kids|
    requires forall j :: 0 <= j < |t.kids| ==> Eval(true, t.kids[j]) == Eval(false, t.kids[j])
    ensures EvalKids(true, t, n) == EvalKids(false, t, n)
  {
    if n > 0 {
      KidsAgree(t, n - 1);
      assert Eval(true, t.kids[n - 1]) == Eval(false, t.kids[n - 1]);
    }
  }

  /** A reduction over one subtree applies the production's builder to that subtree's value. */
  lemma EvalSingle(written: bool, i: nat, k: ParseTree)
    requires i < RuleCount && Eval(written, k).Ok? && B.Arity(Table(written, i).action) <= 1
    ensures Eval(written, Node(i, [k])) == B.Apply(Table(written, i).action, [Eval(written, k).value])
  {
    var t := Node(i, [k]);
    assert t.kids[0] == k;
    assert EvalKids(written, t, 1).Ok? && EvalKids(written, t, 1).value == [Eval(written, k).value];
  }

  /** A reduction over two subtrees applies the production's builder to their two values. */
  lemma EvalPair(written: bool, i: nat, a: ParseTree, b: ParseTree)
    requires i < RuleCount && Eval(written, a).Ok? && Eval(written, b).Ok? && B.Arity(Table(written, i).action) <= 2
    ensures Eval(written, Node(i, [a, b])) == B.Apply(Table(written, i).action, [Eval(written, a).value, Eval(written, b).value])
  {
    var t := Node(i, [a, b]);
    assert t.kids[0] == a && t.kids[1] == b;
    assert EvalKids(written, t, 1).Ok? && EvalKids(written, t, 1).value == [Eval(written, a).value];
    assert EvalKids(written, t, 2).Ok? && EvalKids(written, t, 2).value == [Eval(written, a).value, Eval(written, b).value];
  }

  /** A subtree under a production whose body is the single symbol it derives. */
  lemma DerivesSingle(i: nat, k: ParseTree)
    requires i < RuleCount && |TableRuleAt(i).body| == 1 && TableRuleAt(i).body[0] != EpsSym
    requires Derives(TableRuleAt(i).body[0], k) && LeavesOk(k)
    ensures Derives(Nt(TableRuleAt(i).head), Node(i, [k])) && LeavesOk(Node(i, [k]))
  {
    assert Node(i, [k]).kids[0] == k;
  }

  /** Two subtrees under a production whose body is the two symbols they derive. */
  lemma DerivesPair(i: nat, a: ParseTree, b: ParseTree)
    requires i < RuleCount && |TableRuleAt(i).body| == 2
    requires Derives(TableRuleAt(i).body[0], a) && LeavesOk(a)
    requires Derives(TableRuleAt(i).body[1], b) && LeavesOk(b)
    ensures Derives(Nt(TableRuleAt(i).head), Node(i, [a, b])) && LeavesOk(Node(i, [a, b]))
  {
    assert Node(i, [a, b]).kids[0] == a && Node(i, [a, b]).kids[1] == b;
  }

  /** A token of type SepLBrace is a parse tree for `{`. */
  lemma LBraceLeaf(lb: Tokens.Token)
    requires lb.ty == Tokens.SepLBrace && lb.category == Tokens.Separators
    ensures Derives(Tm(LBrace), Leaf(lb)) && LeavesOk(Leaf(lb))
  {
    assert TerminalFor(Tokens.SepLBrace) == Some((Tokens.Separators, T("{")));
    assert ToSymbol(Tm(LBrace)) == T("{");
    LeafOf(lb, LBrace);
  }

  /** A token of type SepRBrace is a parse tree for `}`. */
  lemma RBraceLeaf(rb: Tokens.Token)
    requires rb.ty == Tokens.SepRBrace && rb.category == Tokens.Separators
    ensures Derives(Tm(RBrace), Leaf(rb)) && LeavesOk(Leaf(rb))
  {
    assert TerminalFor(Tokens.SepRBrace) == Some((Tokens.Separators, T("}")));
    assert ToSymbol(Tm(RBrace)) == T("}");
    LeafOf(rb, RBrace);
  }

  /** A token whose type init_token_map lists, under its category, with terminal x is a parse tree for x. */
  lemma LeafOf(tok: Tokens.Token, x: Terminal)
    requires TerminalFor(tok.ty) == Some((tok.category, ToSymbol(Tm(x))))
    ensures Derives(Tm(x), Leaf(tok))
  {
    TokenMapKeys(tok.ty, tok.category);
  }

  /** The tree of `{ }` used as a statement of a block. */
  function EmptyBlockItem(lb: Tokens.Token, rb: Tokens.Token): ParseTree
  {
    Node(35, [Node(StmtBlock, [Node(30, [Leaf(lb), Leaf(rb)])])])
  }

  /** `{ }` is a parse tree for Block. */
  lemma EmptyBlockTree(lb: Tokens.Token, rb: Tokens.Token)
    requires lb.ty == Tokens.SepLBrace && lb.category == Tokens.Separators
    requires rb.ty == Tokens.SepRBrace && rb.category == Tokens.Separators
    ensures Derives(Nt(Block), Node(30, [Leaf(lb), Leaf(rb)])) && LeavesOk(Node(30, [Leaf(lb), Leaf(rb)]))
  {
    LBraceLeaf(lb);
    RBraceLeaf(rb);
    assert TableRuleAt(30) == ARule(Block, [Tm(LBrace), Tm(RBrace)], B.BlockEmpty);
    DerivesPair(30, Leaf(lb), Leaf(rb));
  }

  lemma EmptyBlockDerives(lb: Tokens.Token, rb: Tokens.Token)
    requires lb.ty == Tokens.SepLBrace && lb.category == Tokens.Separators
    requires rb.ty == Tokens.SepRBrace && rb.category == Tokens.Separators
    ensures Derives(Nt(BlockItem), EmptyBlockItem(lb, rb)) && LeavesOk(EmptyBlockItem(lb, rb))
  {
    var blk := Node(30, [Leaf(lb), Leaf(rb)]);
    EmptyBlockTree(lb, rb);
    assert TableRuleAt(StmtBlock) == ARule(Stmt, [Nt(Block)], B.BlockAsStmt);
    DerivesSingle(StmtBlock, blk);
    assert TableRuleAt(35) == ARule(BlockItem, [Nt(Stmt)], B.BlockItemStmt);
    DerivesSingle(35, Node(StmtBlock, [blk]));
  }

  /** An empty block evaluates to the empty block under either table. */
  lemma EmptyBlockValue(written: bool, lb: Tokens.Token, rb: Tokens.Token)
    requires lb.ty == Tokens.SepLBrace && rb.ty == Tokens.SepRBrace
    ensures Eval(written, Node(30, [Leaf(lb), Leaf(rb)])) == Ok(Ast.BlockV([]))
  {
    BraceValues(written, lb, rb);
    BlockActions(written);
    EvalPair(written, 30, Leaf(lb), Leaf(rb));
  }

  /** A brace token carries no value. */
  lemma BraceValues(written: bool, lb: Tokens.Token, rb: Tokens.Token)
    requires lb.ty == Tokens.SepLBrace && rb.ty == Tokens.SepRBrace
    ensures Eval(written, Leaf(lb)) == Ok(Ast.Mono) && Eval(written, Leaf(rb)) == Ok(Ast.Mono)
  {
  }

  /** The builders of Block -> { }, BlockItem -> Stmt and Stmt -> Block in the two tables. */
  lemma BlockActions(written: bool)
    ensures Table(written, 30).action == B.BlockEmpty && Table(written, 35).action == B.BlockItemStmt
    ensures Table(true, StmtBlock).action == B.SingleForward && Table(false, StmtBlock).action == B.BlockAsStmt
  {
  }

  /** As written, Stmt -> Block forwards an empty block unchanged. */
  lemma EmptyBlockForwarded(lb: Tokens.Token, rb: Tokens.Token)
    requires lb.ty == Tokens.SepLBrace && rb.ty == Tokens.SepRBrace
    ensures Eval(true, Node(StmtBlock, [Node(30, [Leaf(lb), Leaf(rb)])])) == Ok(Ast.BlockV([]))
  {
    EmptyBlockValue(true, lb, rb);
    BlockActions(true);
    EvalSingle(true, StmtBlock, Node(30, [Leaf(lb), Leaf(rb)]));
  }

  /** Corrected, Stmt -> Block wraps an empty block as a block statement. */
  lemma EmptyBlockWrapped(lb: Tokens.Token, rb: Tokens.Token)
    requires lb.ty == Tokens.SepLBrace && rb.ty == Tokens.SepRBrace
    ensures Eval(false, Node(StmtBlock, [Node(30, [Leaf(lb), Leaf(rb)])])) == Ok(Ast.StmtV(Ast.BlockStmt([])))
  {
    EmptyBlockValue(false, lb, rb);
    BlockActions(false);
    EvalSingle(false, StmtBlock, Node(30, [Leaf(lb), Leaf(rb)]));
  }

  /** As written, the block reaches BlockItem -> Stmt unwrapped, and the item builder rejects it. */
  lemma StmtBlockAsWritten(lb: Tokens.Token, rb: Tokens.Token)
    requires lb.ty == Tokens.SepLBrace && rb.ty == Tokens.SepRBrace
    ensures Eval(true, EmptyBlockItem(lb, rb)) == Err(B.BadVariant)
  {
    EmptyBlockForwarded(lb, rb);
    BlockActions(true);
    EvalSingle(true, 35, Node(StmtBlock, [Node(30, [Leaf(lb), Leaf(rb)])]));
  }

  /** Corrected, the block is wrapped as a block statement and becomes a block item. */
  lemma StmtBlockCorrected(lb: Tokens.Token, rb: Tokens.Token)
    requires lb.ty == Tokens.SepLBrace && rb.ty == Tokens.SepRBrace
    ensures Eval(false, EmptyBlockItem(lb, rb)) == Ok(Ast.ItemV(Ast.StmtItem(Ast.BlockStmt([]))))
  {
    EmptyBlockWrapped(lb, rb);
    BlockActions(false);
    EvalSingle(false, 35, Node(StmtBlock, [Node(30, [Leaf(lb), Leaf(rb)])]));
  }

  /**
   * `{ }` used as a statement of a block: a parse the as-written actions
   * reject with bad_variant_access, and the corrected ones turn into an
   * empty block statement.
   */
  lemma StmtBlockCounterexample(lb: Tokens.Token, rb: Tokens.Token)
    requires lb.ty == Tokens.SepLBrace && lb.category == Tokens.Separators
    requires rb.ty == Tokens.SepRBrace && rb.category == Tokens.Separators
    ensures Derives(Nt(BlockItem), EmptyBlockItem(lb, rb)) && LeavesOk(EmptyBlockItem(lb, rb))
    ensures Eval(true, EmptyBlockItem(lb, rb)) == Err(B.BadVariant)
    ensures Eval(false, EmptyBlockItem(lb, rb)) == Ok(Ast.ItemV(Ast.StmtItem(Ast.BlockStmt([]))))
  {
    EmptyBlockDerives(lb, rb);
    StmtBlockAsWritten(lb, rb);
    StmtBlockCorrected(lb, rb);
  }


  /** Three subtrees under a production whose body is the three symbols they derive. */
  lemma DerivesTriple(i: nat, a: ParseTree, b: ParseTree, c: ParseTree)
    requires i < RuleCount && |TableRuleAt(i).body| == 3
    requires Derives(TableRuleAt(i).body[0], a) && LeavesOk(a)
    requires Derives(TableRuleAt(i).body[1], b) && LeavesOk(b)
    requires Derives(TableRuleAt(i).body[2], c) && LeavesOk(c)
    ensures Derives(Nt(TableRuleAt(i).head), Node(i, [a, b, c])) && LeavesOk(Node(i, [a, b, c]))
  {
    var t := Node(i, [a, b, c]);
    assert t.kids[0] == a && t.kids[1] == b && t.kids[2] == c;
  }

  /** A reduction over three subtrees applies the production's builder to their values, in order. */
  lemma EvalTriple(written: bool, i: nat, a: ParseTree, b: ParseTree, c: ParseTree)
    requires i < RuleCount && B.Arity(Table(written, i).action) <= 3
    requires Eval(written, a).Ok? && Eval(written, b).Ok? && Eval(written, c).Ok?
    ensures Eval(written, Node(i, [a, b, c]))
      == B.Apply(Table(written, i).action, [Eval(written, a).value, Eval(written, b).value, Eval(written, c).value])
  {
    var t := Node(i, [a, b, c]);
    assert t.kids[0] == a && t.kids[1] == b && t.kids[2] == c;
    assert EvalKids(written, t, 1).Ok? && EvalKids(written, t, 1).value == [Eval(written, a).value];
    assert EvalKids(written, t, 2).Ok? && EvalKids(written, t, 2).value == [Eval(written, a).value, Eval(written, b).value];
    assert EvalKids(written, t, 3).Ok?
      && EvalKids(written, t, 3).value == [Eval(written, a).value, Eval(written, b).value, Eval(written, c).value];
  }

  /** Every parse tree for a real-parameter list evaluates to a list of wrapped arguments. */
  lemma ArgListValue(args: ParseTree)
    requires Derives(Nt(FuncRParams), args) && LeavesOk(args)
    ensures Eval(false, args).Ok? && Eval(false, args).value.InitsV?
  {
    EvalSound(Nt(FuncRParams), args);
    FitsList(Eval(false, args).value);
  }

  lemma FitsList(v: Ast.SemVal)
    requires Fits(v, SymShape(Nt(FuncRParams)))
    ensures v.InitsV?
  {
  }

  /** Every parse tree for a real parameter evaluates to an expression. */
  lemma ArgValue(arg: ParseTree)
    requires Derives(Nt(FuncRParam), arg) && LeavesOk(arg)
    ensures Eval(false, arg).Ok? && Eval(false, arg).value.ExprV?
  {
    EvalSound(Nt(FuncRParam), arg);
    FitsExpr(Eval(false, arg).value);
  }

  lemma FitsExpr(v: Ast.SemVal)
    requires Fits(v, SymShape(Nt(FuncRParam)))
    ensures v.ExprV?
  {
  }

  /**
   * As written, appending an argument to an argument list reads the
   * argument's expression as a list and throws. The operands are any parse
   * trees for the list so far and the next argument that do not themselves
   * use a corrected production, so every call with two or more arguments
   * fails.
   */
  lemma ArgAppendAsWritten(args: ParseTree, comma: ParseTree, arg: ParseTree)
    requires Derives(Nt(FuncRParams), args) && LeavesOk(args) && AvoidsCorrected(args)
    requires comma.Leaf? && Ast.MakeSemantic(comma.tok).Ok?
    requires Derives(Nt(FuncRParam), arg) && LeavesOk(arg) && AvoidsCorrected(arg)
    ensures Eval(true, Node(ArgAppend, [args, comma, arg])) == Err(B.BadVariant)
  {
    ArgListValue(args);
    ArgValue(arg);
    AsWrittenAgrees(args);
    AsWrittenAgrees(arg);
    ArgAppendEval(true, args, comma, arg);
  }

  /** Corrected, the argument's expression is appended to the list. */
  lemma ArgAppendCorrected(args: ParseTree, comma: ParseTree, arg: ParseTree)
    requires Derives(Nt(FuncRParams), args) && LeavesOk(args)
    requires comma.Leaf? && Ast.MakeSemantic(comma.tok).Ok?
    requires Derives(Nt(FuncRParam), arg) && LeavesOk(arg)
    ensures Eval(false, args).Ok? && Eval(false, args).value.InitsV? && Eval(false, arg).Ok? && Eval(false, arg).value.ExprV?
    ensures Eval(false, Node(ArgAppend, [args, comma, arg]))
      == Ok(Ast.InitsV(Eval(false, args).value.inits + [Ast.VarInit("", Eval(false, arg).value.expr)]))
  {
    ArgListValue(args);
    ArgValue(arg);
    ArgAppendEval(false, args, comma, arg);
  }

  /** The append reduction on an evaluated list and argument: rejected as written, appended when corrected. */
  lemma ArgAppendEval(written: bool, args: ParseTree, comma: ParseTree, arg: ParseTree)
    requires Eval(written, args).Ok? && Eval(written, args).value.InitsV?
    requires comma.Leaf? && Ast.MakeSemantic(comma.tok).Ok?
    requires Eval(written, arg).Ok? && Eval(written, arg).value.ExprV?
    ensures written ==> Eval(true, Node(ArgAppend, [args, comma, arg])) == Err(B.BadVariant)
    ensures !written ==>
      Eval(false, Node(ArgAppend, [args, comma, arg])) == Ok(Ast.InitsV(Eval(false, args).value.inits + [Ast.VarInit("", Eval(false, arg).value.expr)]))
  {
    ArgAppendActions();
    ApplyArgAppend(Eval(written, args).value, Eval(written, comma).value, Eval(written, arg).value);
    EvalTriple(written, ArgAppend, args, comma, arg);
  }

  /** The builders of the argument-list append, as written and corrected. */
  lemma ArgAppendActions()
    ensures Table(true, ArgAppend).action == B.RParamsAppend && Table(false, ArgAppend).action == B.RParamsAppendArg
  {
  }

  /** On a list and an expression, the builder as written rejects the expression; the corrected one appends it. */
  lemma ApplyArgAppend(list: Ast.SemVal, comma: Ast.SemVal, arg: Ast.SemVal)
    requires list.InitsV? && arg.ExprV?
    ensures B.Apply(B.RParamsAppend, [list, comma, arg]) == Err(B.BadVariant)
    ensures B.Apply(B.RParamsAppendArg, [list, comma, arg]) == Ok(Ast.InitsV(list.inits + [Ast.VarInit("", arg.expr)]))
  {
  }

  /** Appending an argument to a parse tree for an argument list gives a parse tree for an argument list. */
  lemma ArgAppendTree(args: ParseTree, comma: ParseTree, arg: ParseTree)
    requires Derives(Nt(FuncRParams), args) && LeavesOk(args)
    requires Derives(Tm(Comma), comma) && LeavesOk(comma)
    requires Derives(Nt(FuncRParam), arg) && LeavesOk(arg)
    ensures Derives(Nt(FuncRParams), Node(ArgAppend, [args, comma, arg])) && LeavesOk(Node(ArgAppend, [args, comma, arg]))
  {
    ArgAppendRule();
    DerivesTriple(ArgAppend, args, comma, arg);
  }

  lemma ArgAppendRule()
    ensures TableRuleAt(ArgAppend).head == FuncRParams && |TableRuleAt(ArgAppend).body| == 3
    ensures TableRuleAt(ArgAppend).body[0] == Nt(FuncRParams)
    ensures TableRuleAt(ArgAppend).body[1] == Tm(Comma)
    ensures TableRuleAt(ArgAppend).body[2] == Nt(FuncRParam)
  {
  }
}
