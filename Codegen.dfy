// The parts of src/ast/ast_codegen.cpp that do not emit IR: constant
// folding of integer expressions (eval_int_constant), the symbol tables of
// CodegenContext (the scope chain, the function table, block naming) and
// ScopeGuard. The IR module is reduced to what these operations record in
// it: the names of the functions created in it, and the blocks created,
// with the function that owns each.
module Codegen {
  import opened Common
  import opened Ast
  import Decimal

  const TWO_32: int := 0x1_0000_0000

  /** The 32-bit two's complement reading of x: what an `int` holds after wrap-around. */
  function Wrap32(x: int): (r: int)
    ensures IsInt32(r) && (x - r) % TWO_32 == 0
    ensures IsInt32(x) ==> r == x
  {
    (x - INT_MIN) % TWO_32 + INT_MIN
  }

  function Abs(x: int): nat { if x < 0 then -x else x }

  /** C++ `/` on integers: the quotient rounded toward zero. */
  function TruncDiv(a: int, b: int): int
    requires b != 0
  {
    var q := Abs(a) / Abs(b);
    if (a < 0) == (b < 0) then q else -q
  }

  /** C++ `%` on integers: the remainder takes the sign of the dividend. */
  function TruncMod(a: int, b: int): int
    requires b != 0
  {
    var m := Abs(a) % Abs(b);
    if a < 0 then -m else m
  }

  /**
   * The rule C++ states for `/` and `%`: `(a / b) * b + a % b == a`, the
   * remainder is smaller than the divisor in magnitude and is zero or has
   * the sign of the dividend.
   */
  lemma TruncDivMod(a: int, b: int)
    requires b != 0
    ensures TruncDiv(a, b) * b + TruncMod(a, b) == a
    ensures Abs(TruncMod(a, b)) < Abs(b)
    ensures TruncMod(a, b) == 0 || (TruncMod(a, b) < 0 <==> a < 0)
  {
    var q := Abs(a) / Abs(b);
    var m := Abs(a) % Abs(b);
    assert q * Abs(b) + m == Abs(a);
    if (a < 0) == (b < 0) {
      SignedProduct(q, b);
    } else {
      SignedProduct(-q, b);
    }
  }

  lemma SignedProduct(x: int, b: int)
    ensures x * b == if b < 0 then -(x * Abs(b)) else x * Abs(b)
  {
  }

  /** The quotient of two `int`s is an `int`, except for `INT_MIN / -1`. */
  lemma QuotientFits(l: int, r: int)
    requires IsInt32(l) && IsInt32(r) && r != 0 && !(l == INT_MIN && r == -1)
    ensures IsInt32(TruncDiv(l, r))
  {
    var q := Abs(l) / Abs(r);
    if Abs(r) == 1 {
      assert q == Abs(l);
    } else {
      QuotientHalf(Abs(l), Abs(r));
    }
  }

  /** Dividing by two or more at least halves. */
  lemma QuotientHalf(a: nat, b: nat)
    requires b >= 2
    ensures 2 * (a / b) <= a
  {
    var q := a / b;
    assert q * b <= a;
    MulMonotone(q, 2, b);
  }

  lemma MulMonotone(q: nat, b: nat, c: nat)
    requires b <= c
    ensures q * b <= q * c
  {
  }

  /** The remainder of two `int`s is an `int`. */
  lemma RemainderFits(l: int, r: int)
    requires IsInt32(l) && IsInt32(r) && r != 0
    ensures IsInt32(TruncMod(l, r))
  {
    TruncDivMod(l, r);
  }

  /** One binary operator applied to two folded operands, as `int` arithmetic does it. */
  function FoldBinary(op: BasicOp, l: int, r: int): (v: int)
    ensures op in {Lt, Gt, Le, Ge, Eq, Neq, And, Or} ==> v == 0 || v == 1
    ensures IsInt32(l) && IsInt32(r) ==> IsInt32(v)
  {
    match op
    case Add => Wrap32(l + r)
    case Sub => Wrap32(l - r)
    case Mul => Wrap32(l * r)
    case Div => if r == 0 then 0 else Wrap32(TruncDiv(l, r))
    case Mod => if r == 0 then 0 else Wrap32(TruncMod(l, r))
    case Lt => if l < r then 1 else 0
    case Gt => if l > r then 1 else 0
    case Le => if l <= r then 1 else 0
    case Ge => if l >= r then 1 else 0
    case Eq => if l == r then 1 else 0
    case Neq => if l != r then 1 else 0
    case And => if l != 0 && r != 0 then 1 else 0
    case Or => if l != 0 || r != 0 then 1 else 0
  }

  /** Every integer literal of e holds an `int`, as the literals `stoi` produces do. */
  predicate Int32Literals(e: Expr) {
    match e
    case LiteralInt(v) => IsInt32(v)
    case UnaryExpr(_, operand) => Int32Literals(operand)
    case BinaryExpr(_, lhs, rhs) => Int32Literals(lhs) && Int32Literals(rhs)
    case _ => true
  }

  /**
   * eval_int_constant: the value of an expression built from integer
   * literals with unary and binary operators, in `int` arithmetic; both
   * operands are folded before the operator is looked at, so `&&` and `||`
   * do not short-circuit. Division or remainder by zero folds to 0; any
   * other expression (identifier, call, float literal, null) is not
   * constant.
   */
  function EvalIntConstant(e: Expr): (r: Option<int>)
    ensures Int32Literals(e) && r.Some? ==> IsInt32(r.value)
  {
    match e
    case LiteralInt(v) => Some(v)
    case UnaryExpr(op, operand) =>
      (match EvalIntConstant(operand)
       case None => None
       case Some(v) =>
         match op
         case Positive => Some(v)
         case Negative => Some(Wrap32(-v))
         case LogicalNot => Some(if v == 0 then 1 else 0))
    case BinaryExpr(op, lhs, rhs) =>
      var l := EvalIntConstant(lhs);
      var r := EvalIntConstant(rhs);
      if l.None? || r.None? then None else Some(FoldBinary(op, l.value, r.value))
    case _ => None
  }

  /** The expressions eval_int_constant folds: integer literals under unary and binary operators. */
  predicate IsIntConstant(e: Expr) {
    match e
    case LiteralInt(_) => true
    case UnaryExpr(_, operand) => IsIntConstant(operand)
    case BinaryExpr(_, lhs, rhs) => IsIntConstant(lhs) && IsIntConstant(rhs)
    case _ => false
  }

  /** Folding succeeds exactly on the constant expressions. */
  lemma {:induction false} EvalIntConstantDefined(e: Expr)
    ensures EvalIntConstant(e).Some? <==> IsIntConstant(e)
  {
    match e
    case UnaryExpr(_, operand) => EvalIntConstantDefined(operand);
    case BinaryExpr(_, lhs, rhs) =>
      EvalIntConstantDefined(lhs);
      EvalIntConstantDefined(rhs);
    case _ =>
  }

  /** Expressions built from literals with `+`, `-` and `*` only (and unary `+` and `-`). */
  predicate RingExpr(e: Expr) {
    match e
    case LiteralInt(_) => true
    case UnaryExpr(op, operand) => op != LogicalNot && RingExpr(operand)
    case BinaryExpr(op, lhs, rhs) => op in {Add, Sub, Mul} && RingExpr(lhs) && RingExpr(rhs)
    case _ => false
  }

  /** The value of a ring expression over the unbounded integers. */
  function MathValue(e: Expr): int
    requires RingExpr(e)
  {
    match e
    case LiteralInt(v) => v
    case UnaryExpr(op, operand) => if op == Negative then -MathValue(operand) else MathValue(operand)
    case BinaryExpr(op, lhs, rhs) =>
      if op == Add then MathValue(lhs) + MathValue(rhs)
      else if op == Sub then MathValue(lhs) - MathValue(rhs)
      else MathValue(lhs) * MathValue(rhs)
  }

  lemma WrapCongruent(x: int, y: int)
    requires (x - y) % TWO_32 == 0
    ensures Wrap32(x) == Wrap32(y)
  {
    var k := (x - y) / TWO_32;
    assert x - INT_MIN == (y - INT_MIN) + k * TWO_32;
  }

  lemma MulCongruent(a: int, b: int, a': int, b': int)
    requires (a - a') % TWO_32 == 0 && (b - b') % TWO_32 == 0
    ensures (a * b - a' * b') % TWO_32 == 0
  {
    var i := (a - a') / TWO_32;
    var j := (b - b') / TWO_32;
    assert a == a' + i * TWO_32 && b == b' + j * TWO_32;
    assert a * b - a' * b' == (a' * j + b' * i + i * j * TWO_32) * TWO_32;
  }

  /** One ring operator on wrapped operands wraps the true result. */
  lemma FoldRingStep(op: BasicOp, a: int, b: int)
    requires op in {Add, Sub, Mul}
    ensures FoldBinary(op, Wrap32(a), Wrap32(b)) ==
      Wrap32(if op == Add then a + b else if op == Sub then a - b else a * b)
  {
    if op == Add {
      AddStep(a, b);
    } else if op == Sub {
      SubStep(a, b);
    } else {
      MulStep(a, b);
    }
  }

  lemma AddStep(a: int, b: int)
    ensures Wrap32(Wrap32(a) + Wrap32(b)) == Wrap32(a + b)
  {
    WrapCongruent(Wrap32(a) + Wrap32(b), a + b);
  }

  lemma SubStep(a: int, b: int)
    ensures Wrap32(Wrap32(a) - Wrap32(b)) == Wrap32(a - b)
  {
    WrapCongruent(Wrap32(a) - Wrap32(b), a - b);
  }

  lemma MulStep(a: int, b: int)
    ensures Wrap32(Wrap32(a) * Wrap32(b)) == Wrap32(a * b)
  {
    MulCongruent(Wrap32(a), Wrap32(b), a, b);
    WrapCongruent(Wrap32(a) * Wrap32(b), a * b);
  }

  lemma NegateStep(a: int)
    ensures Wrap32(-Wrap32(a)) == Wrap32(-a)
  {
    WrapCongruent(-Wrap32(a), -a);
  }

  /**
   * On literals of `int` width, folding with `+`, `-` and `*` gives the
   * true value reduced to 32 bits: wrap-around at each step is the same as
   * wrap-around once at the end.
   */
  lemma {:induction false} FoldIsWrappedValue(e: Expr)
    requires RingExpr(e) && Int32Literals(e)
    ensures EvalIntConstant(e) == Some(Wrap32(MathValue(e)))
  {
    match e
    case LiteralInt(v) =>
    case UnaryExpr(op, operand) =>
      FoldIsWrappedValue(operand);
      NegateStep(MathValue(operand));
    case BinaryExpr(op, lhs, rhs) =>
      FoldIsWrappedValue(lhs);
      FoldIsWrappedValue(rhs);
      FoldRingStep(op, MathValue(lhs), MathValue(rhs));
  }

  /**
   * Folding `/` and `%` on `int` operands: a zero divisor gives 0 for both;
   * otherwise, away from the one overflowing quotient `INT_MIN / -1`, the
   * folded quotient and remainder satisfy the C++ division rule.
   */
  lemma FoldDivMod(l: int, r: int)
    requires IsInt32(l) && IsInt32(r)
    ensures r == 0 ==> FoldBinary(Div, l, r) == 0 && FoldBinary(Mod, l, r) == 0
    ensures r != 0 && !(l == INT_MIN && r == -1) ==>
      FoldBinary(Div, l, r) * r + FoldBinary(Mod, l, r) == l
      && Abs(FoldBinary(Mod, l, r)) < Abs(r)
      && (FoldBinary(Mod, l, r) == 0 || (FoldBinary(Mod, l, r) < 0 <==> l < 0))
  {
    if r != 0 && !(l == INT_MIN && r == -1) {
      TruncDivMod(l, r);
      QuotientFits(l, r);
      RemainderFits(l, r);
    }
  }

  /** Binding: the address of a variable's storage, its type, and whether it is const and global. */
  datatype Binding = Binding(address: nat, ty: BasicType, isConst: bool, isGlobal: bool)

  /** FunctionInfo: the function created in the module (its position there), its return and parameter types. */
  datatype FunctionInfo = FunctionInfo(handle: nat, returnType: BasicType, paramTypes: seq<BasicType>)

  /** A basic block created in the module: the base name it was asked for and the function it belongs to. */
  datatype Block = Block(base: string, owner: nat)

  type Scope = map<string, Binding>

  /** What the scope chain says about name: its binding in the innermost scope that holds it. */
  function Resolve(scopes: seq<Scope>, name: string): Option<Binding>
    decreases |scopes|
  {
    if scopes == [] then None
    else if name in scopes[|scopes| - 1] then Some(scopes[|scopes| - 1][name])
    else Resolve(scopes[..|scopes| - 1], name)
  }

  /**
   * Resolve finds b exactly when some scope binds name to b and no scope
   * inside that one binds name at all.
   */
  lemma {:induction false} ResolveInnermost(scopes: seq<Scope>, name: string, b: Binding)
    ensures Resolve(scopes, name) == Some(b) <==>
      exists i :: 0 <= i < |scopes| && name in scopes[i] && scopes[i][name] == b
        && forall j :: i < j < |scopes| ==> name !in scopes[j]
    decreases |scopes|
  {
    if scopes != [] {
      var n := |scopes| - 1;
      var init := scopes[..n];
      ResolveInnermost(init, name, b);
      if name in scopes[n] {
        if scopes[n][name] == b {
          assert name in scopes[n] && scopes[n][name] == b && n + 1 == |scopes|;
        } else {
          forall i | 0 <= i < |scopes| && name in scopes[i] && scopes[i][name] == b
            ensures exists j :: i < j < |scopes| && name in scopes[j]
          {
            assert i < n && name in scopes[n];
          }
        }
      } else {
        if Resolve(scopes, name) == Some(b) {
          var i :| 0 <= i < |init| && name in init[i] && init[i][name] == b
            && forall j :: i < j < |init| ==> name !in init[j];
          assert name in scopes[i] && scopes[i][name] == b;
          assert forall j :: i < j < |scopes| ==> name !in scopes[j] by {
            forall j | i < j < |scopes| ensures name !in scopes[j] {
              if j < n {
                assert scopes[j] == init[j];
              }
            }
          }
        } else {
          forall i | 0 <= i < |scopes| && name in scopes[i] && scopes[i][name] == b
            ensures exists j :: i < j < |scopes| && name in scopes[j]
          {
            assert i < n && init[i] == scopes[i];
            if forall j :: i < j < |init| ==> name !in init[j] {
              assert false;
            }
            var j :| i < j < |init| && name in init[j];
            assert scopes[j] == init[j];
          }
        }
      }
    }
  }

  /** An inner scope shadows the outer ones for the names it binds and defers to them for the rest. */
  lemma InnerScope(scopes: seq<Scope>, inner: Scope, name: string)
    ensures Resolve(scopes + [inner], name) == if name in inner then Some(inner[name]) else Resolve(scopes, name)
  {
    assert (scopes + [inner])[..|scopes|] == scopes;
  }

  /** The name a block gets: the base name, a dot, and the block counter in decimal. */
  function BlockName(base: string, n: nat): string {
    base + "." + Decimal.IntToString(n)
  }

  /** The characters after the last dot of s (all of s when it has no dot). */
  function AfterLastDot(s: string): string
    decreases |s|
  {
    if s == [] then []
    else if s[|s| - 1] == '.' then []
    else AfterLastDot(s[..|s| - 1]) + [s[|s| - 1]]
  }

  lemma {:induction false} AfterLastDotSuffix(p: string, t: string)
    requires forall j :: 0 <= j < |t| ==> t[j] != '.'
    ensures AfterLastDot(p + "." + t) == t
    decreases |t|
  {
    var s := p + "." + t;
    if t == [] {
      assert s[|s| - 1] == '.';
    } else {
      var t' := t[..|t| - 1];
      assert s[..|s| - 1] == p + "." + t';
      AfterLastDotSuffix(p, t');
      assert t == t' + [t[|t| - 1]];
    }
  }

  /** Blocks created under different counter values have different names, whatever their base names. */
  lemma BlockNamesDistinct(b1: string, n1: nat, b2: string, n2: nat)
    requires n1 != n2
    ensures BlockName(b1, n1) != BlockName(b2, n2)
  {
    var d1, d2 := Decimal.IntToString(n1), Decimal.IntToString(n2);
    Decimal.IntToStringInjective(n1, n2);
    assert forall j :: 0 <= j < |d1| ==> d1[j] != '.' by {
      assert Decimal.AllDigits(d1);
    }
    assert forall j :: 0 <= j < |d2| ==> d2[j] != '.' by {
      assert Decimal.AllDigits(d2);
    }
    AfterLastDotSuffix(b1, d1);
    AfterLastDotSuffix(b2, d2);
  }

  /** The parameter types of a definition, in order. */
  function ParamTypes(params: seq<Param>): (r: seq<BasicType>)
    ensures |r| == |params| && forall i :: 0 <= i < |params| ==> r[i] == params[i].ty
  {
    if params == [] then [] else [params[0].ty] + ParamTypes(params[1..])
  }

  class CodegenContext {
    /** The scope stack, outermost first. */
    var scopes: seq<Scope>
    /** The function table, by name. */
    var functions: map<string, FunctionInfo>
    /** The counter that numbers the blocks. */
    var blockSeq: int
    /** The function being generated, if any (its position among the module's functions). */
    var currentFunction: Option<nat>
    /** The names of the functions created in the module, in creation order. */
    var moduleFunctions: seq<string>
    /** The blocks created in the module; block i was numbered i. */
    var blocks: seq<Block>

    /** The counter has numbered exactly the blocks created so far. */
    predicate Valid()
      reads this
    {
      blockSeq == |blocks|
    }

    /** A context over an empty module, with one (global) scope open. */
    constructor ()
      ensures Valid()
      ensures scopes == [map[]] && functions == map[] && blockSeq == 0
      ensures currentFunction == None && moduleFunctions == [] && blocks == []
    {
      scopes := [map[]];
      functions := map[];
      blockSeq := 0;
      currentFunction := None;
      moduleFunctions := [];
      blocks := [];
    }

    /** push_scope: opens an empty innermost scope. */
    method PushScope()
      modifies this`scopes
      ensures scopes == old(scopes) + [map[]]
    {
      scopes := scopes + [map[]];
    }

    /** pop_scope: closes the innermost scope; with no scope open it fails. */
    method PopScope() returns (r: Result<()>)
      modifies this`scopes
      ensures old(scopes) == [] <==> r.Err?
      ensures r.Err? ==> r.msg == "Attempted to pop an empty scope stack" && scopes == old(scopes)
      ensures r.Ok? ==> scopes == old(scopes)[..|old(scopes)| - 1]
    {
      if scopes == [] {
        return Err("Attempted to pop an empty scope stack");
      }
      scopes := scopes[..|scopes| - 1];
      return Ok(());
    }

    /** bind: records (or replaces) name's binding in the innermost scope; with no scope open it fails. */
    method Bind(name: string, binding: Binding) returns (r: Result<()>)
      modifies this`scopes
      ensures old(scopes) == [] <==> r.Err?
      ensures r.Err? ==> r.msg == "No active scope to bind variable " + name && scopes == old(scopes)
      ensures r.Ok? ==>
        scopes == old(scopes)[|old(scopes)| - 1 := old(scopes)[|old(scopes)| - 1][name := binding]]
      ensures r.Ok? ==> Resolve(scopes, name) == Some(binding)
      ensures forall other :: other != name ==> Resolve(scopes, other) == Resolve(old(scopes), other)
    {
      if scopes == [] {
        return Err("No active scope to bind variable " + name);
      }
      var n := |scopes| - 1;
      ghost var s0 := scopes;
      scopes := scopes[n := scopes[n][name := binding]];
      assert scopes[..n] == s0[..n];
      assert scopes == s0[..n] + [s0[n][name := binding]];
      assert s0 == s0[..n] + [s0[n]];
      forall other | other != name
        ensures Resolve(scopes, other) == Resolve(s0, other)
      {
        InnerScope(s0[..n], s0[n][name := binding], other);
        InnerScope(s0[..n], s0[n], other);
      }
      return Ok(());
    }

    /** lookup: searches the scopes from the innermost outwards and returns the first binding of name. */
    method Lookup(name: string) returns (r: Option<Binding>)
      ensures r == Resolve(scopes, name)
    {
      var i := |scopes|;
      assert scopes[..i] == scopes;
      while i > 0
        invariant 0 <= i <= |scopes|
        invariant Resolve(scopes, name) == Resolve(scopes[..i], name)
        decreases i
      {
        assert scopes[..i][..i - 1] == scopes[..i - 1];
        if name in scopes[i - 1] {
          return Some(scopes[i - 1][name]);
        }
        i := i - 1;
      }
      return None;
    }

    /**
     * declare_function: a name already declared keeps its first entry and
     * nothing changes; otherwise the function is created in the module
     * with the definition's return and parameter types and entered in the
     * table.
     */
    method DeclareFunction(def: FuncDef) returns (info: FunctionInfo)
      modifies this`functions, this`moduleFunctions
      ensures def.name in old(functions) ==>
        info == old(functions)[def.name] && functions == old(functions) && moduleFunctions == old(moduleFunctions)
      ensures def.name !in old(functions) ==>
        info == FunctionInfo(|old(moduleFunctions)|, def.ty, ParamTypes(def.params))
        && functions == old(functions)[def.name := info]
        && moduleFunctions == old(moduleFunctions) + [def.name]
      ensures FindFunction(def.name) == Some(info)
    {
      if def.name in functions {
        return functions[def.name];
      }
      var paramTypes: seq<BasicType> := [];
      var i := 0;
      while i < |def.params|
        invariant 0 <= i <= |def.params|
        invariant paramTypes == ParamTypes(def.params[..i])
        invariant functions == old(functions) && moduleFunctions == old(moduleFunctions)
      {
        assert def.params[..i + 1] == def.params[..i] + [def.params[i]];
        ParamTypesAppend(def.params[..i], def.params[i]);
        paramTypes := paramTypes + [def.params[i].ty];
        i := i + 1;
      }
      assert def.params[..i] == def.params;
      info := FunctionInfo(|moduleFunctions|, def.ty, paramTypes);
      moduleFunctions := moduleFunctions + [def.name];
      functions := functions[def.name := info];
    }

    /** find_function: the table entry for name, if it has one. */
    function FindFunction(name: string): (r: Option<FunctionInfo>)
      reads this
      ensures r.Some? <==> name in functions
      ensures r.Some? ==> r.value == functions[name]
    {
      if name in functions then Some(functions[name]) else None
    }

    /**
     * create_block: without a current function it fails; otherwise it
     * creates a block in that function named after the base name and the
     * counter, and advances the counter.
     */
    method CreateBlock(base: string) returns (r: Result<string>)
      requires Valid()
      modifies this`blockSeq, this`blocks
      ensures Valid()
      ensures old(currentFunction).None? ==>
        r == Err("Cannot create block without active function") && blockSeq == old(blockSeq) && blocks == old(blocks)
      ensures old(currentFunction).Some? ==>
        r == Ok(BlockName(base, old(blockSeq))) && blocks == old(blocks) + [Block(base, currentFunction.value)]
      ensures r.Ok? ==> forall i :: 0 <= i < |old(blocks)| ==> r.value != BlockName(old(blocks)[i].base, i)
    {
      if currentFunction.None? {
        return Err("Cannot create block without active function");
      }
      var name := BlockName(base, blockSeq);
      forall i | 0 <= i < |blocks| ensures name != BlockName(blocks[i].base, i) {
        BlockNamesDistinct(base, blockSeq, blocks[i].base, i);
      }
      blocks := blocks + [Block(base, currentFunction.value)];
      blockSeq := blockSeq + 1;
      return Ok(name);
    }
  }

  lemma ParamTypesAppend(params: seq<Param>, p: Param)
    ensures ParamTypes(params + [p]) == ParamTypes(params) + [p.ty]
  {
  }

  /**
   * ScopeGuard: opening it pushes a scope on the context; closing it (the
   * destructor) pops that scope again unless the guard was released.
   */
  class ScopeGuard {
    const ctx: CodegenContext
    var active: bool

    constructor (ctx: CodegenContext)
      modifies ctx`scopes
      ensures this.ctx == ctx && active
      ensures ctx.scopes == old(ctx.scopes) + [map[]]
    {
      this.ctx := ctx;
      active := true;
      new;
      ctx.PushScope();
    }

    /** release: the guard will no longer pop. */
    method Release()
      modifies this`active
      ensures !active
    {
      active := false;
    }

    /** The destructor: an active guard pops the innermost scope. */
    method Close()
      requires active ==> ctx.scopes != []
      modifies ctx`scopes
      ensures active ==> ctx.scopes == old(ctx.scopes)[..|old(ctx.scopes)| - 1]
      ensures !active ==> ctx.scopes == old(ctx.scopes)
    {
      if active {
        var r := ctx.PopScope();
      }
    }
  }

  /**
   * A block statement's bindings live only while its guard is open: opening
   * a guard, binding, and closing it leaves every name resolving as before.
   */
  method GuardedScope(ctx: CodegenContext, name: string, binding: Binding)
    modifies ctx`scopes
    ensures ctx.scopes == old(ctx.scopes)
  {
    var guard := new ScopeGuard(ctx);
    var r := ctx.Bind(name, binding);
    assert r.Ok?;
    guard.Close();
    assert ctx.scopes == old(ctx.scopes);
  }
}
