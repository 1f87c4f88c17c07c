// The tree dump of src/ast/ast.cpp (indent, print_expr, print_stmt,
// print_block, print_decl, print_var_init, print_params, print_func,
// print_ast). Each print_* routine writes whole lines: the indentation,
// a label, a newline. It is modelled as a function returning those lines
// without their newlines; `Render` joins them into the text written to
// the stream.
module AstPrinter {
  import opened Common
  import opened Ast
  import Decimal

  /** indent(os, depth): two spaces per level. */
  function Indent(depth: nat): (s: string)
    ensures |s| == 2 * depth
    ensures forall j :: 0 <= j < |s| ==> s[j] == ' '
  {
    if depth == 0 then "" else Indent(depth - 1) + "  "
  }

  /** A line indented to `depth`, without its newline. */
  function Line(depth: nat, text: string): (l: string)
    ensures IndentedBy(l, depth) && l[2 * depth..] == text
  {
    Indent(depth) + text
  }

  /** The line starts with at least `depth` levels of indentation. */
  predicate IndentedBy(line: string, depth: nat) {
    |line| >= 2 * depth && forall j :: 0 <= j < 2 * depth ==> line[j] == ' '
  }

  predicate AllIndented(lines: seq<string>, depth: nat) {
    forall i :: 0 <= i < |lines| ==> IndentedBy(lines[i], depth)
  }

  /**
   * The shape of one dumped node: a header line indented to exactly
   * `depth` (its first character after the indentation is not a space),
   * then the node's children, all indented further.
   */
  predicate Nested(lines: seq<string>, depth: nat) {
    |lines| >= 1 && IndentedBy(lines[0], depth) && |lines[0]| > 2 * depth && lines[0][2 * depth] != ' '
    && AllIndented(lines[1..], depth + 1)
  }

  /**
   * A node of the dump: its header line at `depth`, then its children, which
   * the caller has already indented one level deeper.
   */
  function Section(depth: nat, header: string, children: seq<string>): (r: seq<string>)
    requires AllIndented(children, depth + 1)
    ensures AllIndented(r, depth) && |r| >= 1 && r[0] == Line(depth, header) && r[1..] == children
    ensures |header| > 0 && header[0] != ' ' ==> Nested(r, depth)
  {
    var r := [Line(depth, header)] + children;
    assert r[1..] == children;
    assert |header| > 0 ==> r[0][2 * depth] == header[0] by {
      if |header| > 0 {
        assert r[0][2 * depth..][0] == header[0];
      }
    }
    r
  }

  lemma AppendIndented(a: seq<string>, b: seq<string>, depth: nat)
    requires AllIndented(a, depth) && AllIndented(b, depth)
    ensures AllIndented(a + b, depth)
  {
  }

  /** The header of an expression node. */
  function ExprHeader(e: Expr): (h: string)
    ensures |h| > 0 && h[0] != ' '
  {
    match e
    case LiteralInt(v) => "LiteralInt " + Decimal.IntToString(v)
    case LiteralFloat(text) => "LiteralFloat " + text
    case IdentifierExpr(name) => "Identifier " + name
    case UnaryExpr(op, _) => "Unary " + UnaryOpName(op)
    case BinaryExpr(op, _, _) => "Binary " + BasicOpName(op)
    case CallExpr(callee, _) => "Call " + callee
    case Null => "<null expr>"
  }

  /** print_expr: the header, then the operands one level deeper. */
  function ExprLines(e: Expr, depth: nat): (r: seq<string>)
    ensures Nested(r, depth) && AllIndented(r, depth)
    ensures r[0] == Line(depth, ExprHeader(e))
    decreases e, 1
  {
    Section(depth, ExprHeader(e), ExprChildren(e, depth + 1))
  }

  /** The operands of an expression; a call without arguments prints `<no args>` in their place. */
  function ExprChildren(e: Expr, depth: nat): (r: seq<string>)
    ensures AllIndented(r, depth)
    decreases e, 0
  {
    match e
    case UnaryExpr(_, operand) => ExprLines(operand, depth)
    case BinaryExpr(_, lhs, rhs) =>
      AppendIndented(ExprLines(lhs, depth), ExprLines(rhs, depth), depth);
      ExprLines(lhs, depth) + ExprLines(rhs, depth)
    case CallExpr(_, args) =>
      if args == [] then [Line(depth, "<no args>")] else ArgsLines(args, depth)
    case _ => []
  }

  /** The arguments of a call, each dumped as an expression at `depth`. */
  function ArgsLines(args: seq<Expr>, depth: nat): (r: seq<string>)
    ensures AllIndented(r, depth) && |r| >= |args|
    decreases args, 0
  {
    if args == [] then []
    else
      AppendIndented(ExprLines(args[0], depth), ArgsLines(args[1..], depth), depth);
      ExprLines(args[0], depth) + ArgsLines(args[1..], depth)
  }

  /** print_var_init: the name, then ` =` and the value one level deeper, or ` <uninitialized>`. */
  function VarInitLines(init: VarInit, depth: nat): (r: seq<string>)
    ensures |r| >= 1 && AllIndented(r, depth)
    ensures init.value.Null? <==> |r| == 1
  {
    if init.value.Null? then [Line(depth, init.name + " <uninitialized>")]
    else Section(depth, init.name + " =", ExprLines(init.value, depth + 1))
  }

  function InitsLines(inits: seq<VarInit>, depth: nat): (r: seq<string>)
    ensures AllIndented(r, depth) && |r| >= |inits|
  {
    if inits == [] then []
    else
      AppendIndented(VarInitLines(inits[0], depth), InitsLines(inits[1..], depth), depth);
      VarInitLines(inits[0], depth) + InitsLines(inits[1..], depth)
  }

  /** The header of a declaration: `VarDecl` or `ConstDecl`, then the type. */
  function DeclHeader(d: Decl): (h: string)
    ensures |h| > 0 && h[0] != ' '
  {
    (if d.isConst then "ConstDecl " else "VarDecl ") + TypeName(d.ty)
  }

  /** print_decl: the header, then one entry per declared name, one level deeper. */
  function DeclLines(d: Decl, depth: nat): (r: seq<string>)
    ensures Nested(r, depth) && AllIndented(r, depth)
    ensures r[0] == Line(depth, DeclHeader(d)) && |r| >= 1 + |d.items|
  {
    Section(depth, DeclHeader(d), InitsLines(d.items, depth + 1))
  }

  /** The header of a statement node; a block prints as `Block`. */
  function StmtHeader(s: Stmt): (h: string)
    ensures |h| > 0 && h[0] != ' '
  {
    match s
    case EmptyStmt => "EmptyStmt"
    case ExprStmt(_) => "ExprStmt"
    case AssignStmt(target, _) => "Assign " + target
    case ReturnStmt(_) => "Return"
    case IfStmt(_, _, _) => "If"
    case BlockStmt(_) => "Block"
  }

  /** print_stmt: the header, then the parts of the statement one level deeper. */
  function StmtLines(s: Stmt, depth: nat): (r: seq<string>)
    ensures Nested(r, depth) && AllIndented(r, depth)
    ensures r[0] == Line(depth, StmtHeader(s))
    decreases s, 2
  {
    Section(depth, StmtHeader(s), StmtChildren(s, depth + 1))
  }

  /** The parts of a statement; a return without a value prints `<void>`. */
  function StmtChildren(s: Stmt, depth: nat): (r: seq<string>)
    ensures AllIndented(r, depth)
    decreases s, 1
  {
    match s
    case EmptyStmt => []
    case ExprStmt(e) => ExprLines(e, depth)
    case AssignStmt(_, e) => ExprLines(e, depth)
    case ReturnStmt(value) => if value.Null? then [Line(depth, "<void>")] else ExprLines(value, depth)
    case IfStmt(cond, thenBranch, elseBranch) => IfParts(cond, thenBranch, elseBranch, depth)
    case BlockStmt(items) => ItemsLines(items, depth)
  }

  /** The parts of an `if`: `Cond`, `Then` and, when there is an else branch, `Else`. */
  function IfParts(cond: Expr, thenBranch: Stmt, elseBranch: Option<Stmt>, depth: nat): (r: seq<string>)
    ensures AllIndented(r, depth)
    ensures elseBranch.Some? ==> |r| >= 6
    decreases IfStmt(cond, thenBranch, elseBranch), 0
  {
    var c := Section(depth, "Cond", ExprLines(cond, depth + 1));
    var t := Section(depth, "Then", StmtLines(thenBranch, depth + 1));
    AppendIndented(c, t, depth);
    if elseBranch.None? then c + t
    else
      var e := Section(depth, "Else", StmtLines(elseBranch.value, depth + 1));
      AppendIndented(c + t, e, depth);
      c + t + e
  }

  /** One block item: `Decl` or `Stmt`, then the item one level deeper. */
  function ItemLines(item: BlockItem, depth: nat): (r: seq<string>)
    ensures Nested(r, depth) && AllIndented(r, depth) && |r| >= 2
    decreases item, 0
  {
    match item
    case DeclItem(d) => Section(depth, "Decl", DeclLines(d, depth + 1))
    case StmtItem(s) => Section(depth, "Stmt", StmtLines(s, depth + 1))
  }

  /** The items of a block, in order, each at `depth`. */
  function ItemsLines(items: seq<BlockItem>, depth: nat): (r: seq<string>)
    ensures AllIndented(r, depth) && |r| >= 2 * |items|
    decreases items, 0
  {
    if items == [] then []
    else
      AppendIndented(ItemLines(items[0], depth), ItemsLines(items[1..], depth), depth);
      ItemLines(items[0], depth) + ItemsLines(items[1..], depth)
  }

  /** print_block: `Block`, then the items one level deeper; print_stmt prints a block statement this way. */
  function BlockLines(items: seq<BlockItem>, depth: nat): (r: seq<string>)
    ensures Nested(r, depth) && AllIndented(r, depth) && r[0] == Line(depth, "Block")
    ensures StmtLines(BlockStmt(items), depth) == r
  {
    Section(depth, "Block", ItemsLines(items, depth + 1))
  }

  /** print_params: one `type name` line per parameter, or `<none>`. */
  function ParamsLines(params: seq<Param>, depth: nat): (r: seq<string>)
    ensures AllIndented(r, depth)
    ensures |r| == if params == [] then 1 else |params|
  {
    if params == [] then [Line(depth, "<none>")]
    else ParamLines(params, depth)
  }

  function ParamLines(params: seq<Param>, depth: nat): (r: seq<string>)
    ensures AllIndented(r, depth) && |r| == |params|
    ensures forall i :: 0 <= i < |params| ==> r[i][2 * depth..] == TypeName(params[i].ty) + " " + params[i].name
  {
    if params == [] then []
    else [Line(depth, TypeName(params[0].ty) + " " + params[0].name)] + ParamLines(params[1..], depth)
  }

  /** print_func: the `Func` header, then `Params` and `Body` sections one level deeper. */
  function FuncLines(f: FuncDef, depth: nat): (r: seq<string>)
    ensures Nested(r, depth) && AllIndented(r, depth)
    ensures r[0] == Line(depth, "Func " + TypeName(f.ty) + " " + f.name)
  {
    var p := Section(depth + 1, "Params", ParamsLines(f.params, depth + 2));
    var b := Section(depth + 1, "Body", BlockLines(f.body, depth + 2));
    AppendIndented(p, b, depth + 1);
    Section(depth, "Func " + TypeName(f.ty) + " " + f.name, p + b)
  }

  function GlobalsLines(globals: seq<Decl>): (r: seq<string>)
    ensures AllIndented(r, 1) && |r| >= 2 * |globals|
  {
    if globals == [] then []
    else
      var g := Section(1, "GlobalDecl", DeclLines(globals[0], 2));
      AppendIndented(g, GlobalsLines(globals[1..]), 1);
      g + GlobalsLines(globals[1..])
  }

  function FunctionsLines(functions: seq<FuncDef>): (r: seq<string>)
    ensures AllIndented(r, 1) && |r| >= 2 * |functions|
  {
    if functions == [] then []
    else
      var f := Section(1, "Function", FuncLines(functions[0], 2));
      AppendIndented(f, FunctionsLines(functions[1..]), 1);
      f + FunctionsLines(functions[1..])
  }

  /** print_ast(Program): `Program`, then a `GlobalDecl` entry per global and a `Function` entry per function. */
  function ProgramLines(p: Program): (r: seq<string>)
    ensures Nested(r, 0) && r[0] == "Program"
    ensures |r| >= 1 + 2 * (|p.globals| + |p.functions|)
  {
    var g := GlobalsLines(p.globals);
    var f := FunctionsLines(p.functions);
    AppendIndented(g, f, 1);
    Section(0, "Program", g + f)
  }

  /** The text written to the stream: every line followed by a newline. */
  function Render(lines: seq<string>): (s: string)
    ensures |s| >= |lines|
  {
    if lines == [] then "" else lines[0] + "\n" + Render(lines[1..])
  }

  /** print_ast(ProgramPtr): a null program prints `<empty AST>`. */
  function PrintAst(p: Option<Program>): (s: string)
    ensures p.None? <==> s == "<empty AST>\n"
    ensures p.Some? ==> s == Render(ProgramLines(p.value))
  {
    match p
    case None => "<empty AST>\n"
    case Some(prog) =>
      var r := ProgramLines(prog);
      assert Render(r)[..7] == "Program" by { RenderCons(r); }
      Render(r)
  }

  lemma RenderCons(lines: seq<string>)
    requires |lines| >= 1
    ensures Render(lines) == lines[0] + "\n" + Render(lines[1..])
  {
  }

  /** Rendering distributes over concatenation of line sequences. */
  lemma {:induction false} RenderAppend(a: seq<string>, b: seq<string>)
    ensures Render(a + b) == Render(a) + Render(b)
  {
    if a != [] {
      assert (a + b)[0] == a[0] && (a + b)[1..] == a[1..] + b;
      RenderAppend(a[1..], b);
      calc {
        Render(a + b);
        a[0] + "\n" + Render(a[1..] + b);
        a[0] + "\n" + (Render(a[1..]) + Render(b));
        (a[0] + "\n" + Render(a[1..])) + Render(b);
      }
    } else {
      assert a + b == b;
    }
  }

  /** The position of the first newline in s, or |s| when there is none. */
  function FirstNewline(s: string): (k: nat)
    ensures k <= |s| && (k < |s| ==> s[k] == '\n')
    ensures forall j :: 0 <= j < k ==> s[j] != '\n'
  {
    if s == [] || s[0] == '\n' then 0 else 1 + FirstNewline(s[1..])
  }

  /** Splits text into its newline-terminated lines; a trailing piece without a newline is a last line. */
  function SplitLines(s: string): (r: seq<string>)
    decreases |s|
  {
    if s == [] then []
    else
      var k := FirstNewline(s);
      if k == |s| then [s] else [s[..k]] + SplitLines(s[k + 1..])
  }

  predicate NoNewline(line: string) { forall j :: 0 <= j < |line| ==> line[j] != '\n' }

  lemma {:induction false} FirstNewlineAt(a: string, b: string)
    requires NoNewline(a)
    ensures FirstNewline(a + "\n" + b) == |a|
  {
    if a != [] {
      assert (a + "\n" + b)[1..] == a[1..] + "\n" + b;
      FirstNewlineAt(a[1..], b);
    }
  }

  /** Splitting the rendered text at its newlines gives back the lines, when no line holds a newline. */
  lemma {:induction false} SplitRender(lines: seq<string>)
    requires forall i :: 0 <= i < |lines| ==> NoNewline(lines[i])
    ensures SplitLines(Render(lines)) == lines
  {
    if lines != [] {
      var s := Render(lines);
      FirstNewlineAt(lines[0], Render(lines[1..]));
      assert s[..|lines[0]|] == lines[0];
      assert s[|lines[0]| + 1..] == Render(lines[1..]);
      SplitRender(lines[1..]);
    }
  }
}
