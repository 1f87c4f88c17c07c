// The LL(1) parser of src/grammar/parser_ll.cpp: the predictive table
// (compute_action_table), the stack machine (parse) and the retagging of
// function-definition keywords (preprocess_tokens).
//
// The stack is a sequence whose last element is the top. The parse loop
// need not terminate for an arbitrary table (a left-recursive entry keeps
// expanding), so the machine is run for at most `fuel` iterations and
// reports whether it stopped.
module ParserLL {
  import opened Common
  import opened Symbols
  import Tokens
  import opened Grammars

  datatype Action = Move | Reduction | Accept | Error

  /** ParseStep: the stack top, the lookahead symbol, and what the parser did. */
  datatype ParseStep = ParseStep(top: Symbol, lookahead: Symbol, action: Action)

  type TokenMap = map<(Tokens.TokenType, Tokens.TokenCategory), Symbol>

  /** parse_table_: M[A, a], the production to expand A by on lookahead a. */
  type Table = map<(Symbol, Symbol), Production>

  function Key(tok: Tokens.Token): (Tokens.TokenType, Tokens.TokenCategory) {
    (tok.ty, tok.category)
  }

  /**
   * The symbol a token stands for: its terminal when the grammar maps it,
   * otherwise the terminal spelled like its lexeme (the symbol an error
   * step reports).
   */
  function SymbolOf(tm: TokenMap, tok: Tokens.Token): Symbol {
    if Key(tok) in tm then tm[Key(tok)] else T(tok.lexeme)
  }

  function SymbolsOf(tm: TokenMap, toks: seq<Tokens.Token>): (r: seq<Symbol>)
    ensures |r| == |toks|
  {
    if toks == [] then [] else SymbolsOf(tm, toks[..|toks| - 1]) + [SymbolOf(tm, toks[|toks| - 1])]
  }

  /** The token sequence ends with a token the grammar maps to the end marker, as the lexer's EndOfFile is. */
  predicate EndTerminated(tm: TokenMap, tokens: seq<Tokens.Token>) {
    |tokens| > 0 && Key(tokens[|tokens| - 1]) in tm && tm[Key(tokens[|tokens| - 1])].IsEnd()
  }

  // ---------------------------------------------------------------- parse

  /** The machine between two iterations: the stack (top last), the cursor, the steps recorded. */
  datatype Config = Config(stack: seq<Symbol>, curr: nat, steps: seq<ParseStep>)

  /**
   * Whether the loop goes on (with the new configuration), has returned,
   * or is about to read the token at a cursor past the last token, which
   * is out of range: nothing in the loop checks the cursor against the
   * number of tokens.
   */
  datatype Outcome = Running(cfg: Config) | Stopped(cfg: Config) | PastEnd(cfg: Config)

  /** The stack [End, start] and cursor 0. */
  function Initial(start: Symbol): Config {
    Config([EndMark(), start], 0, [])
  }

  /** The symbols a body pushes, bottom first: the body reversed with epsilon skipped. */
  function Pushed(body: seq<Symbol>): (r: seq<Symbol>)
    ensures forall i :: 0 <= i < |r| ==> !r[i].IsEpsilon()
  {
    if body == [] then []
    else Pushed(body[1..]) + (if body[0].IsEpsilon() then [] else [body[0]])
  }

  /** The body without its epsilon symbols, in order. */
  function NonEps(body: seq<Symbol>): (r: seq<Symbol>)
    ensures forall i :: 0 <= i < |r| ==> !r[i].IsEpsilon()
  {
    if body == [] then []
    else (if body[0].IsEpsilon() then [] else [body[0]]) + NonEps(body[1..])
  }

  function Reverse(s: seq<Symbol>): (r: seq<Symbol>)
    ensures |r| == |s|
  {
    if s == [] then [] else [s[|s| - 1]] + Reverse(s[..|s| - 1])
  }

  /** Popping the pushed symbols one by one gives the body's symbols in order: the first ends on top. */
  lemma {:induction false} PushedOrder(body: seq<Symbol>)
    ensures Reverse(Pushed(body)) == NonEps(body)
  {
    if body != [] {
      PushedOrder(body[1..]);
      var k := if body[0].IsEpsilon() then [] else [body[0]];
      ReverseAppend(Pushed(body[1..]), k);
    }
  }

  lemma {:induction false} ReverseAppend(a: seq<Symbol>, b: seq<Symbol>)
    ensures Reverse(a + b) == Reverse(b) + Reverse(a)
    decreases |b|
  {
    if b == [] {
      assert a + b == a;
    } else {
      var n := |b| - 1;
      assert (a + b)[..|a + b| - 1] == a + b[..n];
      ReverseAppend(a, b[..n]);
    }
  }

  function ErrorAt(c: Config, x: Symbol, a: Symbol): Outcome {
    Stopped(c.(steps := c.steps + [ParseStep(x, a, Error)]))
  }

  /**
   * One iteration of the parse loop. An unmapped token is an error; End
   * over End accepts; a terminal on top is matched against the lookahead;
   * a non-terminal on top is expanded by M[X, a]; epsilon is popped without
   * a step. With End on top and any other lookahead no branch applies:
   * the code as written (`written`) loops again unchanged, the corrected
   * loop reports an error. A cursor past the last token is `PastEnd`.
   */
  function Step(written: bool, tm: TokenMap, table: Table, tokens: seq<Tokens.Token>, c: Config): Outcome
    requires c.stack != [] && c.curr <= |tokens|
  {
    var n := |c.stack| - 1;
    var x := c.stack[n];
    if c.curr == |tokens| then PastEnd(c)
    else
    var tok := tokens[c.curr];
    if Key(tok) !in tm then ErrorAt(c, x, T(tok.lexeme))
    else
      var a := tm[Key(tok)];
      if x.IsEnd() && a.IsEnd() then
        Stopped(Config(c.stack[..n], c.curr, c.steps + [ParseStep(x, a, Accept)]))
      else if x.IsTerminal() then
        if x == a then Running(Config(c.stack[..n], c.curr + 1, c.steps + [ParseStep(x, a, Move)]))
        else ErrorAt(c, x, a)
      else if x.IsNonTerminal() then
        if (x, a) in table then
          Running(Config(c.stack[..n] + Pushed(table[(x, a)].body), c.curr, c.steps + [ParseStep(x, a, Reduction)]))
        else ErrorAt(c, x, a)
      else if x.IsEpsilon() then Running(c.(stack := c.stack[..n]))
      else if written then Running(c)
      else ErrorAt(c, x, a)
  }

  /** The tops of the Move steps, in order: the terminals matched so far. */
  function Moves(steps: seq<ParseStep>): seq<Symbol> {
    if steps == [] then []
    else Moves(steps[..|steps| - 1]) + (if steps[|steps| - 1].action == Move then [steps[|steps| - 1].top] else [])
  }

  /**
   * What holds between iterations: End is at the bottom of the stack, the
   * cursor is on a token or just past the last one, and the Move steps
   * matched exactly the symbols of the tokens before the cursor.
   */
  predicate Inv(tm: TokenMap, tokens: seq<Tokens.Token>, c: Config) {
    c.stack != [] && c.stack[0].IsEnd() && c.curr <= |tokens|
    && Moves(c.steps) == SymbolsOf(tm, tokens[..c.curr])
  }

  lemma MovesSnoc(steps: seq<ParseStep>, s: ParseStep)
    ensures Moves(steps + [s]) == Moves(steps) + (if s.action == Move then [s.top] else [])
  {
    assert (steps + [s])[..|steps|] == steps;
  }

  lemma SymbolsOfSnoc(tm: TokenMap, tokens: seq<Tokens.Token>, i: nat)
    requires i < |tokens|
    ensures SymbolsOf(tm, tokens[..i + 1]) == SymbolsOf(tm, tokens[..i]) + [SymbolOf(tm, tokens[i])]
  {
    assert tokens[..i + 1][..i] == tokens[..i];
  }

  /** A step that keeps running keeps the invariant; a Move advances over one token. */
  lemma StepInv(written: bool, tm: TokenMap, table: Table, tokens: seq<Tokens.Token>, c: Config)
    requires Inv(tm, tokens, c)
    ensures Step(written, tm, table, tokens, c).Running? ==> Inv(tm, tokens, Step(written, tm, table, tokens, c).cfg)
  {
    var n := |c.stack| - 1;
    var x := c.stack[n];
    if c.curr < |tokens| && Key(tokens[c.curr]) in tm {
      var a := tm[Key(tokens[c.curr])];
      if x.IsTerminal() && x == a {
        MovesSnoc(c.steps, ParseStep(x, a, Move));
        SymbolsOfSnoc(tm, tokens, c.curr);
      } else if x.IsNonTerminal() {
        MovesSnoc(c.steps, ParseStep(x, a, Reduction));
      }
    }
  }

  /** At most `fuel` iterations of the loop. */
  function Run(written: bool, tm: TokenMap, table: Table, tokens: seq<Tokens.Token>, c: Config, fuel: nat): Outcome
    requires Inv(tm, tokens, c)
    decreases fuel
  {
    if fuel == 0 then Running(c)
    else
      StepInv(written, tm, table, tokens, c);
      match Step(written, tm, table, tokens, c)
      case Running(d) => Run(written, tm, table, tokens, d, fuel - 1)
      case s => s
  }

  /** The loop that pushes a production body from its last symbol to its first, skipping epsilon. */
  method PushBody(stack: seq<Symbol>, body: seq<Symbol>) returns (stack': seq<Symbol>)
    ensures stack' == stack + Pushed(body)
  {
    stack' := stack;
    var i := |body|;
    assert body[i..] == [];
    while i > 0
      invariant 0 <= i <= |body|
      invariant stack' == stack + Pushed(body[i..])
    {
      i := i - 1;
      assert body[i..][1..] == body[i + 1..];
      if !body[i].IsEpsilon() {
        stack' := stack' + [body[i]];
      }
    }
    assert body[0..] == body;
  }

  /**
   * parse: runs the loop from [End, start] with cursor 0 for at most `fuel`
   * iterations; `stopped` tells whether it returned, `pastEnd` whether it
   * reached a cursor past the last token, and `steps` is the result vector.
   */
  method Parse(tm: TokenMap, table: Table, start: Symbol, tokens: seq<Tokens.Token>, fuel: nat)
    returns (steps: seq<ParseStep>, stopped: bool, pastEnd: bool)
    ensures var r := Run(false, tm, table, tokens, Initial(start), fuel);
      steps == r.cfg.steps && stopped == r.Stopped? && pastEnd == r.PastEnd?
  {
    var stack := [EndMark(), start];
    var curr := 0;
    steps := [];
    var f := fuel;
    assert tokens[..0] == [];
    while stack != []
      invariant Inv(tm, tokens, Config(stack, curr, steps))
      invariant Run(false, tm, table, tokens, Initial(start), fuel) == Run(false, tm, table, tokens, Config(stack, curr, steps), f)
      decreases f
    {
      if f == 0 {
        return steps, false, false;
      }
      StepInv(false, tm, table, tokens, Config(stack, curr, steps));
      var running;
      stack, curr, steps, running, stopped := ParseRound(tm, table, tokens, stack, curr, steps);
      if !running {
        return steps, stopped, !stopped;
      }
      f := f - 1;
    }
    assert false;
  }

  /**
   * One iteration of the parse loop: the new stack, cursor and result
   * vector are those `Step` gives, and `running` and `stopped` tell whether
   * the loop goes on or returns.
   */
  method ParseRound(tm: TokenMap, table: Table, tokens: seq<Tokens.Token>, stack0: seq<Symbol>, curr0: nat, steps0: seq<ParseStep>)
    returns (stack: seq<Symbol>, curr: nat, steps: seq<ParseStep>, running: bool, stopped: bool)
    requires stack0 != [] && curr0 <= |tokens|
    ensures var o := Step(false, tm, table, tokens, Config(stack0, curr0, steps0));
      o.cfg == Config(stack, curr, steps) && running == o.Running? && stopped == o.Stopped?
  {
    stack, curr, steps := stack0, curr0, steps0;
    var x := stack[|stack| - 1];
    if curr == |tokens| {
      return stack, curr, steps, false, false;
    }
    var tok := tokens[curr];
    if Key(tok) !in tm {
      steps := steps + [ParseStep(x, T(tok.lexeme), Error)];
      return stack, curr, steps, false, true;
    }
    var a := tm[Key(tok)];
    if x.IsEnd() && a.IsEnd() {
      steps := steps + [ParseStep(x, a, Accept)];
      stack := stack[..|stack| - 1];
      return stack, curr, steps, false, true;
    }
    if x.IsTerminal() {
      if x == a {
        steps := steps + [ParseStep(x, a, Move)];
        stack := stack[..|stack| - 1];
        curr := curr + 1;
        running := true;
      } else {
        steps := steps + [ParseStep(x, a, Error)];
        return stack, curr, steps, false, true;
      }
    } else if x.IsNonTerminal() {
      if (x, a) in table {
        var body := table[(x, a)].body;
        steps := steps + [ParseStep(x, a, Reduction)];
        stack := PushBody(stack[..|stack| - 1], body);
        running := true;
      } else {
        steps := steps + [ParseStep(x, a, Error)];
        return stack, curr, steps, false, true;
      }
    } else if x.IsEpsilon() {
      stack := stack[..|stack| - 1];
      running := true;
    } else {
      steps := steps + [ParseStep(x, a, Error)];
      return stack, curr, steps, false, true;
    }
    stopped := false;
  }

  // ------------------------------------------------- soundness of accepting

  /** The position of the leftmost non-terminal of a sentential form, or its length when there is none. */
  function FirstNonTerminal(form: seq<Symbol>): (i: nat)
    ensures i <= |form| && (i < |form| ==> form[i].IsNonTerminal())
    ensures forall j :: 0 <= j < i ==> !form[j].IsNonTerminal()
  {
    if form == [] || form[0].IsNonTerminal() then 0 else 1 + FirstNonTerminal(form[1..])
  }

  /** One leftmost derivation step: p rewrites the leftmost non-terminal, which must be p's head. */
  function ApplyLeftmost(form: seq<Symbol>, p: Production): Option<seq<Symbol>> {
    var i := FirstNonTerminal(form);
    if i < |form| && form[i] == p.head then Some(form[..i] + NonEps(p.body) + form[i + 1..]) else None
  }

  /** The sentential form reached from `form` by the leftmost derivation using ps in order, if they apply. */
  function Derive(form: seq<Symbol>, ps: seq<Production>): Option<seq<Symbol>> {
    if ps == [] then Some(form)
    else match Derive(form, ps[..|ps| - 1])
      case None => None
      case Some(f) => ApplyLeftmost(f, ps[|ps| - 1])
  }

  /** The productions the Reduction steps expanded by, in order. */
  function Used(table: Table, steps: seq<ParseStep>): seq<Production> {
    if steps == [] then []
    else
      var s := steps[|steps| - 1];
      Used(table, steps[..|steps| - 1])
        + (if s.action == Reduction && (s.top, s.lookahead) in table then [table[(s.top, s.lookahead)]] else [])
  }

  /** Every entry M[A, a] expands A. */
  predicate HeadsMatch(table: Table) {
    forall k :: k in table ==> table[k].head == k.0
  }

  /** No production body holds the end marker. */
  predicate NoEndInBodies(table: Table) {
    forall k :: k in table ==> forall j :: 0 <= j < |table[k].body| ==> !table[k].body[j].IsEnd()
  }

  predicate AllTerminal(s: seq<Symbol>) { forall j :: 0 <= j < |s| ==> s[j].IsTerminal() }

  /**
   * The derivation invariant: the matched terminals followed by the stack
   * read from the top down (End and epsilon left out) is the sentential
   * form the expansions so far derive from the start symbol.
   */
  predicate DerivInv(table: Table, start: Symbol, c: Config) {
    EndAtBottom(c.stack) && AllTerminal(Moves(c.steps))
    && Derive([start], Used(table, c.steps)) == Some(Moves(c.steps) + NonEps(Reverse(c.stack[1..])))
  }

  /** End is at the bottom of the stack and nowhere else. */
  predicate EndAtBottom(stack: seq<Symbol>) {
    stack != [] && stack[0].IsEnd() && forall j :: 1 <= j < |stack| ==> !stack[j].IsEnd()
  }

  lemma UsedSnoc(table: Table, steps: seq<ParseStep>, s: ParseStep)
    ensures Used(table, steps + [s]) == Used(table, steps)
      + (if s.action == Reduction && (s.top, s.lookahead) in table then [table[(s.top, s.lookahead)]] else [])
  {
    assert (steps + [s])[..|steps|] == steps;
  }

  lemma DeriveSnoc(form: seq<Symbol>, ps: seq<Production>, p: Production)
    ensures Derive(form, ps + [p]) == match Derive(form, ps) case None => None case Some(f) => ApplyLeftmost(f, p)
  {
    assert (ps + [p])[..|ps|] == ps;
  }

  lemma {:induction false} NonEpsAppend(a: seq<Symbol>, b: seq<Symbol>)
    ensures NonEps(a + b) == NonEps(a) + NonEps(b)
  {
    if a == [] {
      assert a + b == b;
    } else {
      assert (a + b)[1..] == a[1..] + b;
      NonEpsAppend(a[1..], b);
    }
  }

  lemma {:induction false} NonEpsIdentity(s: seq<Symbol>)
    requires forall j :: 0 <= j < |s| ==> !s[j].IsEpsilon()
    ensures NonEps(s) == s
  {
    if s != [] {
      NonEpsIdentity(s[1..]);
    }
  }

  /** The stack read from the top down, without the bottom: the top first, then the rest. */
  lemma ReadStack(stack: seq<Symbol>)
    requires |stack| >= 2
    ensures Reverse(stack[1..]) == [stack[|stack| - 1]] + Reverse(stack[1..|stack| - 1])
  {
    assert stack[1..][..|stack| - 2] == stack[1..|stack| - 1];
  }

  /** The form after a Reduction: the leftmost non-terminal X, on top, is replaced by the body. */
  lemma ExpandForm(moves: seq<Symbol>, stack: seq<Symbol>, p: Production)
    requires |stack| >= 2 && AllTerminal(moves)
    requires stack[|stack| - 1].IsNonTerminal() && p.head == stack[|stack| - 1]
    ensures ApplyLeftmost(moves + NonEps(Reverse(stack[1..])), p)
      == Some(moves + NonEps(Reverse((stack[..|stack| - 1] + Pushed(p.body))[1..])))
  {
    var n := |stack| - 1;
    var rest := NonEps(Reverse(stack[1..n]));
    FormBefore(stack);
    ApplyAt(moves, stack[n], rest, p);
    FormAfter(stack, p.body);
    assert moves + NonEps(p.body) + rest == moves + (NonEps(p.body) + rest);
  }

  /** Read from the top down, the stack is X followed by the rest. */
  lemma FormBefore(stack: seq<Symbol>)
    requires |stack| >= 2 && !stack[|stack| - 1].IsEpsilon()
    ensures NonEps(Reverse(stack[1..])) == [stack[|stack| - 1]] + NonEps(Reverse(stack[1..|stack| - 1]))
  {
    var n := |stack| - 1;
    ReadStack(stack);
    NonEpsAppend([stack[n]], Reverse(stack[1..n]));
    assert [stack[n]][1..] == [];
  }

  /** Rewriting the leftmost non-terminal X, which follows the matched terminals. */
  lemma ApplyAt(moves: seq<Symbol>, x: Symbol, rest: seq<Symbol>, p: Production)
    requires AllTerminal(moves) && x.IsNonTerminal() && p.head == x
    ensures ApplyLeftmost(moves + ([x] + rest), p) == Some(moves + NonEps(p.body) + rest)
  {
    var form := moves + ([x] + rest);
    FirstAt(moves, x, rest);
    assert form[..|moves|] == moves && form[|moves| + 1..] == rest;
  }

  /** Read from the top down, the stack after pushing the body is the body followed by the rest. */
  lemma FormAfter(stack: seq<Symbol>, body: seq<Symbol>)
    requires |stack| >= 2
    ensures NonEps(Reverse((stack[..|stack| - 1] + Pushed(body))[1..]))
      == NonEps(body) + NonEps(Reverse(stack[1..|stack| - 1]))
  {
    var n := |stack| - 1;
    assert (stack[..n] + Pushed(body))[1..] == stack[1..n] + Pushed(body);
    ReverseAppend(stack[1..n], Pushed(body));
    PushedOrder(body);
    NonEpsAppend(NonEps(body), Reverse(stack[1..n]));
    NonEpsIdempotent(body);
  }

  lemma {:induction false} FirstAt(moves: seq<Symbol>, x: Symbol, rest: seq<Symbol>)
    requires AllTerminal(moves) && x.IsNonTerminal()
    ensures FirstNonTerminal(moves + ([x] + rest)) == |moves|
  {
    if moves == [] {
      assert moves + ([x] + rest) == [x] + rest;
    } else {
      assert (moves + ([x] + rest))[1..] == moves[1..] + ([x] + rest);
      FirstAt(moves[1..], x, rest);
    }
  }

  lemma NonEpsIdempotent(s: seq<Symbol>)
    ensures NonEps(NonEps(s)) == NonEps(s)
  {
    NonEpsIdentity(NonEps(s));
  }

  /** Popping a matched terminal or an epsilon leaves the form unchanged. */
  lemma {:induction false} PopForm(moves: seq<Symbol>, stack: seq<Symbol>)
    requires |stack| >= 2
    ensures stack[|stack| - 1].IsEpsilon() ==>
      NonEps(Reverse(stack[1..])) == NonEps(Reverse(stack[..|stack| - 1][1..]))
    ensures !stack[|stack| - 1].IsEpsilon() ==>
      NonEps(Reverse(stack[1..])) == [stack[|stack| - 1]] + NonEps(Reverse(stack[..|stack| - 1][1..]))
  {
    var n := |stack| - 1;
    ReadStack(stack);
    assert stack[..n][1..] == stack[1..n];
    NonEpsAppend([stack[n]], Reverse(stack[1..n]));
  }

  /** Matching a terminal moves it from the stack to the matched terminals: the form is unchanged. */
  lemma MoveDeriv(table: Table, start: Symbol, c: Config, a: Symbol)
    requires DerivInv(table, start, c) && |c.stack| >= 2 && c.stack[|c.stack| - 1].IsTerminal()
    ensures DerivInv(table, start, Config(c.stack[..|c.stack| - 1], c.curr + 1,
      c.steps + [ParseStep(c.stack[|c.stack| - 1], a, Move)]))
  {
    var n := |c.stack| - 1;
    var x := c.stack[n];
    var s := ParseStep(x, a, Move);
    var steps' := c.steps + [s];
    MovesSnoc(c.steps, s);
    assert Moves(steps') == Moves(c.steps) + [x];
    UsedSnoc(table, c.steps, s);
    assert Used(table, steps') == Used(table, c.steps);
    MoveForm(Moves(c.steps), c.stack);
    PrefixEndAtBottom(c.stack, n);
    TerminalSnoc(Moves(c.steps), x);
  }

  /** Popping a terminal onto the matched ones leaves the sentential form as it was. */
  lemma MoveForm(moves: seq<Symbol>, stack: seq<Symbol>)
    requires |stack| >= 2 && stack[|stack| - 1].IsTerminal()
    ensures moves + NonEps(Reverse(stack[1..])) ==
      (moves + [stack[|stack| - 1]]) + NonEps(Reverse(stack[..|stack| - 1][1..]))
  {
    PopForm(moves, stack);
  }

  lemma PrefixEndAtBottom(stack: seq<Symbol>, n: nat)
    requires EndAtBottom(stack) && 1 <= n <= |stack|
    ensures EndAtBottom(stack[..n])
  {
  }

  lemma TerminalSnoc(s: seq<Symbol>, x: Symbol)
    requires AllTerminal(s) && x.IsTerminal()
    ensures AllTerminal(s + [x])
  {
  }

  /** Expanding the non-terminal on top by M[X, a] is one leftmost derivation step. */
  lemma ExpandDeriv(table: Table, start: Symbol, c: Config, a: Symbol)
    requires HeadsMatch(table) && NoEndInBodies(table)
    requires DerivInv(table, start, c) && |c.stack| >= 2 && c.stack[|c.stack| - 1].IsNonTerminal()
    requires (c.stack[|c.stack| - 1], a) in table
    ensures var x := c.stack[|c.stack| - 1];
      DerivInv(table, start, Config(c.stack[..|c.stack| - 1] + Pushed(table[(x, a)].body), c.curr,
        c.steps + [ParseStep(x, a, Reduction)]))
  {
    var n := |c.stack| - 1;
    var x := c.stack[n];
    var p := table[(x, a)];
    var s := ParseStep(x, a, Reduction);
    var steps' := c.steps + [s];
    var stack' := c.stack[..n] + Pushed(p.body);
    MovesSnoc(c.steps, s);
    assert Moves(steps') == Moves(c.steps);
    UsedSnoc(table, c.steps, s);
    assert Used(table, steps') == Used(table, c.steps) + [p];
    DeriveSnoc([start], Used(table, c.steps), p);
    ExpandForm(Moves(c.steps), c.stack, p);
    assert Derive([start], Used(table, steps')) == Some(Moves(steps') + NonEps(Reverse(stack'[1..])));
    PrefixEndAtBottom(c.stack, n);
    PushedNoEnd(c.stack[..n], p.body);
  }

  /** Popping an epsilon leaves the form unchanged. */
  lemma PopDeriv(table: Table, start: Symbol, c: Config)
    requires DerivInv(table, start, c) && |c.stack| >= 2 && c.stack[|c.stack| - 1].IsEpsilon()
    ensures DerivInv(table, start, c.(stack := c.stack[..|c.stack| - 1]))
  {
    PopForm(Moves(c.steps), c.stack);
  }

  /** A step that keeps running keeps the derivation invariant. */
  lemma StepDeriv(written: bool, tm: TokenMap, table: Table, tokens: seq<Tokens.Token>, start: Symbol, c: Config)
    requires HeadsMatch(table) && NoEndInBodies(table)
    requires c.curr <= |tokens| && DerivInv(table, start, c)
    ensures Step(written, tm, table, tokens, c).Running? ==> DerivInv(table, start, Step(written, tm, table, tokens, c).cfg)
  {
    var n := |c.stack| - 1;
    var x := c.stack[n];
    if c.curr < |tokens| && Key(tokens[c.curr]) in tm && !x.IsEnd() {
      var a := tm[Key(tokens[c.curr])];
      if x.IsTerminal() {
        if x == a {
          assert Step(written, tm, table, tokens, c) ==
            Running(Config(c.stack[..n], c.curr + 1, c.steps + [ParseStep(x, a, Move)]));
          MoveDeriv(table, start, c, a);
        }
      } else if x.IsNonTerminal() {
        if (x, a) in table {
          assert Step(written, tm, table, tokens, c) ==
            Running(Config(c.stack[..n] + Pushed(table[(x, a)].body), c.curr, c.steps + [ParseStep(x, a, Reduction)]));
          ExpandDeriv(table, start, c, a);
        }
      } else if x.IsEpsilon() {
        assert Step(written, tm, table, tokens, c) == Running(c.(stack := c.stack[..n]));
        PopDeriv(table, start, c);
      }
    }
  }

  lemma PushedNoEnd(base: seq<Symbol>, body: seq<Symbol>)
    requires EndAtBottom(base) && forall j :: 0 <= j < |body| ==> !body[j].IsEnd()
    ensures EndAtBottom(base + Pushed(body))
  {
    PushedElems(body);
  }

  lemma {:induction false} PushedElems(body: seq<Symbol>)
    ensures forall j :: 0 <= j < |Pushed(body)| ==> Pushed(body)[j] in body
  {
    if body != [] {
      PushedElems(body[1..]);
    }
  }

  /** Running keeps the derivation invariant to the end. */
  lemma {:induction false} RunDeriv(written: bool, tm: TokenMap, table: Table, tokens: seq<Tokens.Token>, start: Symbol, c: Config, fuel: nat)
    requires HeadsMatch(table) && NoEndInBodies(table)
    requires Inv(tm, tokens, c) && DerivInv(table, start, c)
    ensures var r := Run(written, tm, table, tokens, c, fuel);
      r.Running? ==> DerivInv(table, start, r.cfg)
    ensures var r := Run(written, tm, table, tokens, c, fuel);
      r.Stopped? ==> exists d :: Inv(tm, tokens, d) && DerivInv(table, start, d) && r == Step(written, tm, table, tokens, d)
    decreases fuel
  {
    if fuel > 0 {
      StepInv(written, tm, table, tokens, c);
      StepDeriv(written, tm, table, tokens, start, c);
      if Step(written, tm, table, tokens, c).Running? {
        RunDeriv(written, tm, table, tokens, start, Step(written, tm, table, tokens, c).cfg, fuel - 1);
      }
    }
  }

  /** An Accept step leaves the matched terminals as the whole derived form. */
  lemma AcceptStep(tm: TokenMap, table: Table, tokens: seq<Tokens.Token>, start: Symbol, d: Config)
    requires Inv(tm, tokens, d) && DerivInv(table, start, d)
    requires var r := Step(false, tm, table, tokens, d);
      r.Stopped? && r.cfg.steps != [] && r.cfg.steps[|r.cfg.steps| - 1].action == Accept
    ensures var r := Step(false, tm, table, tokens, d);
      r.cfg.curr < |tokens| && Key(tokens[r.cfg.curr]) in tm
      && Derive([start], Used(table, r.cfg.steps)) == Some(SymbolsOf(tm, tokens[..r.cfg.curr]))
      && tm[Key(tokens[r.cfg.curr])].IsEnd()
  {
    var n := |d.stack| - 1;
    var x := d.stack[n];
    AcceptShape(tm, table, tokens, d);
    var a := tm[Key(tokens[d.curr])];
    var s := ParseStep(x, a, Accept);
    MovesSnoc(d.steps, s);
    UsedSnoc(table, d.steps, s);
    assert n == 0;
    assert d.stack[1..] == [];
    assert Moves(d.steps) + NonEps(Reverse(d.stack[1..])) == Moves(d.steps);
    var steps' := Step(false, tm, table, tokens, d).cfg.steps;
    assert steps' == d.steps + [s];
    assert Used(table, steps') == Used(table, d.steps);
    assert Derive([start], Used(table, steps')) == Some(Moves(d.steps));
  }

  /** A step that ends with Accept found End on top over a lookahead mapped to End, and popped it. */
  lemma AcceptShape(tm: TokenMap, table: Table, tokens: seq<Tokens.Token>, d: Config)
    requires d.stack != [] && d.curr < |tokens|
    requires var r := Step(false, tm, table, tokens, d);
      r.Stopped? && r.cfg.steps != [] && r.cfg.steps[|r.cfg.steps| - 1].action == Accept
    ensures Key(tokens[d.curr]) in tm && tm[Key(tokens[d.curr])].IsEnd() && d.stack[|d.stack| - 1].IsEnd()
    ensures Step(false, tm, table, tokens, d).cfg == Config(d.stack[..|d.stack| - 1], d.curr,
      d.steps + [ParseStep(d.stack[|d.stack| - 1], tm[Key(tokens[d.curr])], Accept)])
  {
  }

  /**
   * Soundness of the corrected parser: when it accepts, the grammar symbols
   * of the tokens before the end marker are the yield of the leftmost
   * derivation from the start symbol by the productions it expanded by,
   * each taken from the table.
   */
  lemma AcceptSound(tm: TokenMap, table: Table, tokens: seq<Tokens.Token>, start: Symbol, fuel: nat)
    requires HeadsMatch(table) && NoEndInBodies(table)
    requires start.IsNonTerminal()
    requires var r := Run(false, tm, table, tokens, Initial(start), fuel);
      r.Stopped? && r.cfg.steps != [] && r.cfg.steps[|r.cfg.steps| - 1].action == Accept
    ensures var r := Run(false, tm, table, tokens, Initial(start), fuel);
      r.cfg.curr < |tokens| && Key(tokens[r.cfg.curr]) in tm
      && Derive([start], Used(table, r.cfg.steps)) == Some(SymbolsOf(tm, tokens[..r.cfg.curr]))
      && tm[Key(tokens[r.cfg.curr])].IsEnd()
  {
    InitialInv(tm, table, tokens, start);
    AcceptFrom(tm, table, tokens, start, Initial(start), fuel);
  }

  /** AcceptSound from any configuration that keeps both invariants. */
  lemma AcceptFrom(tm: TokenMap, table: Table, tokens: seq<Tokens.Token>, start: Symbol, c: Config, fuel: nat)
    requires HeadsMatch(table) && NoEndInBodies(table)
    requires Inv(tm, tokens, c) && DerivInv(table, start, c)
    requires var r := Run(false, tm, table, tokens, c, fuel);
      r.Stopped? && r.cfg.steps != [] && r.cfg.steps[|r.cfg.steps| - 1].action == Accept
    ensures var r := Run(false, tm, table, tokens, c, fuel);
      r.cfg.curr < |tokens| && Key(tokens[r.cfg.curr]) in tm
      && Derive([start], Used(table, r.cfg.steps)) == Some(SymbolsOf(tm, tokens[..r.cfg.curr]))
      && tm[Key(tokens[r.cfg.curr])].IsEnd()
  {
    RunDeriv(false, tm, table, tokens, start, c, fuel);
    var d :| Inv(tm, tokens, d) && DerivInv(table, start, d) && Run(false, tm, table, tokens, c, fuel) == Step(false, tm, table, tokens, d);
    AcceptStep(tm, table, tokens, start, d);
  }

  /** The initial configuration satisfies both invariants: the form is the start symbol alone. */
  lemma InitialInv(tm: TokenMap, table: Table, tokens: seq<Tokens.Token>, start: Symbol)
    requires start.IsNonTerminal()
    ensures Inv(tm, tokens, Initial(start)) && DerivInv(table, start, Initial(start))
  {
    var c := Initial(start);
    assert tokens[..0] == [];
    assert c.stack[1..] == [start];
    assert Reverse([start]) == [start] by {
      assert [start][..0] == [];
    }
    assert NonEps([start]) == [start] by {
      assert [start][1..] == [];
    }
    assert Moves(c.steps) + NonEps(Reverse(c.stack[1..])) == [start];
  }

  /** Every recorded Move consumed one token: the number of Move steps is the cursor. */
  lemma MovesCount(tm: TokenMap, table: Table, tokens: seq<Tokens.Token>, start: Symbol, fuel: nat)
    ensures var r := Run(false, tm, table, tokens, Initial(start), fuel);
      r.Running? ==> |Moves(r.cfg.steps)| == r.cfg.curr
  {
    assert tokens[..0] == [];
    RunKeepsInv(tm, table, tokens, Initial(start), fuel);
  }

  lemma {:induction false} RunKeepsInv(tm: TokenMap, table: Table, tokens: seq<Tokens.Token>, c: Config, fuel: nat)
    requires Inv(tm, tokens, c)
    ensures var r := Run(false, tm, table, tokens, c, fuel); r.Running? ==> Inv(tm, tokens, r.cfg)
    decreases fuel
  {
    if fuel > 0 {
      StepInv(false, tm, table, tokens, c);
      if Step(false, tm, table, tokens, c).Running? {
        RunKeepsInv(tm, table, tokens, Step(false, tm, table, tokens, c).cfg, fuel - 1);
      }
    }
  }

  /** With the last token mapped to End, a running step keeps the cursor on a token: a Move never matches End. */
  lemma StepInside(written: bool, tm: TokenMap, table: Table, tokens: seq<Tokens.Token>, c: Config)
    requires EndTerminated(tm, tokens) && Inv(tm, tokens, c) && c.curr < |tokens|
    ensures var r := Step(written, tm, table, tokens, c); r.Running? ==> r.cfg.curr < |tokens|
  {
  }

  /**
   * The input the loop needs: when the last token is mapped to the end
   * marker, the loop never reaches a cursor past the last token.
   */
  lemma {:induction false} NeverPastEnd(written: bool, tm: TokenMap, table: Table, tokens: seq<Tokens.Token>, c: Config, fuel: nat)
    requires EndTerminated(tm, tokens) && Inv(tm, tokens, c) && c.curr < |tokens|
    ensures !Run(written, tm, table, tokens, c, fuel).PastEnd?
    decreases fuel
  {
    if fuel > 0 {
      StepInv(written, tm, table, tokens, c);
      StepInside(written, tm, table, tokens, c);
      if Step(written, tm, table, tokens, c).Running? {
        NeverPastEnd(written, tm, table, tokens, Step(written, tm, table, tokens, c).cfg, fuel - 1);
      }
    }
  }

  // ----------------------------------------------------------- the finding

  /** As written, End on top over any other mapped lookahead is a configuration the loop never leaves. */
  lemma {:induction false} EndSpins(tm: TokenMap, table: Table, tokens: seq<Tokens.Token>, c: Config, fuel: nat)
    requires Inv(tm, tokens, c) && c.curr < |tokens|
    requires c.stack[|c.stack| - 1].IsEnd()
    requires Key(tokens[c.curr]) in tm && !tm[Key(tokens[c.curr])].IsEnd()
    ensures Run(true, tm, table, tokens, c, fuel) == Running(c)
    ensures fuel > 0 ==>
      Run(false, tm, table, tokens, c, fuel)
      == Stopped(c.(steps := c.steps + [ParseStep(c.stack[|c.stack| - 1], tm[Key(tokens[c.curr])], Error)]))
    decreases fuel
  {
    if fuel > 0 {
      assert Step(true, tm, table, tokens, c) == Running(c);
      EndSpins(tm, table, tokens, c, fuel - 1);
    }
  }

  /** The grammar S -> ";" with its one table entry M[S, ";"]. */
  const SemiS: Production := Production(0, NT("S"), [T(";")])
  const SemiTable: Table := map[(NT("S"), T(";")) := SemiS]
  const SemiMap: TokenMap := map[
    (Tokens.SepSemicolon, Tokens.TokenCategory.Separators) := T(";"),
    (Tokens.EndOfFile, Tokens.TokenCategory.End) := EndMark()]

  function Semi(): Tokens.Token {
    Tokens.Token(Tokens.SepSemicolon, Tokens.TokenCategory.Separators, Tokens.Location(1, 1), ";")
  }

  function Eof(): Tokens.Token {
    Tokens.Token(Tokens.EndOfFile, Tokens.TokenCategory.End, Tokens.Location(1, 3), "")
  }

  /** The tokens of `; ;` followed by the end of file. */
  function SemiTokens(): seq<Tokens.Token> {
    [Semi(), Semi(), Eof()]
  }

  /** After expanding S: `;` over End, cursor on the first `;`. */
  function SemiExpanded(): Config {
    Config([EndMark(), T(";")], 0, [ParseStep(NT("S"), T(";"), Reduction)])
  }

  /** After matching the first `;`: End alone, cursor on the second `;`. */
  function SemiMatched(): Config {
    Config([EndMark()], 1, SemiExpanded().steps + [ParseStep(T(";"), T(";"), Move)])
  }

  lemma SemiKeys()
    ensures Key(Semi()) in SemiMap && SemiMap[Key(Semi())] == T(";")
    ensures Key(Eof()) in SemiMap && SemiMap[Key(Eof())] == EndMark()
    ensures EndTerminated(SemiMap, SemiTokens())
  {
  }

  lemma SemiExpandStep(written: bool)
    ensures Inv(SemiMap, SemiTokens(), Initial(NT("S")))
    ensures Step(written, SemiMap, SemiTable, SemiTokens(), Initial(NT("S"))) == Running(SemiExpanded())
  {
    SemiKeys();
    assert SemiTokens()[..0] == [];
    assert Pushed([T(";")]) == [T(";")] by {
      assert [T(";")][1..] == [];
    }
    assert [EndMark(), NT("S")][..1] == [EndMark()];
  }

  lemma SemiExpandedInv()
    ensures Inv(SemiMap, SemiTokens(), SemiExpanded())
  {
    SemiKeys();
    assert SemiTokens()[..0] == [];
    MovesSnoc([], SemiExpanded().steps[0]);
  }

  lemma SemiMatchStep(written: bool)
    ensures Step(written, SemiMap, SemiTable, SemiTokens(), SemiExpanded()) == Running(SemiMatched())
  {
    SemiKeys();
    assert [EndMark(), T(";")][..1] == [EndMark()];
  }

  lemma SemiMatchedInv()
    ensures Inv(SemiMap, SemiTokens(), SemiMatched())
  {
    SemiKeys();
    SemiExpandedInv();
    SemiMatchStep(false);
    MovesSnoc(SemiExpanded().steps, SemiMatched().steps[1]);
    SymbolsOfSnoc(SemiMap, SemiTokens(), 0);
  }

  /**
   * The input `; ;` for S -> ";": S is expanded, the first `;` matched, and
   * then End is on top over the second `;`. As written the parser never
   * returns, whatever the number of iterations; corrected, the third
   * iteration reports the error.
   */
  lemma TrailingTokenSpins(fuel: nat)
    requires fuel >= 2
    ensures EndTerminated(SemiMap, SemiTokens()) && Inv(SemiMap, SemiTokens(), Initial(NT("S")))
    ensures Run(true, SemiMap, SemiTable, SemiTokens(), Initial(NT("S")), fuel).Running?
    ensures Run(false, SemiMap, SemiTable, SemiTokens(), Initial(NT("S")), 3)
      == Stopped(SemiMatched().(steps := SemiMatched().steps + [ParseStep(EndMark(), T(";"), Error)]))
  {
    SemiKeys();
    SemiExpandStep(true);
    SemiExpandStep(false);
    SemiExpandedInv();
    SemiMatchStep(true);
    SemiMatchStep(false);
    SemiMatchedInv();
    EndSpins(SemiMap, SemiTable, SemiTokens(), SemiMatched(), fuel - 2);
    EndSpins(SemiMap, SemiTable, SemiTokens(), SemiMatched(), 1);
  }

  /** The tokens of `;` as the lexer emits them: no end-of-file token follows. */
  function SemiAlone(): seq<Tokens.Token> {
    [Semi()]
  }

  /**
   * The input `;` for S -> ";" without a final end-of-file token: S is
   * expanded, `;` is matched, and the third iteration, with End on top,
   * reads the token at index 1 of a one-token vector.
   */
  lemma MissingEndReadsPastEnd(written: bool)
    ensures Inv(SemiMap, SemiAlone(), Initial(NT("S")))
    ensures Run(written, SemiMap, SemiTable, SemiAlone(), Initial(NT("S")), 3) == PastEnd(SemiMatched())
  {
    SemiKeys();
    assert SemiAlone()[..0] == [];
    assert Pushed([T(";")]) == [T(";")] by {
      assert [T(";")][1..] == [];
    }
    assert [EndMark(), NT("S")][..1] == [EndMark()];
    assert [EndMark(), T(";")][..1] == [EndMark()];
    assert Step(written, SemiMap, SemiTable, SemiAlone(), Initial(NT("S"))) == Running(SemiExpanded());
    assert Step(written, SemiMap, SemiTable, SemiAlone(), SemiExpanded()) == Running(SemiMatched());
    assert Step(written, SemiMap, SemiTable, SemiAlone(), SemiMatched()) == PastEnd(SemiMatched());
  }

  // ------------------------------------------------- compute_action_table

  /**
   * The lookaheads on which production j is chosen: FIRST(body) without
   * epsilon symbols and, when FIRST(body) holds epsilon, FOLLOW(head).
   */
  function Predict(first: set<Symbol>, followHead: set<Symbol>): set<Symbol> {
    Solid(first) + (if Eps() in first then followHead else {})
  }

  /** The symbols of a set that are not epsilon. */
  function Solid(s: set<Symbol>): set<Symbol> {
    set a | a in s && !a.IsEpsilon()
  }

  lemma AssignOne(table: Table, A: Symbol, S: set<Symbol>, p: Production, a: Symbol)
    ensures Assign(table, A, S, p)[(A, a) := p] == Assign(table, A, S + {a}, p)
  {
    var l := Assign(table, A, S, p)[(A, a) := p];
    var r := Assign(table, A, S + {a}, p);
    forall k ensures k in l <==> k in r {
      AssignAt(table, A, S, p, k);
      AssignAt(table, A, S + {a}, p, k);
    }
    forall k | k in l ensures l[k] == r[k] {
      AssignAt(table, A, S, p, k);
      AssignAt(table, A, S + {a}, p, k);
    }
  }

  lemma AssignTwice(table: Table, A: Symbol, S1: set<Symbol>, S2: set<Symbol>, p: Production)
    ensures Assign(Assign(table, A, S1, p), A, S2, p) == Assign(table, A, S1 + S2, p)
  {
    var m := Assign(table, A, S1, p);
    var l := Assign(m, A, S2, p);
    var r := Assign(table, A, S1 + S2, p);
    forall k ensures k in l <==> k in r {
      AssignAt(table, A, S1, p, k);
      AssignAt(m, A, S2, p, k);
      AssignAt(table, A, S1 + S2, p, k);
    }
    forall k | k in l ensures l[k] == r[k] {
      AssignAt(table, A, S1, p, k);
      AssignAt(m, A, S2, p, k);
      AssignAt(table, A, S1 + S2, p, k);
    }
  }

  lemma AssignNothing(table: Table, A: Symbol, p: Production)
    ensures Assign(table, A, {}, p) == table
  {
    forall k ensures k in Assign(table, A, {}, p) <==> k in table {
      AssignAt(table, A, {}, p, k);
    }
    forall k | k in table ensures Assign(table, A, {}, p)[k] == table[k] {
      AssignAt(table, A, {}, p, k);
    }
  }

  lemma SolidStep(first: set<Symbol>, rest: set<Symbol>, a: Symbol)
    requires a in rest
    ensures Solid(first - (rest - {a})) == Solid(first - rest) + (if a in first && !a.IsEpsilon() then {a} else {})
  {
  }

  /** Enters p for every (A, a) with a in S, leaving the other entries alone. */
  function Assign(table: Table, A: Symbol, S: set<Symbol>, p: Production): Table {
    var keys := table.Keys + set a | a in S :: (A, a);
    map k | k in keys :: if k.0 == A && k.1 in S then p else table[k]
  }

  lemma AssignAt(table: Table, A: Symbol, S: set<Symbol>, p: Production, k: (Symbol, Symbol))
    ensures k in Assign(table, A, S, p) <==> k in table || (k.0 == A && k.1 in S)
    ensures k in Assign(table, A, S, p) ==> Assign(table, A, S, p)[k] == if k.0 == A && k.1 in S then p else table[k]
  {
    if k.0 == A && k.1 in S {
      assert k == (A, k.1);
    }
  }

  /** FOLLOW(A) is needed (and looked up with `at`) exactly when FIRST(body) holds epsilon. */
  predicate NeedsFollow(first: set<Symbol>, follow: map<Symbol, set<Symbol>>, head: Symbol) {
    Eps() in first && head !in follow
  }

  /**
   * The table after the first k productions: each production in order
   * overwrites M[head, a] for its predicted lookaheads; a production whose
   * FIRST holds epsilon and whose head has no FOLLOW entry makes `at` throw.
   */
  function TableAfter(prods: seq<Production>, firstOf: seq<set<Symbol>>, follow: map<Symbol, set<Symbol>>, k: nat): Result<Table>
    requires |firstOf| == |prods| && k <= |prods|
  {
    if k == 0 then Ok(map[])
    else match TableAfter(prods, firstOf, follow, k - 1)
      case Err(m) => Err(m)
      case Ok(t) =>
        var p := prods[k - 1];
        if NeedsFollow(firstOf[k - 1], follow, p.head) then Err("unordered_map::at")
        else Ok(Assign(t, p.head, Predict(firstOf[k - 1], if Eps() in firstOf[k - 1] then follow[p.head] else {}), p))
  }

  function PredictOf(prods: seq<Production>, firstOf: seq<set<Symbol>>, follow: map<Symbol, set<Symbol>>, j: nat): set<Symbol>
    requires |firstOf| == |prods| && j < |prods|
  {
    Predict(firstOf[j], if Eps() in firstOf[j] && prods[j].head in follow then follow[prods[j].head] else {})
  }

  /** The last of the first k productions that is chosen for A on lookahead a, if any. */
  function LastChosen(prods: seq<Production>, firstOf: seq<set<Symbol>>, follow: map<Symbol, set<Symbol>>,
                      A: Symbol, a: Symbol, k: nat): (r: Option<nat>)
    requires |firstOf| == |prods| && k <= |prods|
    ensures r.Some? ==> r.value < k && prods[r.value].head == A && a in PredictOf(prods, firstOf, follow, r.value)
    ensures r.None? ==> forall j :: 0 <= j < k ==> !(prods[j].head == A && a in PredictOf(prods, firstOf, follow, j))
  {
    if k == 0 then None
    else if prods[k - 1].head == A && a in PredictOf(prods, firstOf, follow, k - 1) then Some(k - 1)
    else LastChosen(prods, firstOf, follow, A, a, k - 1)
  }

  /**
   * The table is the "last writer wins" view of the productions: M[A, a]
   * exists exactly when some production of A predicts a, and it is the
   * last such production.
   */
  lemma {:induction false} TableIsLastChosen(prods: seq<Production>, firstOf: seq<set<Symbol>>,
                                              follow: map<Symbol, set<Symbol>>, k: nat, A: Symbol, a: Symbol)
    requires |firstOf| == |prods| && k <= |prods|
    requires TableAfter(prods, firstOf, follow, k).Ok?
    ensures var t := TableAfter(prods, firstOf, follow, k).value;
      var j := LastChosen(prods, firstOf, follow, A, a, k);
      ((A, a) in t <==> j.Some?) && ((A, a) in t ==> t[(A, a)] == prods[j.value])
  {
    if k > 0 {
      TableIsLastChosen(prods, firstOf, follow, k - 1, A, a);
    }
  }

  /** Once a production has made `at` throw, the table stays the error. */
  lemma {:induction false} ErrorPersists(prods: seq<Production>, firstOf: seq<set<Symbol>>, follow: map<Symbol, set<Symbol>>, k: nat, n: nat)
    requires |firstOf| == |prods| && k <= n <= |prods|
    requires TableAfter(prods, firstOf, follow, k).Err?
    ensures TableAfter(prods, firstOf, follow, n) == TableAfter(prods, firstOf, follow, k)
    decreases n - k
  {
    if k < n {
      ErrorPersists(prods, firstOf, follow, k + 1, n);
    }
  }

  /** Every entry of a computed table expands the non-terminal it is filed under. */
  lemma TableHeadsMatch(prods: seq<Production>, firstOf: seq<set<Symbol>>, follow: map<Symbol, set<Symbol>>)
    requires |firstOf| == |prods| && TableAfter(prods, firstOf, follow, |prods|).Ok?
    ensures HeadsMatch(TableAfter(prods, firstOf, follow, |prods|).value)
  {
    var t := TableAfter(prods, firstOf, follow, |prods|).value;
    forall k | k in t ensures t[k].head == k.0 {
      TableIsLastChosen(prods, firstOf, follow, |prods|, k.0, k.1);
    }
  }

  /** The table fails exactly when some production with epsilon in its FIRST set has no FOLLOW entry. */
  lemma {:induction false} TableFails(prods: seq<Production>, firstOf: seq<set<Symbol>>, follow: map<Symbol, set<Symbol>>, k: nat)
    requires |firstOf| == |prods| && k <= |prods|
    ensures TableAfter(prods, firstOf, follow, k).Err? <==>
      exists j :: 0 <= j < k && NeedsFollow(firstOf[j], follow, prods[j].head)
  {
    if k > 0 {
      TableFails(prods, firstOf, follow, k - 1);
      if NeedsFollow(firstOf[k - 1], follow, prods[k - 1].head) {
        assert 0 <= k - 1 < k && NeedsFollow(firstOf[k - 1], follow, prods[k - 1].head);
      }
    }
  }

  /**
   * compute_action_table: for each production A -> alpha in order, enters
   * it at M[A, a] for every non-epsilon a of FIRST(alpha), and, when
   * FIRST(alpha) holds epsilon, at M[A, b] for every b of FOLLOW(A) (which
   * `at` requires to exist). FIRST(alpha) comes from first_of_sequence,
   * given here per production as `firstOf`.
   */
  method ComputeActionTable(prods: seq<Production>, firstOf: seq<set<Symbol>>, follow: map<Symbol, set<Symbol>>)
    returns (r: Result<Table>)
    requires |firstOf| == |prods|
    ensures r == TableAfter(prods, firstOf, follow, |prods|)
  {
    var table: Table := map[];
    var k := 0;
    while k < |prods|
      invariant 0 <= k <= |prods|
      invariant TableAfter(prods, firstOf, follow, k) == Ok(table)
    {
      var p := prods[k];
      var first := firstOf[k];
      ghost var base := table;
      table := EnterFirst(table, p, first);
      if Eps() in first {
        if p.head !in follow {
          ErrorPersists(prods, firstOf, follow, k + 1, |prods|);
          return Err("unordered_map::at");
        }
        table := EnterFollow(table, p, follow[p.head]);
        AssignTwice(base, p.head, Solid(first), follow[p.head], p);
      } else {
        assert Solid(first) + {} == Solid(first);
      }
      k := k + 1;
    }
    return Ok(table);
  }

  /** The first inner loop: M[A, a] := p for every non-epsilon a of FIRST(alpha). */
  method EnterFirst(table0: Table, p: Production, first: set<Symbol>) returns (table: Table)
    ensures table == Assign(table0, p.head, Solid(first), p)
  {
    table := table0;
    var rest := first;
    AssignNothing(table0, p.head, p);
    assert Solid(first - rest) == {};
    while rest != {}
      invariant rest <= first
      invariant table == Assign(table0, p.head, Solid(first - rest), p)
      decreases |rest|
    {
      var a :| a in rest;
      SolidStep(first, rest, a);
      if !a.IsEpsilon() {
        AssignOne(table0, p.head, Solid(first - rest), p, a);
        table := table[(p.head, a) := p];
      }
      rest := rest - {a};
    }
    assert first - rest == first;
  }

  /** The second inner loop: M[A, b] := p for every b of FOLLOW(A). */
  method EnterFollow(table0: Table, p: Production, followHead: set<Symbol>) returns (table: Table)
    ensures table == Assign(table0, p.head, followHead, p)
  {
    table := table0;
    var rest := followHead;
    AssignNothing(table0, p.head, p);
    while rest != {}
      invariant rest <= followHead
      invariant table == Assign(table0, p.head, followHead - rest, p)
      decreases |rest|
    {
      var b :| b in rest;
      AssignOne(table0, p.head, followHead - rest, p, b);
      table := table[(p.head, b) := p];
      assert (followHead - rest) + {b} == followHead - (rest - {b});
      rest := rest - {b};
    }
    assert followHead - rest == followHead;
  }

  // ---------------------------------------------------- preprocess_tokens

  /** The brace depth after the first n tokens: `{` adds one, `}` takes one off but never below zero. */
  function BraceDepth(tokens: seq<Tokens.Token>, n: nat): nat
    requires n <= |tokens|
  {
    if n == 0 then 0
    else
      var d := BraceDepth(tokens, n - 1);
      var ty := tokens[n - 1].ty;
      if ty == Tokens.SepLBrace then d + 1
      else if ty == Tokens.SepRBrace then (if d == 0 then 0 else d - 1)
      else d
  }

  /**
   * Token i starts a function definition when it is `int` or `float` at
   * brace depth 0 (counting its own position) and is followed by a name
   * (an identifier or `main`) and `(`.
   */
  predicate StartsFuncDef(tokens: seq<Tokens.Token>, i: nat)
    requires i < |tokens|
  {
    BraceDepth(tokens, i + 1) == 0
    && tokens[i].ty in {Tokens.KwInt, Tokens.KwFloat}
    && i + 2 < |tokens|
    && tokens[i + 1].ty in {Tokens.TokenType.Identifier, Tokens.KwMain}
    && tokens[i + 2].ty == Tokens.SepLParen
  }

  /** The token that preprocess_tokens leaves at position i. */
  function Retagged(tokens: seq<Tokens.Token>, i: nat): (t: Tokens.Token)
    requires i < |tokens|
    ensures t.loc == tokens[i].loc && t.lexeme == tokens[i].lexeme
    ensures !StartsFuncDef(tokens, i) ==> t == tokens[i]
    ensures StartsFuncDef(tokens, i) ==>
      t.category == Tokens.TokenCategory.FuncDef
      && (t.ty == Tokens.KwIntFunc <==> tokens[i].ty == Tokens.KwInt)
      && (t.ty == Tokens.KwFloatFunc <==> tokens[i].ty == Tokens.KwFloat)
  {
    if StartsFuncDef(tokens, i) then
      tokens[i].(category := Tokens.TokenCategory.FuncDef,
                 ty := if tokens[i].ty == Tokens.KwInt then Tokens.KwIntFunc else Tokens.KwFloatFunc)
    else tokens[i]
  }

  /** preprocess_tokens: a copy of the tokens in which every function-definition `int`/`float` is retagged. */
  method PreprocessTokens(tokens: seq<Tokens.Token>) returns (adjusted: seq<Tokens.Token>)
    ensures adjusted == RetagAll(tokens)
  {
    adjusted := tokens;
    var depth: int := 0;
    var i := 0;
    assert adjusted == RetaggedBefore(tokens, 0);
    while i < |adjusted|
      invariant 0 <= i <= |tokens|
      invariant depth == BraceDepth(tokens, i)
      invariant adjusted == RetaggedBefore(tokens, i)
    {
      var ty := adjusted[i].ty;
      if ty == Tokens.SepLBrace {
        depth := depth + 1;
      } else if ty == Tokens.SepRBrace {
        depth := if depth - 1 < 0 then 0 else depth - 1;
      }
      assert depth == BraceDepth(tokens, i + 1);
      adjusted := RetagPosition(tokens, adjusted, i, depth);
      i := i + 1;
    }
  }

  /** The body of the preprocess_tokens loop at position i, once the depth counts token i. */
  method RetagPosition(tokens: seq<Tokens.Token>, adjusted0: seq<Tokens.Token>, i: nat, depth: int)
    returns (adjusted: seq<Tokens.Token>)
    requires i < |tokens| && adjusted0 == RetaggedBefore(tokens, i) && depth == BraceDepth(tokens, i + 1)
    ensures adjusted == RetaggedBefore(tokens, i + 1)
  {
    RetagStep(tokens, i);
    adjusted := adjusted0;
    var ty := adjusted[i].ty;
    if depth == 0 && (ty == Tokens.KwInt || ty == Tokens.KwFloat) && i + 2 < |adjusted|
      && (adjusted[i + 1].ty == Tokens.TokenType.Identifier || adjusted[i + 1].ty == Tokens.KwMain)
      && adjusted[i + 2].ty == Tokens.SepLParen
    {
      adjusted := adjusted[i := adjusted[i].(category := Tokens.TokenCategory.FuncDef,
                                             ty := if ty == Tokens.KwInt then Tokens.KwIntFunc else Tokens.KwFloatFunc)];
    }
  }

  /** The copy after the loop has handled the first i positions. */
  function RetaggedBefore(tokens: seq<Tokens.Token>, i: nat): (r: seq<Tokens.Token>)
    requires i <= |tokens|
    ensures |r| == |tokens|
  {
    seq(|tokens|, j requires 0 <= j < |tokens| => if j < i then Retagged(tokens, j) else tokens[j])
  }

  lemma RetagStep(tokens: seq<Tokens.Token>, i: nat)
    requires i < |tokens|
    ensures forall j :: i <= j < |tokens| ==> RetaggedBefore(tokens, i)[j] == tokens[j]
    ensures RetaggedBefore(tokens, i)[i := Retagged(tokens, i)] == RetaggedBefore(tokens, i + 1)
  {
  }

  /** The tokens with every position retagged. */
  function RetagAll(tokens: seq<Tokens.Token>): (r: seq<Tokens.Token>)
    ensures |r| == |tokens| && forall i :: 0 <= i < |tokens| ==> r[i] == Retagged(tokens, i)
  {
    RetaggedBefore(tokens, |tokens|)
  }

  lemma {:induction false} DepthKept(tokens: seq<Tokens.Token>, n: nat)
    requires n <= |tokens|
    ensures BraceDepth(RetagAll(tokens), n) == BraceDepth(tokens, n)
  {
    forall i | 0 <= i < n ensures SameBrace(RetagAll(tokens)[i], tokens[i]) {
      BracesKept(tokens, i);
    }
    DepthOfSameBraces(RetagAll(tokens), tokens, n);
  }

  /** Both tokens are `{`, or both are `}`, or neither is a brace. */
  predicate SameBrace(a: Tokens.Token, b: Tokens.Token) {
    (a.ty == Tokens.SepLBrace <==> b.ty == Tokens.SepLBrace) && (a.ty == Tokens.SepRBrace <==> b.ty == Tokens.SepRBrace)
  }

  /** The depth depends on the braces alone. */
  lemma {:induction false} DepthOfSameBraces(a: seq<Tokens.Token>, b: seq<Tokens.Token>, n: nat)
    requires n <= |a| && n <= |b| && forall i :: 0 <= i < n ==> SameBrace(a[i], b[i])
    ensures BraceDepth(a, n) == BraceDepth(b, n)
  {
    if n > 0 {
      DepthOfSameBraces(a, b, n - 1);
    }
  }

  /** Retagging changes no brace into something else, and nothing else into a brace. */
  lemma BracesKept(tokens: seq<Tokens.Token>, i: nat)
    requires i < |tokens|
    ensures RetagAll(tokens)[i].ty == Tokens.SepLBrace <==> tokens[i].ty == Tokens.SepLBrace
    ensures RetagAll(tokens)[i].ty == Tokens.SepRBrace <==> tokens[i].ty == Tokens.SepRBrace
  {
    var t := Retagged(tokens, i);
    assert RetagAll(tokens)[i] == t;
  }

  /** No function-definition keyword is left untagged: after retagging, no position starts a function definition. */
  lemma NoFuncDefLeft(tokens: seq<Tokens.Token>, i: nat)
    requires i < |tokens|
    ensures !StartsFuncDef(RetagAll(tokens), i)
  {
    var r := RetagAll(tokens);
    DepthKept(tokens, i + 1);
    if i + 2 < |tokens| {
      assert r[i + 1].ty in {Tokens.TokenType.Identifier, Tokens.KwMain} ==> r[i + 1] == tokens[i + 1];
      assert r[i + 2].ty == Tokens.SepLParen ==> r[i + 2] == tokens[i + 2];
    }
    assert r[i].ty in {Tokens.KwInt, Tokens.KwFloat} ==> r[i] == tokens[i];
  }

  /** Retagging twice is retagging once. */
  lemma RetagIdempotent(tokens: seq<Tokens.Token>)
    ensures RetagAll(RetagAll(tokens)) == RetagAll(tokens)
  {
    var r := RetagAll(tokens);
    forall i | 0 <= i < |tokens| ensures Retagged(r, i) == r[i] {
      NoFuncDefLeft(tokens, i);
    }
  }
}
