// The tokenizer (src/lexer/lexer.cpp): the rule table compiled into one
// automaton, and a maximal-munch scan that, from each position, takes the
// longest prefix whose run through the automaton ends in an accepting
// state, falls back to a one-character Invalid token, tracks the row and
// column of each token, and finally drops the spacer tokens.
module Lexer {
  import opened Common
  import opened FrontNfa
  import opened FrontDfa
  import opened DfaMinimize
  import opened Tokens
  import R = Regex

  // ---------------------------------------------------------------------
  // The rule table of `init_rules`
  // ---------------------------------------------------------------------

  datatype Rule = Rule(pattern: string, ty: TokenType, category: TokenCategory)

  const RuleCaps: string := "A|B|C|D|E|F|G|H|I|J|K|L|M|N|O|P|Q|R|S|T|U|V|W|X|Y|Z"
  const RuleLowers: string := "a|b|c|d|e|f|g|h|i|j|k|l|m|n|o|p|q|r|s|t|u|v|w|x|y|z"
  const RuleDigits: string := "0|1|2|3|4|5|6|7|8|9"
  const RuleIdStart: string := RuleCaps + "|" + RuleLowers + "|_"
  const RuleIdChar: string := RuleCaps + "|" + RuleLowers + "|" + RuleDigits + "|_"
  const RuleFloat: string :=
    "((" + RuleDigits + ")+\\.(" + RuleDigits + ")*|(" + RuleDigits + ")*\\.(" + RuleDigits + ")+)"

  /**
   * The rules in priority order: rule i is compiled with token i and
   * priority i, so of two rules matching the same text the earlier wins.
   */
  const Rules: seq<Rule> := [
    Rule("( |\t)+", TokenType.Spacer, TokenCategory.Spacer),
    Rule("\r\n", TokenType.Spacer, TokenCategory.Spacer),
    Rule("\n", TokenType.Spacer, TokenCategory.Spacer),
    Rule("\r", TokenType.Spacer, TokenCategory.Spacer),
    Rule("?i:int", KwInt, Keyword),
    Rule("?i:void", KwVoid, Keyword),
    Rule("?i:return", KwReturn, Keyword),
    Rule("?i:main", KwMain, Keyword),
    Rule("?i:float", KwFloat, Keyword),
    Rule("?i:if", KwIf, Keyword),
    Rule("?i:else", KwElse, Keyword),
    Rule("?i:const", KwConst, Keyword),
    Rule("==", OpEqual, Operator),
    Rule("<=", OpLessEqual, Operator),
    Rule(">=", OpGreaterEqual, Operator),
    Rule("!=", OpNotEqual, Operator),
    Rule("&&", OpAnd, Operator),
    Rule("\\|\\|", OpOr, Operator),
    Rule("\\+", OpPlus, Operator),
    Rule("-", OpMinus, Operator),
    Rule("\\*", OpMultiply, Operator),
    Rule("/", OpDivide, Operator),
    Rule("%", OpMod, Operator),
    Rule("=", OpAssign, Operator),
    Rule(">", OpGreater, Operator),
    Rule("<", OpLess, Operator),
    Rule("\\(", SepLParen, Separators),
    Rule("\\)", SepRParen, Separators),
    Rule("\\{", SepLBrace, Separators),
    Rule("\\}", SepRBrace, Separators),
    Rule(",", SepComma, Separators),
    Rule(";", SepSemicolon, Separators),
    Rule(RuleFloat, LiteralFloat, FloatLiteral),
    Rule("(" + RuleDigits + ")+", LiteralInt, IntLiteral),
    Rule("(" + RuleIdStart + ")(" + RuleIdChar + ")*", TokenType.Identifier, TokenCategory.Identifier),
    Rule(".", TokenType.Invalid, TokenCategory.Invalid)
  ]

  /** Every accepting state carries a rule index below n as token, with that same index as priority. */
  predicate Ranked(st: seq<NfaState>, n: int)
  {
    forall s :: 0 <= s < |st| ==> st[s].token == -1 || (0 <= st[s].token < n && st[s].priority == st[s].token)
  }

  predicate DfaRanked(st: seq<DfaState>, n: int)
  {
    forall s :: 0 <= s < |st| ==> st[s].token == -1 || (0 <= st[s].token < n && st[s].priority == st[s].token)
  }

  /** `union_many` keeps every state's accept data, and the new start accepts nothing. */
  lemma {:induction false} UnionRanked(subs: seq<Sub>, n: int)
    requires forall k :: 0 <= k < |subs| ==> Ranked(subs[k].states, n)
    ensures Ranked(UnionOf(subs), n)
  {
    if subs != [] {
      var init := subs[..|subs| - 1];
      UnionRanked(init, n);
      var acc := UnionOf(init);
      var sub := subs[|subs| - 1];
      if !Skipped(sub) {
        var a := acc + ShiftAll(sub.states, |acc|);
        forall s | 0 <= s < |a| ensures a[s].token == -1 || (0 <= a[s].token < n && a[s].priority == a[s].token) {
          if s >= |acc| {
            assert a[s] == ShiftState(sub.states[s - |acc|], |acc|);
          }
        }
      }
    }
  }

  /**
   * The compiling half of `init_rules`: rule i is compiled with token i
   * and priority i and the automata are united; an error, as `compile`
   * throws, when a pattern does not parse.
   */
  method CompileRules(rules: seq<Rule>) returns (r: Result<Nfa>)
    ensures r.Err? <==> exists i :: 0 <= i < |rules| && !R.Accepts(rules[i].pattern)
    ensures r.Ok? ==> fresh(r.value) && r.value.WellFormed() && r.value.start == 0 && |r.value.st| > 0
    ensures r.Ok? ==> Ranked(r.value.st, |rules|)
  {
    var subs: seq<Nfa> := [];
    for i := 0 to |rules|
      invariant |subs| == i && forall k :: 0 <= k < i ==> R.Accepts(rules[k].pattern)
      invariant forall k :: 0 <= k < i ==>
                  fresh(subs[k]) && subs[k].WellFormed() && 0 <= subs[k].start < |subs[k].st| &&
                  Ranked(subs[k].st, |rules|)
    {
      var re := new R.Regex(rules[i].pattern);
      var c := re.Compile(i, i);
      if c.Err? {
        return Err(c.msg);
      }
      subs := subs + [c.value];
    }
    var master := Nfa.UnionMany(subs);
    var views := Nfa.Views(subs);
    UnionInRange(views);
    UnionRanked(views, |rules|);
    r := Ok(master);
  }

  /** Subset construction keeps the ranking: a state accepts what its best NFA state accepts. */
  lemma SubsetRanked(nfa: Nfa, st: seq<DfaState>, subsets: seq<seq<int>>, n: int)
    requires Ranked(nfa.st, n) && SubsetAutomaton(nfa, st, subsets)
    ensures DfaRanked(st, n) && AllDeterministic(st)
  {
    forall k | 0 <= k < |st| ensures st[k].token == -1 || (0 <= st[k].token < n && st[k].priority == st[k].token) {
      assert nfa.IsAcceptOf(subsets[k], st[k].token, st[k].priority);
    }
  }

  /** Minimisation keeps the ranking: each new state carries the accept data of its members. */
  lemma QuotientRanked(st0: seq<DfaState>, reach: seq<bool>, m: seq<int>, st: seq<DfaState>, n: int)
    requires DfaRanked(st0, n) && QuotientOf(st0, reach, m, st)
    ensures DfaRanked(st, n)
  {
    forall g | 0 <= g < |st| ensures st[g].token == -1 || (0 <= st[g].token < n && st[g].priority == st[g].token) {
      var s := Pick(Class(m, g));
    }
  }

  // ---------------------------------------------------------------------
  // The scan, as functions of the automaton
  // ---------------------------------------------------------------------

  /** `transition(s, sym)`: the exact edge, else (for sym other than ANY) the ANY edge, else -1. */
  function Step(st: seq<DfaState>, s: int, sym: int): (r: int)
    requires DfaEdgesInRange(st) && 0 <= s < |st|
    ensures -1 <= r < |st|
    ensures r >= 0 <==> HasSym(st[s].edges, sym) || (sym != ANY && HasSym(st[s].edges, ANY))
  {
    var edges := st[s].edges;
    if HasSym(edges, sym) then edges[FirstEdge(edges, sym)].to
    else if sym != ANY && HasSym(edges, ANY) then edges[LastEdge(edges, ANY)].to
    else -1
  }

  /** The state after reading src[pos..end] from s, each char as its signed code; -1 once stuck. */
  function Walk(st: seq<DfaState>, s: int, src: string, pos: nat, end: nat): (r: int)
    requires DfaEdgesInRange(st) && 0 <= s < |st| && pos <= end <= |src|
    ensures -1 <= r < |st|
    decreases end - pos
  {
    if end == pos then s
    else
      var p := Walk(st, s, src, pos, end - 1);
      if p < 0 then -1 else Step(st, p, CharCode(src[end - 1]))
  }

  predicate Accepting(st: seq<DfaState>, s: int) { 0 <= s < |st| && st[s].token >= 0 }

  /** A run that got stuck stays stuck. */
  lemma {:induction false} WalkDead(st: seq<DfaState>, s: int, src: string, pos: nat, k: nat, end: nat)
    requires DfaEdgesInRange(st) && 0 <= s < |st| && pos <= k <= end <= |src| && Walk(st, s, src, pos, k) < 0
    ensures Walk(st, s, src, pos, end) < 0
    decreases end - k
  {
    if end > k {
      WalkDead(st, s, src, pos, k, end - 1);
    }
  }

  /**
   * The end of the longest non-empty prefix of src[pos..end] whose run
   * from s accepts, or pos when there is none.
   */
  function LongestAccept(st: seq<DfaState>, s: int, src: string, pos: nat, end: nat): (e: nat)
    requires DfaEdgesInRange(st) && 0 <= s < |st| && pos <= end <= |src|
    ensures pos <= e <= end && (e > pos ==> Accepting(st, Walk(st, s, src, pos, e)))
    decreases end - pos
  {
    if end == pos then pos
    else if Accepting(st, Walk(st, s, src, pos, end)) then end
    else LongestAccept(st, s, src, pos, end - 1)
  }

  /** One more character read without getting stuck: the longest accept moves to it exactly when its state accepts. */
  lemma LongestAcceptStep(st: seq<DfaState>, s: int, src: string, pos: nat, cursor: nat)
    requires DfaEdgesInRange(st) && 0 <= s < |st| && pos <= cursor < |src| && Walk(st, s, src, pos, cursor + 1) >= 0
    ensures LongestAccept(st, s, src, pos, cursor + 1)
            == if st[Walk(st, s, src, pos, cursor + 1)].token >= 0 then cursor + 1 else LongestAccept(st, s, src, pos, cursor)
  {
  }

  /** Nothing longer than the longest accept, up to end, is accepted. */
  lemma {:induction false} LongestAcceptMaximal(st: seq<DfaState>, s: int, src: string, pos: nat, end: nat)
    requires DfaEdgesInRange(st) && 0 <= s < |st| && pos <= end <= |src|
    ensures forall k :: LongestAccept(st, s, src, pos, end) < k <= end ==> !Accepting(st, Walk(st, s, src, pos, k))
    decreases end - pos
  {
    if end > pos && !Accepting(st, Walk(st, s, src, pos, end)) {
      LongestAcceptMaximal(st, s, src, pos, end - 1);
    }
  }

  /** Nothing past a stuck run can accept, so the longest accept is found before it. */
  lemma {:induction false} LongestDead(st: seq<DfaState>, s: int, src: string, pos: nat, c: nat, end: nat)
    requires DfaEdgesInRange(st) && 0 <= s < |st| && pos <= c < end <= |src| && Walk(st, s, src, pos, c + 1) < 0
    ensures LongestAccept(st, s, src, pos, end) == LongestAccept(st, s, src, pos, c)
    decreases end - c
  {
    WalkDead(st, s, src, pos, c + 1, end);
    if end > c + 1 {
      LongestDead(st, s, src, pos, c, end - 1);
    }
  }

  /**
   * The invariant of the inner loop of `tokenize` after reading up to
   * cursor: state is the run's state there, and the last accepting
   * position seen so far, with its state, is the longest accept up to
   * cursor.
   */
  predicate MunchInv(st: seq<DfaState>, s: int, src: string, pos: nat, cursor: nat, state: int, lastPos: nat, lastState: int)
  {
    && DfaEdgesInRange(st) && 0 <= s < |st| && pos <= cursor <= |src|
    && 0 <= state && state == Walk(st, s, src, pos, cursor)
    && lastPos == LongestAccept(st, s, src, pos, cursor)
    && (lastPos > pos ==> lastState == Walk(st, s, src, pos, lastPos))
  }

  /** Reading one more character without getting stuck keeps the invariant. */
  lemma MunchAdvance(st: seq<DfaState>, s: int, src: string, pos: nat, cursor: nat, state: int, lastPos: nat, lastState: int,
                     next: int, lastPos': nat, lastState': int)
    requires MunchInv(st, s, src, pos, cursor, state, lastPos, lastState) && cursor < |src|
    requires 0 <= next && next == Walk(st, s, src, pos, cursor + 1)
    requires st[next].token >= 0 ==> lastPos' == cursor + 1 && lastState' == next
    requires st[next].token < 0 ==> lastPos' == lastPos && lastState' == lastState
    ensures MunchInv(st, s, src, pos, cursor + 1, next, lastPos', lastState')
  {
    LongestAcceptStep(st, s, src, pos, cursor);
  }

  /** The automaton can drive a scan: edges in range, a start state, and rule indices as tokens. */
  predicate ScanReady(st: seq<DfaState>, start: int, rules: seq<Rule>)
  {
    DfaEdgesInRange(st) && 0 <= start < |st| && forall s :: 0 <= s < |st| ==> st[s].token < |rules|
  }

  /** What the scan takes at one position: the type, category and length of the token. */
  datatype Munch = Munch(ty: TokenType, category: TokenCategory, len: nat)

  /**
   * The munch at pos: the longest accepted lexeme with the type and
   * category of the rule its state accepts, or, with no accepted non-empty
   * prefix, the one character as an Invalid token (MaximalMunch).
   */
  function MunchAt(st: seq<DfaState>, start: int, rules: seq<Rule>, src: string, pos: nat): (m: Munch)
    requires ScanReady(st, start, rules) && pos < |src|
    ensures 1 <= m.len <= |src| - pos
  {
    var e := LongestAccept(st, start, src, pos, |src|);
    if e > pos then
      var accept := st[Walk(st, start, src, pos, e)].token;
      Munch(rules[accept].ty, rules[accept].category, e - pos)
    else
      Munch(TokenType.Invalid, TokenCategory.Invalid, 1)
  }

  /**
   * Maximal munch: no longer prefix than the munch is accepted; an
   * accepted munch takes the type and category of the rule its state
   * accepts, and otherwise it is the single character as Invalid.
   */
  lemma MaximalMunch(st: seq<DfaState>, start: int, rules: seq<Rule>, src: string, pos: nat)
    requires ScanReady(st, start, rules) && pos < |src|
    ensures var m := MunchAt(st, start, rules, src, pos);
            && (forall k :: pos + m.len < k <= |src| ==> !Accepting(st, Walk(st, start, src, pos, k)))
            && var w := Walk(st, start, src, pos, pos + m.len);
               if Accepting(st, w) then m.ty == rules[st[w].token].ty && m.category == rules[st[w].token].category
               else m.len == 1 && m.ty == TokenType.Invalid && m.category == TokenCategory.Invalid
  {
    LongestAcceptMaximal(st, start, src, pos, |src|);
  }

  /** A munch table for src: one munch per position, each inside the source. */
  predicate Fits(ms: seq<Munch>, src: string)
  {
    |ms| == |src| && forall p :: 0 <= p < |ms| ==> 1 <= ms[p].len <= |src| - p
  }

  /** The munch at every position of src. */
  function Munches(st: seq<DfaState>, start: int, rules: seq<Rule>, src: string): (ms: seq<Munch>)
    requires ScanReady(st, start, rules)
    ensures Fits(ms, src)
  {
    seq(|src|, p requires 0 <= p < |src| => MunchAt(st, start, rules, src, p))
  }

  /** The token of the munch at pos, at location loc. */
  function TokenFrom(ms: seq<Munch>, src: string, pos: nat, loc: Location): (t: Token)
    requires Fits(ms, src) && pos < |src|
    ensures 1 <= |t.lexeme| && pos + |t.lexeme| <= |src| && t.lexeme == src[pos..pos + |t.lexeme|]
  {
    Token(ms[pos].ty, ms[pos].category, loc, src[pos..pos + ms[pos].len])
  }

  /** The tokens of a scan and the location after the last one. */
  datatype Scanned = Scanned(tokens: seq<Token>, loc: Location)

  /** The lexemes in order, run together. */
  function Lexemes(toks: seq<Token>): string
  {
    if toks == [] then [] else Lexemes(toks[..|toks| - 1]) + toks[|toks| - 1].lexeme
  }

  /**
   * The outer loop of `tokenize` as a function: after the tokens `acc`
   * emitted so far, the token at pos, then the scan from just past it at
   * the location advanced over its lexeme, until the source is used up.
   */
  function ScanAcc(ms: seq<Munch>, src: string, pos: nat, loc: Location, acc: seq<Token>): (r: Scanned)
    requires Fits(ms, src) && pos <= |src| && loc.column >= 1
    decreases |src| - pos
  {
    if pos == |src| then Scanned(acc, loc)
    else
      var t := TokenFrom(ms, src, pos, loc);
      ScanAcc(ms, src, pos + |t.lexeme|, AdvanceLoc(loc, t.lexeme), acc + [t])
  }

  /** One round of the scan: the token of the munch at pos, then the scan from just past it. */
  lemma ScanAccStep(ms: seq<Munch>, src: string, pos: nat, loc: Location, acc: seq<Token>,
                    next: nat, loc': Location, acc': seq<Token>)
    requires Fits(ms, src) && pos < |src| && loc.column >= 1
    requires next == pos + ms[pos].len && loc' == AdvanceLoc(loc, src[pos..next])
    requires acc' == acc + [Token(ms[pos].ty, ms[pos].category, loc, src[pos..next])]
    ensures loc'.column >= 1 && ScanAcc(ms, src, pos, loc, acc) == ScanAcc(ms, src, next, loc', acc')
  {
  }

  /** The scan of the whole source from location loc, before spacers are dropped. */
  function Scan(st: seq<DfaState>, start: int, rules: seq<Rule>, src: string, loc: Location): (r: Scanned)
    requires ScanReady(st, start, rules) && loc.column >= 1
    ensures Lexemes(r.tokens) == src && |r.tokens| <= |src|
  {
    var ms := Munches(st, start, rules, src);
    ScanLexemes(ms, src, 0, loc, []);
    ScanAcc(ms, src, 0, loc, [])
  }

  /**
   * The scan keeps what was emitted, adds at most one token per
   * character, and its lexemes continue the emitted ones with the rest of
   * the source.
   */
  lemma {:induction false} ScanLexemes(ms: seq<Munch>, src: string, pos: nat, loc: Location, acc: seq<Token>)
    requires Fits(ms, src) && pos <= |src| && loc.column >= 1
    ensures var r := ScanAcc(ms, src, pos, loc, acc);
            && |acc| <= |r.tokens| <= |acc| + |src| - pos && r.tokens[..|acc|] == acc
            && Lexemes(r.tokens) == Lexemes(acc) + src[pos..]
    decreases |src| - pos
  {
    if pos == |src| {
      assert src[pos..] == [];
      assert acc[..|acc|] == acc;
    } else {
      var t := TokenFrom(ms, src, pos, loc);
      var pos', loc' := pos + |t.lexeme|, AdvanceLoc(loc, t.lexeme);
      var r := ScanAcc(ms, src, pos', loc', acc + [t]);
      assert ScanAcc(ms, src, pos, loc, acc) == r;
      ScanLexemes(ms, src, pos', loc', acc + [t]);
      LexemesStep(acc, t, r.tokens, src, pos);
    }
  }

  /** One token moved from the rest of the source onto the emitted ones. */
  lemma LexemesStep(acc: seq<Token>, t: Token, rt: seq<Token>, src: string, pos: nat)
    requires pos + |t.lexeme| <= |src| && t.lexeme == src[pos..pos + |t.lexeme|]
    requires |acc| + 1 <= |rt| && rt[..|acc| + 1] == acc + [t]
    requires Lexemes(rt) == Lexemes(acc + [t]) + src[pos + |t.lexeme|..]
    ensures rt[..|acc|] == acc && Lexemes(rt) == Lexemes(acc) + src[pos..]
  {
    PrefixOfPrefix(rt, acc, t);
    LexemesSnoc(acc, t);
    SliceSplit(src, pos, pos + |t.lexeme|);
    Assoc(Lexemes(acc), t.lexeme, src[pos + |t.lexeme|..]);
  }

  lemma Assoc(a: string, b: string, c: string)
    ensures (a + b) + c == a + (b + c)
  {
  }

  lemma PrefixOfPrefix(rt: seq<Token>, acc: seq<Token>, t: Token)
    requires |acc| + 1 <= |rt| && rt[..|acc| + 1] == acc + [t]
    ensures rt[..|acc|] == acc
  {
    assert rt[..|acc|] == rt[..|acc| + 1][..|acc|];
    assert (acc + [t])[..|acc|] == acc;
  }

  lemma LexemesSnoc(acc: seq<Token>, t: Token)
    ensures Lexemes(acc + [t]) == Lexemes(acc) + t.lexeme
  {
    assert (acc + [t])[..|acc|] == acc;
  }

  lemma SliceSplit(src: string, i: nat, j: nat)
    requires i <= j <= |src|
    ensures src[i..] == src[i..j] + src[j..]
  {
  }

  // ---------------------------------------------------------------------
  // Positions (`advance`) and spacer removal (`optimize`)
  // ---------------------------------------------------------------------

  /** The tab width of `advance`. */
  const TabWidth: int := 4

  /** One character of `advance`: newline, carriage return, tab to the next stop, anything else. */
  function AdvanceChar(loc: Location, c: char): (r: Location)
    requires loc.column >= 1
    ensures r.column >= 1 && r.line >= loc.line
    ensures c == '\t' ==> loc.column < r.column <= loc.column + TabWidth && (r.column - 1) % TabWidth == 0
  {
    if c == '\n' then Location(loc.line + 1, 1)
    else if c == '\r' then Location(loc.line, 1)
    else if c == '\t' then Location(loc.line, loc.column + (TabWidth - (loc.column - 1) % TabWidth))
    else Location(loc.line, loc.column + 1)
  }

  /** `advance` over a lexeme, which stops at the first '\0' as the C string loop does. */
  function AdvanceLoc(loc: Location, s: string): (r: Location)
    requires loc.column >= 1
    ensures r.column >= 1 && r.line >= loc.line
    decreases |s|
  {
    if s == [] || s[0] == '\0' then loc else AdvanceLoc(AdvanceChar(loc, s[0]), s[1..])
  }

  /** Advancing over a '\0'-free text in two pieces is advancing over the whole. */
  lemma {:induction false} AdvanceAppend(loc: Location, a: string, b: string)
    requires loc.column >= 1 && '\0' !in a
    ensures AdvanceLoc(loc, a + b) == AdvanceLoc(AdvanceLoc(loc, a), b)
    decreases |a|
  {
    if a == [] {
      assert a + b == b;
    } else {
      assert a[0] in a && (a + b)[0] == a[0];
      assert (a + b)[1..] == a[1..] + b;
      AdvanceAppend(AdvanceChar(loc, a[0]), a[1..], b);
    }
  }

  /** The row counts the newlines: a text without '\n' stays on its line, and each '\n' moves to column 1 of the next. */
  lemma {:induction false} AdvanceNewline(loc: Location, a: string)
    requires loc.column >= 1 && '\0' !in a && '\n' !in a
    ensures AdvanceLoc(loc, a).line == loc.line
    ensures AdvanceLoc(loc, a + "\n") == Location(loc.line + 1, 1)
    decreases |a|
  {
    if a != [] {
      assert (a + "\n")[1..] == a[1..] + "\n";
      AdvanceNewline(AdvanceChar(loc, a[0]), a[1..]);
    }
  }

  /** `optimize`'s filter: the tokens that are not spacers, in order. */
  function NonSpacer(toks: seq<Token>): (r: seq<Token>)
    ensures |r| <= |toks|
    ensures forall i :: 0 <= i < |r| ==> r[i].category != TokenCategory.Spacer && r[i] in toks
  {
    if toks == [] then []
    else NonSpacer(toks[..|toks| - 1]) +
           (if toks[|toks| - 1].category == TokenCategory.Spacer then [] else [toks[|toks| - 1]])
  }

  /** Filtering distributes over concatenation: order is kept and only spacers go. */
  lemma {:induction false} NonSpacerAppend(a: seq<Token>, b: seq<Token>)
    ensures NonSpacer(a + b) == NonSpacer(a) + NonSpacer(b)
    decreases |b|
  {
    if b == [] {
      assert a + b == a;
    } else {
      var b0 := b[..|b| - 1];
      assert (a + b)[..|a + b| - 1] == a + b0 && (a + b)[|a + b| - 1] == b[|b| - 1];
      NonSpacerAppend(a, b0);
    }
  }

  /** A list without spacers is left as it is. */
  lemma {:induction false} NonSpacerKeeps(toks: seq<Token>)
    requires forall i :: 0 <= i < |toks| ==> toks[i].category != TokenCategory.Spacer
    ensures NonSpacer(toks) == toks
  {
    if toks != [] {
      NonSpacerKeeps(toks[..|toks| - 1]);
      assert toks[..|toks| - 1] + [toks[|toks| - 1]] == toks;
    }
  }

  // ---------------------------------------------------------------------
  // The lexer object
  // ---------------------------------------------------------------------

  const EmptySourceMsg: string := "Lexer::tokenize() source is empty"
  const NoStartMsg: string := "DFA has no start state"

  class Lexer {
    var source: string
    var dfa: Dfa
    var tokens: seq<Token>
    var row: int
    var column: int
    var rules: seq<Rule>

    /** The member initialisers: no tokens yet, at row 1, column 1. */
    constructor Init(source: string, dfa: Dfa, rules: seq<Rule>)
      ensures this.source == source && this.dfa == dfa && this.rules == rules
      ensures tokens == [] && row == 1 && column == 1
    {
      this.source := source;
      this.dfa := dfa;
      this.rules := rules;
      tokens := [];
      row, column := 1, 1;
    }

    /** What the lexer keeps between calls: an automaton ready to scan, or a missing start (-1), and a column from 1. */
    predicate Valid()
      reads this, dfa
    {
      && DfaEdgesInRange(dfa.st) && column >= 1
      && (dfa.start == -1 || 0 <= dfa.start < |dfa.st|)
      && forall s :: 0 <= s < |dfa.st| ==> dfa.st[s].token < |rules|
    }

    /**
     * `Lexer(source)`: `init_rules`, subset construction, then
     * minimisation. The automaton accepts rule indices with equal
     * priority; an error when a rule pattern does not compile.
     */
    static method New(source: string) returns (r: Result<Lexer>)
      ensures r.Err? <==> exists i :: 0 <= i < |Rules| && !R.Accepts(Rules[i].pattern)
      ensures r.Ok? ==> fresh(r.value) && r.value.Valid() && 0 <= r.value.dfa.start < |r.value.dfa.st|
      ensures r.Ok? ==> r.value.source == source && r.value.tokens == [] && r.value.rules == Rules
      ensures r.Ok? ==> DfaRanked(r.value.dfa.st, |Rules|)
    {
      var rules := Rules;
      var nfa := CompileRules(rules);
      if nfa.Err? {
        return Err(nfa.msg);
      }
      var dfa := BuildDfa(nfa.value, |rules|);
      var lexer := new Lexer.Init(source, dfa, rules);
      r := Ok(lexer);
    }

    /**
     * The automaton of the constructor: the subset construction of the
     * rules' NFA, then minimised; it keeps the rule indices as tokens.
     */
    static method BuildDfa(nfa: Nfa, n: nat) returns (dfa: Dfa)
      requires nfa.WellFormed() && nfa.start == 0 && |nfa.st| > 0 && Ranked(nfa.st, n)
      ensures fresh(dfa) && DfaEdgesInRange(dfa.st) && 0 <= dfa.start < |dfa.st| && DfaRanked(dfa.st, n)
    {
      dfa := new Dfa.FromNfa(nfa);
      ghost var subsets :| SubsetAutomaton(nfa, dfa.st, subsets);
      SubsetRanked(nfa, dfa.st, subsets, n);
      ghost var st0, start0 := dfa.st, dfa.start;
      Minimalize(dfa);
      ghost var m :| QuotientOf(st0, ReachVector(st0, start0), m, dfa.st) && dfa.start == m[start0];
      QuotientRanked(st0, ReachVector(st0, start0), m, dfa.st, n);
      assert ReachVector(st0, start0)[start0];
    }

    /** `advance`: moves row and column over the lexeme, up to its first '\0'. */
    method Advance(lexeme: string)
      requires column >= 1
      modifies this`row, this`column
      ensures Location(row, column) == AdvanceLoc(Location(old(row), old(column)), lexeme)
    {
      var i := 0;
      while i < |lexeme| && lexeme[i] != '\0'
        invariant 0 <= i <= |lexeme| && column >= 1
        invariant AdvanceLoc(Location(old(row), old(column)), lexeme) == AdvanceLoc(Location(row, column), lexeme[i..])
      {
        assert lexeme[i..][1..] == lexeme[i + 1..];
        var c := lexeme[i];
        if c == '\n' {
          row := row + 1;
          column := 1;
        } else if c == '\r' {
          column := 1;
        } else if c == '\t' {
          var tabWidth := 4;
          var offset := tabWidth - (column - 1) % tabWidth;
          column := column + offset;
        } else {
          column := column + 1;
        }
        i := i + 1;
      }
    }

    /** `optimize`: drops the spacer tokens and keeps the rest in order. */
    method Optimize()
      modifies this`tokens
      ensures tokens == NonSpacer(old(tokens))
    {
      if tokens == [] {
        return;
      }
      var optimized := [];
      for i := 0 to |tokens|
        invariant optimized == NonSpacer(tokens[..i])
      {
        assert tokens[..i + 1][..i] == tokens[..i];
        if tokens[i].category != TokenCategory.Spacer {
          optimized := optimized + [tokens[i]];
        }
      }
      assert tokens[..|tokens|] == tokens;
      tokens := optimized;
    }

    /**
     * The inner loop of `tokenize`: runs the automaton from pos while it
     * has a transition, remembering the last accepting position; that is
     * the longest accepted prefix, with the state it accepts in.
     */
    method Munch(pos: nat) returns (e: nat, last: int)
      requires Valid() && 0 <= dfa.start && pos < |source|
      ensures e == LongestAccept(dfa.st, dfa.start, source, pos, |source|)
      ensures e > pos ==> last == Walk(dfa.st, dfa.start, source, pos, e)
    {
      ghost var st, src := dfa.st, source;
      var state := dfa.start;
      var cursor := pos;
      var lastState := -1;
      var lastPos: nat := pos;
      if state >= 0 && dfa.st[state].token >= 0 {
        lastState, lastPos := state, cursor;
      }
      while cursor < |source| && state >= 0
        invariant MunchInv(st, dfa.start, src, pos, cursor, state, lastPos, lastState)
        decreases |source| - cursor
      {
        var next := dfa.Transition(state, CharCode(source[cursor]));
        assert next == Step(st, state, CharCode(src[cursor])) == Walk(st, dfa.start, src, pos, cursor + 1);
        if next < 0 {
          LongestDead(st, dfa.start, src, pos, cursor, |src|);
          break;
        }
        var lastState', lastPos' := lastState, lastPos;
        if dfa.st[next].token >= 0 {
          lastState', lastPos' := next, cursor + 1;
        }
        MunchAdvance(st, dfa.start, src, pos, cursor, state, lastPos, lastState, next, lastPos', lastState');
        state, cursor, lastState, lastPos := next, cursor + 1, lastState', lastPos';
      }
      e, last := lastPos, lastState;
    }

    /**
     * One round of the outer loop of `tokenize`: emits the token the scan
     * defines at pos, at the current row and column, and advances past it.
     */
    method ScanStep(pos: nat) returns (next: nat)
      requires Valid() && 0 <= dfa.start && pos < |source|
      modifies this`tokens, this`row, this`column
      ensures Valid()
      ensures var m := MunchAt(dfa.st, dfa.start, rules, source, pos);
              && next == pos + m.len
              && tokens == old(tokens) + [Token(m.ty, m.category, Location(old(row), old(column)), source[pos..next])]
              && Location(row, column) == AdvanceLoc(Location(old(row), old(column)), source[pos..next])
    {
      var e, last := Munch(pos);
      assert e > pos ==> last >= 0;
      var token;
      if last >= 0 && e > pos {
        var accept := dfa.st[last].token;
        token := Token(rules[accept].ty, rules[accept].category, Location(row, column), source[pos..e]);
        next := e;
      } else {
        token := Token(TokenType.Invalid, TokenCategory.Invalid, Location(row, column), [source[pos]]);
        next := pos + 1;
        assert token.lexeme == source[pos..next];
      }
      tokens := tokens + [token];
      Advance(token.lexeme);
    }

    /** The outer loop of `tokenize`: one token per round until the source is used up. */
    method ScanAll()
      requires Valid() && 0 <= dfa.start
      modifies this`tokens, this`row, this`column
      ensures Valid()
      ensures var s := ScanAcc(Munches(dfa.st, dfa.start, rules, source), source, 0, Location(old(row), old(column)), old(tokens));
              tokens == s.tokens && Location(row, column) == s.loc
    {
      ghost var st, start, src, rs := dfa.st, dfa.start, source, rules;
      ghost var ms := Munches(st, start, rs, src);
      ghost var whole := ScanAcc(ms, src, 0, Location(row, column), tokens);
      var pos := 0;
      while pos < |source|
        invariant Valid() && pos <= |src| && dfa.st == st && dfa.start == start && source == src && rules == rs
        invariant ScanAcc(ms, src, pos, Location(row, column), tokens) == whole
        decreases |source| - pos
      {
        ghost var loc, acc := Location(row, column), tokens;
        assert ms[pos] == MunchAt(st, start, rs, src, pos);
        ghost var p0 := pos;
        pos := ScanStep(pos);
        ScanAccStep(ms, src, p0, loc, acc, pos, Location(row, column), tokens);
      }
    }

    /**
     * `tokenize()`: an error for an empty source; the cached tokens when
     * there are any; an error when the automaton has no start; otherwise
     * the scan of the whole source from the current row and column, with
     * the spacers dropped, leaving row and column after the last token.
     */
    method Tokenize() returns (r: Result<seq<Token>>)
      requires Valid()
      modifies this`tokens, this`row, this`column
      ensures Valid()
      ensures source == [] ==> r == Err(EmptySourceMsg) && unchanged(this)
      ensures source != [] && old(tokens) != [] ==> r == Ok(old(tokens)) && unchanged(this)
      ensures source != [] && old(tokens) == [] && dfa.start == -1 ==> r == Err(NoStartMsg) && unchanged(this)
      ensures source != [] && old(tokens) == [] && dfa.start != -1 ==>
                var s := Scan(dfa.st, dfa.start, rules, source, Location(old(row), old(column)));
                tokens == NonSpacer(s.tokens) && Location(row, column) == s.loc && r == Ok(tokens)
    {
      if source == [] {
        return Err(EmptySourceMsg);
      }
      if tokens != [] {
        return Ok(tokens);
      }
      if dfa.start == -1 {
        return Err(NoStartMsg);
      }
      ScanAll();
      Optimize();
      r := Ok(tokens);
    }

    /** `tokenize(source)`: takes the new source, clears the tokens, restarts at row 1, column 1, and scans. */
    method TokenizeSource(src: string) returns (r: Result<seq<Token>>)
      requires Valid()
      modifies this`source, this`tokens, this`row, this`column
      ensures Valid() && source == src
      ensures src == [] ==> r == Err(EmptySourceMsg)
      ensures src != [] && dfa.start == -1 ==> r == Err(NoStartMsg)
      ensures src != [] && dfa.start != -1 ==>
                var s := Scan(dfa.st, dfa.start, rules, src, Location(1, 1));
                tokens == NonSpacer(s.tokens) && Location(row, column) == s.loc && r == Ok(tokens)
    {
      source := src;
      tokens := [];
      row, column := 1, 1;
      r := Tokenize();
    }
  }
}
