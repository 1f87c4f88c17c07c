// The grammar object (src/grammar/grammar.cpp): a numbered production
// list, the index from a non-terminal's name to its production ids, the
// terminal and non-terminal name sets, and the FIRST sets computed by a
// fixed-point iteration. The FIRST sets are specified as the least
// assignment that is closed under the FIRST rules and includes what was
// there before the computation started.
module Grammars {
  import opened Symbols
  import Tokens
  import GrammarRules

  datatype Production = Production(id: nat, head: Symbol, body: seq<Symbol>)

  /** A production as a caller hands it over: the head's name and the body. */
  datatype RawProduction = RawProduction(head: string, body: seq<Symbol>)

  /** Productions with semantic actions, as add_production receives them: the actions dropped. */
  function RawOf(rules: seq<GrammarRules.Rule>): (r: seq<RawProduction>)
    ensures |r| == |rules|
    ensures forall i :: 0 <= i < |r| ==> r[i].head == rules[i].head && r[i].body == rules[i].body
  {
    if rules == [] then [] else RawOf(rules[..|rules| - 1]) + [RawProduction(rules[|rules| - 1].head, rules[|rules| - 1].body)]
  }

  /** `map[key]` of the source's unordered_map<Symbol, unordered_set<Symbol>>: absent reads as empty. */
  function Lookup(m: map<Symbol, set<Symbol>>, k: Symbol): set<Symbol>
  {
    if k in m then m[k] else {}
  }

  /** `production_map_[name]`: absent reads as no productions. */
  function Ids(pm: map<string, seq<nat>>, name: string): seq<nat>
  {
    if name in pm then pm[name] else []
  }

  /** Everything a FIRST set may hold: the terminals of the grammar and epsilon. */
  function FirstUniverse(terminals: set<string>): set<Symbol>
  {
    (set t | t in terminals :: T(t)) + {Eps()}
  }

  /** Y1 .. Yi all have epsilon in their FIRST sets under F. */
  predicate NullablePrefix(F: map<Symbol, set<Symbol>>, body: seq<Symbol>, i: nat)
    requires i <= |body|
  {
    forall j :: 0 <= j < i ==> Eps() in Lookup(F, body[j])
  }

  /**
   * F respects the FIRST rules of one production A -> Y1 .. Yk: FIRST(Yi)
   * without epsilon is in FIRST(A) whenever Y1 .. Yi-1 are nullable, and
   * epsilon is in FIRST(A) when all of them are (so always when k = 0).
   */
  predicate RuleClosed(F: map<Symbol, set<Symbol>>, head: Symbol, body: seq<Symbol>)
  {
    (forall i :: 0 <= i < |body| && NullablePrefix(F, body, i) ==>
      Lookup(F, body[i]) - {Eps()} <= Lookup(F, head))
    && (NullablePrefix(F, body, |body|) ==> Eps() in Lookup(F, head))
  }

  /** F respects every FIRST rule: FIRST(a) holds a for each terminal, and every production's rule. */
  predicate FirstClosed(F: map<Symbol, set<Symbol>>, prods: seq<Production>, terminals: set<string>)
  {
    (forall t :: t in terminals ==> T(t) in Lookup(F, T(t)))
    && forall p :: 0 <= p < |prods| ==> RuleClosed(F, prods[p].head, prods[p].body)
  }

  /** Every set of F is contained in the corresponding set of G. */
  predicate Below(F: map<Symbol, set<Symbol>>, G: map<Symbol, set<Symbol>>)
  {
    forall k :: k in F ==> F[k] <= Lookup(G, k)
  }

  /** cur lies below every closed assignment that lies above base. */
  ghost predicate LeastAbove(base: map<Symbol, set<Symbol>>, cur: map<Symbol, set<Symbol>>,
                             prods: seq<Production>, terminals: set<string>)
  {
    forall G :: FirstClosed(G, prods, terminals) && Below(base, G) ==> Below(cur, G)
  }

  lemma BelowTrans(a: map<Symbol, set<Symbol>>, b: map<Symbol, set<Symbol>>, c: map<Symbol, set<Symbol>>)
    requires Below(a, b) && Below(b, c)
    ensures Below(a, c)
  {
    forall k | k in a ensures a[k] <= Lookup(c, k) {
      assert a[k] <= Lookup(b, k);
    }
  }

  lemma LeastTrans(a: map<Symbol, set<Symbol>>, b: map<Symbol, set<Symbol>>, c: map<Symbol, set<Symbol>>,
                   prods: seq<Production>, terminals: set<string>)
    requires LeastAbove(a, b, prods, terminals) && LeastAbove(b, c, prods, terminals)
    ensures LeastAbove(a, c, prods, terminals)
  {
  }

  /**
   * The FIRST sets only ever hold terminals of the grammar and epsilon;
   * FIRST of a terminal holds at most the terminal itself, and FIRST of
   * epsilon or of the end marker stays empty.
   */
  predicate FirstShape(F: map<Symbol, set<Symbol>>, terminals: set<string>)
  {
    forall k :: k in F ==>
      F[k] <= FirstUniverse(terminals)
      && (k.ty == Terminal ==> F[k] <= {k})
      && (k.ty == Epsilon || k.ty == End ==> F[k] == {})
  }

  /** The pairs (A, s) with s a possible FIRST member not yet in FIRST(A): shrinks with every change. */
  ghost function Missing(F: map<Symbol, set<Symbol>>, nts: set<string>, terminals: set<string>): set<(string, Symbol)>
  {
    set nt, s | nt in nts && s in FirstUniverse(terminals) && s !in Lookup(F, NT(nt)) :: (nt, s)
  }

  lemma MissingShrinks(f1: map<Symbol, set<Symbol>>, f2: map<Symbol, set<Symbol>>, nt: string,
                       nts: set<string>, terminals: set<string>)
    requires Below(f1, f2) && nt in nts && FirstShape(f2, terminals)
    requires Lookup(f1, NT(nt)) < Lookup(f2, NT(nt))
    ensures Missing(f2, nts, terminals) < Missing(f1, nts, terminals)
  {
    var s :| s in Lookup(f2, NT(nt)) && s !in Lookup(f1, NT(nt));
    assert NT(nt) in f2;
    assert (nt, s) in Missing(f1, nts, terminals);
    assert (nt, s) !in Missing(f2, nts, terminals);
    forall p | p in Missing(f2, nts, terminals) ensures p in Missing(f1, nts, terminals) {
      var n, x :| n in nts && x in FirstUniverse(terminals) && x !in Lookup(f2, NT(n)) && p == (n, x);
      if NT(n) in f1 {
        assert f1[NT(n)] <= Lookup(f2, NT(n));
      }
    }
  }

  /** Inserting FIRST(Yi) minus epsilon into FIRST(A) stays below any closed assignment above the old one. */
  lemma InsertJustified(F: map<Symbol, set<Symbol>>, G: map<Symbol, set<Symbol>>, head: Symbol,
                        body: seq<Symbol>, i: nat)
    requires i < |body| && NullablePrefix(F, body, i) && Below(F, G) && RuleClosed(G, head, body)
    ensures Below(F[head := Lookup(F, head) + (Lookup(F, body[i]) - {Eps()})], G)
  {
    forall j | 0 <= j < i ensures Eps() in Lookup(G, body[j]) {
      assert Eps() in Lookup(F, body[j]);
      if body[j] in F {
        assert F[body[j]] <= Lookup(G, body[j]);
      }
    }
    assert NullablePrefix(G, body, i);
    if body[i] in F {
      assert F[body[i]] <= Lookup(G, body[i]);
    }
    if head in F {
      assert F[head] <= Lookup(G, head);
    }
  }

  /** Inserting epsilon into FIRST(A) when all of the body is nullable stays below any closed assignment. */
  lemma EpsJustified(F: map<Symbol, set<Symbol>>, G: map<Symbol, set<Symbol>>, head: Symbol, body: seq<Symbol>)
    requires NullablePrefix(F, body, |body|) && Below(F, G) && RuleClosed(G, head, body)
    ensures Below(F[head := Lookup(F, head) + {Eps()}], G)
  {
    forall j | 0 <= j < |body| ensures Eps() in Lookup(G, body[j]) {
      assert Eps() in Lookup(F, body[j]);
      if body[j] in F {
        assert F[body[j]] <= Lookup(G, body[j]);
      }
    }
    assert NullablePrefix(G, body, |body|);
    if head in F {
      assert F[head] <= Lookup(G, head);
    }
  }

  /** Growing only FIRST(A) by non-epsilon symbols keeps every nullable prefix nullable and vice versa. */
  lemma NullableKept(F: map<Symbol, set<Symbol>>, head: Symbol, add: set<Symbol>, body: seq<Symbol>, i: nat)
    requires i <= |body| && Eps() !in add
    ensures NullablePrefix(F, body, i) <==> NullablePrefix(F[head := Lookup(F, head) + add], body, i)
  {
    var F' := F[head := Lookup(F, head) + add];
    forall j | 0 <= j < i ensures Eps() in Lookup(F, body[j]) <==> Eps() in Lookup(F', body[j]) {
    }
  }

  /** The productions a list of raw productions is numbered into, counting from `base`. */
  function NumberedFrom(raw: seq<RawProduction>, base: nat): (r: seq<Production>)
    ensures |r| == |raw|
  {
    if raw == [] then []
    else NumberedFrom(raw[..|raw| - 1], base) + [Production(base + |raw| - 1, NT(raw[|raw| - 1].head), raw[|raw| - 1].body)]
  }

  function Numbered(raw: seq<RawProduction>): seq<Production>
  {
    NumberedFrom(raw, 0)
  }

  /** The production numbered from raw entry `i` carries id `base + i`, its head and its body. */
  lemma {:induction false} NumberedAt(raw: seq<RawProduction>, base: nat, i: nat)
    requires i < |raw|
    ensures NumberedFrom(raw, base)[i] == Production(base + i, NT(raw[i].head), raw[i].body)
    decreases |raw|
  {
    if i < |raw| - 1 {
      NumberedAt(raw[..|raw| - 1], base, i);
    }
  }

  lemma NumberedUnfold(raw: seq<RawProduction>, base: nat)
    requires raw != []
    ensures NumberedFrom(raw, base)
      == NumberedFrom(raw[..|raw| - 1], base) + [Production(base + |raw| - 1, NT(raw[|raw| - 1].head), raw[|raw| - 1].body)]
  {
  }

  lemma ConcatAssoc<T>(a: seq<T>, b: seq<T>, c: seq<T>)
    ensures (a + b) + c == a + (b + c)
  {
  }

  lemma NumberedFromSnoc(raw: seq<RawProduction>, x: RawProduction, base: nat)
    ensures NumberedFrom(raw + [x], base) == NumberedFrom(raw, base) + [Production(base + |raw|, NT(x.head), x.body)]
  {
  }

  /** Appending the next numbered production extends the numbered prefix by one. */
  lemma {:induction false} NumberedStep(p0: seq<Production>, raw: seq<RawProduction>, k: nat, cur: seq<Production>)
    requires k < |raw| && cur == p0 + NumberedFrom(raw[..k], |p0|)
    ensures cur + [Production(|cur|, NT(raw[k].head), raw[k].body)] == p0 + NumberedFrom(raw[..k + 1], |p0|)
  {
    var q := raw[..k + 1];
    assert q[..|q| - 1] == raw[..k];
    assert q[|q| - 1] == raw[k];
    NumberedUnfold(q, |p0|);
    var a := NumberedFrom(raw[..k], |p0|);
    var y := Production(|p0| + k, NT(raw[k].head), raw[k].body);
    assert NumberedFrom(q, |p0|) == a + [y];
    assert |cur| == |p0| + k;
    ConcatAssoc(p0, a, [y]);
  }

  /** The names of the symbols of `body` of kind `ty`. */
  function NamesOf(body: seq<Symbol>, ty: SymbolType): set<string>
  {
    set s | s in body && s.ty == ty :: s.name
  }

  /**
   * Production i has id i and a non-terminal head; it is listed under its
   * head's name; every listed id names a production with that head; every
   * body symbol is classified into the name sets.
   */
  ghost predicate Indexed(prods: seq<Production>, pm: map<string, seq<nat>>,
                          terminals: set<string>, nonTerminals: set<string>)
  {
    (forall i :: 0 <= i < |prods| ==> ProductionOk(prods[i], i, pm, terminals, nonTerminals))
    && (forall name, j :: name in pm && 0 <= j < |pm[name]| ==> ListedOk(prods, name, pm[name][j]))
  }

  ghost predicate ProductionOk(p: Production, i: nat, pm: map<string, seq<nat>>,
                               terminals: set<string>, nonTerminals: set<string>)
  {
    p.id == i
    && p.head.ty == NonTerminal
    && p.head.name in nonTerminals
    && i in Ids(pm, p.head.name)
    && NamesOf(p.body, Terminal) <= terminals
    && NamesOf(p.body, NonTerminal) <= nonTerminals
  }

  ghost predicate ListedOk(prods: seq<Production>, name: string, id: nat)
  {
    id < |prods| && prods[id].head == NT(name)
  }

  lemma IndexedAfterAdd(prods: seq<Production>, pm: map<string, seq<nat>>,
                        terminals: set<string>, nonTerminals: set<string>, name: string, body: seq<Symbol>)
    requires Indexed(prods, pm, terminals, nonTerminals)
    ensures Indexed(prods + [Production(|prods|, NT(name), body)],
                    pm[name := Ids(pm, name) + [|prods|]],
                    terminals + NamesOf(body, Terminal),
                    nonTerminals + {name} + NamesOf(body, NonTerminal))
  {
    var prods' := prods + [Production(|prods|, NT(name), body)];
    var pm' := pm[name := Ids(pm, name) + [|prods|]];
    var ts' := terminals + NamesOf(body, Terminal);
    var nts' := nonTerminals + {name} + NamesOf(body, NonTerminal);
    forall i | 0 <= i < |prods'| ensures ProductionOk(prods'[i], i, pm', ts', nts') {
      if i < |prods| {
        assert prods'[i] == prods[i];
        assert ProductionOk(prods[i], i, pm, terminals, nonTerminals);
        assert Ids(pm, prods[i].head.name) <= Ids(pm', prods[i].head.name);
      } else {
        assert Ids(pm', name) == Ids(pm, name) + [|prods|];
      }
    }
    forall n, j | n in pm' && 0 <= j < |pm'[n]| ensures ListedOk(prods', n, pm'[n][j]) {
      if n != name {
        assert ListedOk(prods, n, pm[n][j]);
      } else if j < |Ids(pm, name)| {
        assert pm'[n][j] == pm[n][j];
        assert ListedOk(prods, n, pm[n][j]);
      }
    }
  }

  lemma UpdateTwice(m: map<Symbol, set<Symbol>>, k: Symbol, a: set<Symbol>, b: set<Symbol>)
    ensures m[k := a][k := b] == m[k := b]
  {
  }

  /** An assignment that differs from F only by a larger FIRST(k). */
  lemma UpdateFacts(F: map<Symbol, set<Symbol>>, F': map<Symbol, set<Symbol>>, k: Symbol)
    requires F' == F || (F' == F[k := Lookup(F', k)] && Lookup(F, k) < Lookup(F', k))
    ensures Below(F, F')
    ensures forall s :: s != k ==> Lookup(F', s) == Lookup(F, s)
  {
  }

  lemma ShapeGrows(F: map<Symbol, set<Symbol>>, terminals: set<string>, more: set<string>)
    requires FirstShape(F, terminals)
    ensures FirstShape(F, terminals + more)
  {
    assert FirstUniverse(terminals) <= FirstUniverse(terminals + more);
  }

  /** Adding symbols of the universe to the FIRST set of a non-terminal keeps the shape. */
  lemma ShapeAdd(F: map<Symbol, set<Symbol>>, terminals: set<string>, k: Symbol, add: set<Symbol>)
    requires FirstShape(F, terminals) && k.ty == NonTerminal && add <= FirstUniverse(terminals)
    ensures FirstShape(F[k := Lookup(F, k) + add], terminals)
  {
  }

  class Grammar {
    var productions: seq<Production>
    var productionMap: map<string, seq<nat>>
    var terminals: set<string>
    var nonTerminals: set<string>
    var start: Symbol
    var first: map<Symbol, set<Symbol>>
    var follow: map<Symbol, set<Symbol>>
    /** token_to_terminal_: which grammar symbol a token of a given type and category stands for. */
    var tokenMap: map<(Tokens.TokenType, Tokens.TokenCategory), Symbol>

    ghost predicate Structured()
      reads this`productions, this`productionMap, this`terminals, this`nonTerminals
    {
      Indexed(productions, productionMap, terminals, nonTerminals)
    }

    /** The productions are indexed and classified, and the FIRST sets keep their shape. */
    ghost predicate Valid()
      reads this
    {
      Structured() && FirstShape(first, terminals)
    }

    /** The grammar of a production list: numbered, indexed, classified, with its FIRST sets computed. */
    constructor FromProductions(raw: seq<RawProduction>)
      ensures Valid()
      ensures productions == Numbered(raw)
      ensures FirstClosed(first, productions, terminals)
      ensures forall G :: FirstClosed(G, productions, terminals) ==> Below(first, G)
      ensures follow == map[] && tokenMap == map[] && start == Symbol(Terminal, "")
    {
      productions := [];
      productionMap := map[];
      terminals := {};
      nonTerminals := {};
      start := Symbol(Terminal, "");
      first := map[];
      follow := map[];
      tokenMap := map[];
      new;
      AddAll(raw);
      ComputeFirstSet();
      forall G | FirstClosed(G, productions, terminals) ensures Below(first, G) {
        assert Below(map[], G);
      }
      ComputeFollowSet();
    }

    /**
     * The default grammar: init_rules sets the start symbol, registers the
     * C-- productions in order and fills the token map; then FIRST is
     * computed and FOLLOW left empty.
     */
    constructor Default()
      ensures Valid()
      ensures productions == Numbered(RawOf(GrammarRules.Rules))
      ensures start == GrammarRules.Start && tokenMap == GrammarRules.TokenMap
      ensures FirstClosed(first, productions, terminals)
      ensures forall G :: FirstClosed(G, productions, terminals) ==> Below(first, G)
      ensures follow == map[]
    {
      productions := [];
      productionMap := map[];
      terminals := {};
      nonTerminals := {};
      start := GrammarRules.Start;
      first := map[];
      follow := map[];
      tokenMap := map[];
      new;
      Init(RawOf(GrammarRules.Rules), GrammarRules.TokenMap);
    }

    /** The body of `init_rules` and the analysis after it, for any production list and token map. */
    method Init(raw: seq<RawProduction>, tm: map<(Tokens.TokenType, Tokens.TokenCategory), Symbol>)
      requires Valid() && productions == [] && first == map[] && follow == map[]
      modifies this
      ensures Valid() && start == old(start)
      ensures productions == Numbered(raw) && tokenMap == tm
      ensures FirstClosed(first, productions, terminals)
      ensures forall G :: FirstClosed(G, productions, terminals) ==> Below(first, G)
      ensures follow == map[]
    {
      AddAll(raw);
      tokenMap := tm;
      ComputeFirstSet();
      forall G | FirstClosed(G, productions, terminals) ensures Below(first, G) {
        assert Below(map[], G);
      }
      ComputeFollowSet();
    }

    /** Adds a list of productions in order (the constructor's loop). */
    method AddAll(raw: seq<RawProduction>)
      requires Valid()
      modifies this
      ensures Valid()
      ensures productions == old(productions) + NumberedFrom(raw, |old(productions)|)
      ensures first == old(first) && follow == old(follow) && start == old(start) && tokenMap == old(tokenMap)
    {
      var k := 0;
      while k < |raw|
        invariant 0 <= k <= |raw|
        invariant Valid()
        invariant productions == old(productions) + NumberedFrom(raw[..k], |old(productions)|)
        invariant first == old(first) && follow == old(follow) && start == old(start) && tokenMap == old(tokenMap)
      {
        NumberedStep(old(productions), raw, k, productions);
        AddProduction(raw[k].head, raw[k].body);
        k := k + 1;
      }
      assert raw[..k] == raw;
    }

    /**
     * add_production: the new production's id is the number of productions
     * before it, its id is appended to the head's list, the head becomes a
     * non-terminal, and the body's terminals and non-terminals are recorded
     * (epsilon and the end marker in neither set).
     */
    method AddProduction(name: string, body: seq<Symbol>)
      requires Valid()
      modifies this
      ensures Valid()
      ensures productions == old(productions) + [Production(|old(productions)|, NT(name), body)]
      ensures productionMap == old(productionMap)[name := Ids(old(productionMap), name) + [|old(productions)|]]
      ensures nonTerminals == old(nonTerminals) + {name} + NamesOf(body, NonTerminal)
      ensures terminals == old(terminals) + NamesOf(body, Terminal)
      ensures first == old(first) && follow == old(follow) && start == old(start) && tokenMap == old(tokenMap)
    {
      IndexedAfterAdd(productions, productionMap, terminals, nonTerminals, name, body);
      ShapeGrows(first, terminals, NamesOf(body, Terminal));
      var id := |productions|;
      productions := productions + [Production(id, NT(name), body)];
      productionMap := productionMap[name := Ids(productionMap, name) + [id]];
      nonTerminals := nonTerminals + {name};
      Classify(body);
    }

    /** The classification loop of add_production: terminals and non-terminals of a body, in order. */
    method Classify(body: seq<Symbol>)
      modifies this`terminals, this`nonTerminals
      ensures terminals == old(terminals) + NamesOf(body, Terminal)
      ensures nonTerminals == old(nonTerminals) + NamesOf(body, NonTerminal)
    {
      var i := 0;
      while i < |body|
        invariant 0 <= i <= |body|
        invariant nonTerminals == old(nonTerminals) + NamesOf(body[..i], NonTerminal)
        invariant terminals == old(terminals) + NamesOf(body[..i], Terminal)
      {
        assert body[..i + 1] == body[..i] + [body[i]];
        if body[i].IsTerminal() {
          terminals := terminals + {body[i].name};
        } else if body[i].IsNonTerminal() {
          nonTerminals := nonTerminals + {body[i].name};
        }
        i := i + 1;
      }
      assert body[..i] == body;
    }

    /**
     * compute_first_set: FIRST(a) gets a for every terminal, then passes over
     * all productions repeat until one changes nothing. The result is closed
     * under the FIRST rules, includes the sets it started from, and is the
     * least such assignment.
     */
    method ComputeFirstSet()
      requires Valid()
      modifies this`first
      ensures Valid()
      ensures FirstClosed(first, productions, terminals)
      ensures Below(old(first), first)
      ensures LeastAbove(old(first), first, productions, terminals)
    {
      InitTerminals();
      var changed := true;
      while changed
        invariant FirstShape(first, terminals)
        invariant forall t :: t in terminals ==> T(t) in Lookup(first, T(t))
        invariant Below(old(first), first)
        invariant LeastAbove(old(first), first, productions, terminals)
        invariant !changed ==> forall p :: 0 <= p < |productions| ==>
          RuleClosed(first, productions[p].head, productions[p].body)
        decreases Missing(first, nonTerminals, terminals), if changed then 1 else 0
      {
        ghost var before := first;
        changed := FirstPass();
        BelowTrans(old(first), before, first);
        LeastTrans(old(first), before, first, productions, terminals);
      }
    }

    /** The first loop of compute_first_set: FIRST(t) contains t for every terminal t. */
    method InitTerminals()
      requires FirstShape(first, terminals)
      modifies this`first
      ensures FirstShape(first, terminals)
      ensures forall t :: t in terminals ==> T(t) in Lookup(first, T(t))
      ensures Below(old(first), first)
      ensures LeastAbove(old(first), first, productions, terminals)
    {
      var ts := terminals;
      while ts != {}
        invariant ts <= terminals
        invariant FirstShape(first, terminals)
        invariant forall t :: t in terminals - ts ==> T(t) in Lookup(first, T(t))
        invariant Below(old(first), first)
        invariant LeastAbove(old(first), first, productions, terminals)
        decreases ts
      {
        var t :| t in ts;
        ghost var prev := first;
        first := first[T(t) := Lookup(first, T(t)) + {T(t)}];
        forall G | FirstClosed(G, productions, terminals) && Below(old(first), G) ensures Below(first, G) {
          assert Below(prev, G);
          assert T(t) in Lookup(G, T(t));
        }
        BelowTrans(old(first), prev, first);
        ts := ts - {t};
      }
    }

    /** One pass of the fixed-point loop over every non-terminal's productions. */
    method FirstPass() returns (changed: bool)
      requires Valid()
      modifies this`first
      ensures FirstShape(first, terminals)
      ensures Below(old(first), first)
      ensures LeastAbove(old(first), first, productions, terminals)
      ensures changed ==> Missing(first, nonTerminals, terminals) < Missing(old(first), nonTerminals, terminals)
      ensures !changed ==> first == old(first)
      ensures !changed ==> forall p :: 0 <= p < |productions| ==>
        RuleClosed(first, productions[p].head, productions[p].body)
    {
      changed := false;
      var todo := nonTerminals;
      while todo != {}
        invariant todo <= nonTerminals
        invariant FirstShape(first, terminals)
        invariant Below(old(first), first)
        invariant LeastAbove(old(first), first, productions, terminals)
        invariant changed ==> Missing(first, nonTerminals, terminals) < Missing(old(first), nonTerminals, terminals)
        invariant !changed ==> first == old(first)
        invariant !changed ==> forall p :: 0 <= p < |productions| && productions[p].head.name !in todo ==>
          RuleClosed(first, productions[p].head, productions[p].body)
        decreases todo
      {
        var nt :| nt in todo;
        ghost var before := first;
        var c := NonTerminalPass(nt);
        BelowTrans(old(first), before, first);
        LeastTrans(old(first), before, first, productions, terminals);
        changed := changed || c;
        todo := todo - {nt};
      }
    }

    /** The productions of one non-terminal, in the order of its id list. */
    method NonTerminalPass(nt: string) returns (changed: bool)
      requires Valid() && nt in nonTerminals
      modifies this`first
      ensures FirstShape(first, terminals)
      ensures Below(old(first), first)
      ensures LeastAbove(old(first), first, productions, terminals)
      ensures changed ==> Missing(first, nonTerminals, terminals) < Missing(old(first), nonTerminals, terminals)
      ensures !changed ==> first == old(first)
      ensures !changed ==> forall p :: 0 <= p < |productions| && productions[p].head.name == nt ==>
        RuleClosed(first, productions[p].head, productions[p].body)
    {
      changed := false;
      var ids := Ids(productionMap, nt);
      var j := 0;
      while j < |ids|
        invariant 0 <= j <= |ids|
        invariant FirstShape(first, terminals)
        invariant Below(old(first), first)
        invariant LeastAbove(old(first), first, productions, terminals)
        invariant changed ==> Missing(first, nonTerminals, terminals) < Missing(old(first), nonTerminals, terminals)
        invariant !changed ==> first == old(first)
        invariant !changed ==> forall q :: 0 <= q < j ==>
          RuleClosed(first, productions[ids[q]].head, productions[ids[q]].body)
      {
        assert nt in productionMap;
        var p := ids[j];
        ghost var before := first;
        var c := ApplyRule(NT(nt), productions[p].body);
        BelowTrans(old(first), before, first);
        forall G | FirstClosed(G, productions, terminals) && Below(old(first), G) ensures Below(first, G) {
          assert Below(before, G);
          assert RuleClosed(G, productions[p].head, productions[p].body);
        }
        if c {
          MissingShrinks(before, first, nt, nonTerminals, terminals);
        }
        changed := changed || c;
        j := j + 1;
      }
      if !changed {
        forall p | 0 <= p < |productions| && productions[p].head.name == nt
          ensures RuleClosed(first, productions[p].head, productions[p].body)
        {
          assert p in ids;
          var q :| 0 <= q < |ids| && ids[q] == p;
        }
      }
    }

    /**
     * One production A -> Y1 .. Yk: FIRST(Yi) minus epsilon joins FIRST(A)
     * up to and including the first Yi without epsilon; epsilon joins
     * FIRST(A) when there is none (in particular for an empty body). Only
     * FIRST(A) changes, and `changed` reports whether it grew.
     */
    method ApplyRule(k: Symbol, body: seq<Symbol>) returns (changed: bool)
      requires FirstShape(first, terminals) && k.ty == NonTerminal
      modifies this`first
      ensures FirstShape(first, terminals)
      ensures RuleClosed(first, k, body)
      ensures Below(old(first), first)
      ensures forall s :: s != k ==> Lookup(first, s) == Lookup(old(first), s)
      ensures changed <==> Lookup(old(first), k) < Lookup(first, k)
      ensures !changed ==> first == old(first)
      ensures forall G :: RuleClosed(G, k, body) && Below(old(first), G) ==> Below(first, G)
    {
      changed := false;
      var i := 0;
      while i < |body|
        invariant 0 <= i <= |body|
        invariant FirstShape(first, terminals)
        invariant NullablePrefix(first, body, i)
        invariant forall j :: 0 <= j < i ==> Lookup(first, body[j]) - {Eps()} <= Lookup(first, k)
        invariant changed ==> first == old(first)[k := Lookup(first, k)] && Lookup(old(first), k) < Lookup(first, k)
        invariant !changed ==> first == old(first)
        invariant forall G :: RuleClosed(G, k, body) && Below(old(first), G) ==> Below(first, G)
      {
        var fy := Lookup(first, body[i]);
        var add := fy - {Eps()};
        if !(add <= Lookup(first, k)) {
          ghost var prev := first;
          Grow(k, body, i, add);
          UpdateTwice(old(first), k, Lookup(prev, k), Lookup(first, k));
          changed := true;
        }
        if Eps() !in fy {
          UpdateFacts(old(first), first, k);
          return;
        }
        i := i + 1;
      }
      if Eps() !in Lookup(first, k) {
        forall G | RuleClosed(G, k, body) && Below(old(first), G)
          ensures Below(first[k := Lookup(first, k) + {Eps()}], G)
        {
          EpsJustified(first, G, k, body);
        }
        ShapeAdd(first, terminals, k, {Eps()});
        ghost var prev := first;
        first := first[k := Lookup(first, k) + {Eps()}];
        UpdateTwice(old(first), k, Lookup(prev, k), Lookup(first, k));
        changed := true;
      }
      UpdateFacts(old(first), first, k);
    }

    /** Adds FIRST(Yi) minus epsilon to FIRST(A) inside the scan of one production. */
    method Grow(k: Symbol, body: seq<Symbol>, i: nat, add: set<Symbol>)
      requires i < |body| && add == Lookup(first, body[i]) - {Eps()}
      requires FirstShape(first, terminals) && k.ty == NonTerminal
      requires NullablePrefix(first, body, i)
      requires forall j :: 0 <= j < i ==> Lookup(first, body[j]) - {Eps()} <= Lookup(first, k)
      modifies this`first
      ensures first == old(first)[k := Lookup(old(first), k) + add]
      ensures FirstShape(first, terminals)
      ensures NullablePrefix(first, body, i)
      ensures forall j :: 0 <= j <= i ==> Lookup(first, body[j]) - {Eps()} <= Lookup(first, k)
      ensures forall G :: RuleClosed(G, k, body) && Below(old(first), G) ==> Below(first, G)
    {
      forall G | RuleClosed(G, k, body) && Below(first, G)
        ensures Below(first[k := Lookup(first, k) + add], G)
      {
        InsertJustified(first, G, k, body, i);
      }
      NullableKept(first, k, add, body, i);
      ShapeAdd(first, terminals, k, add);
      first := first[k := Lookup(first, k) + add];
    }

    /** compute_follow_set: the body is empty, so FOLLOW is never filled in. */
    method ComputeFollowSet()
      ensures first == old(first) && follow == old(follow)
    {
    }
  }
}
