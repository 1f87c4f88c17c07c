// The SLR(1) table construction of src/grammar/parser_slr.cpp: LR(0)
// closure, the canonical collection of item sets with its GO function
// (init_item_set, add_state), and the ACTION and GOTO tables
// (calc_action_goto_tables). FOLLOW sets are an input: the grammar never
// fills them.
module ParserSlr {
  import opened Common
  import opened Symbols
  import opened Grammars
  import opened SlrItems

  /** Production i has id i, and every id listed under a name indexes a production. */
  predicate WellIndexed(prods: seq<Production>, pm: map<string, seq<nat>>) {
    (forall i :: 0 <= i < |prods| ==> prods[i].id == i)
    && (forall name, j :: name in pm && 0 <= j < |pm[name]| ==> pm[name][j] < |prods|)
  }

  /** The grammar's own indexing gives what the parser relies on. */
  lemma IndexedWell(g: Grammar)
    requires g.Structured()
    ensures WellIndexed(g.productions, g.productionMap)
  {
    forall name, j | name in g.productionMap && 0 <= j < |g.productionMap[name]|
      ensures g.productionMap[name][j] < |g.productions|
    {
      assert ListedOk(g.productions, name, g.productionMap[name][j]);
    }
    forall i | 0 <= i < |g.productions| ensures g.productions[i].id == i {
      assert ProductionOk(g.productions[i], i, g.productionMap, g.terminals, g.nonTerminals);
    }
  }

  predicate ItemsIn(prods: seq<Production>, s: set<Item>) {
    forall it :: it in s ==> InRange(prods, it)
  }

  // --------------------------------------------------------------- closure

  /**
   * The items closure adds for `it`: [B -> . gamma] for every production
   * listed under B, when B is a non-terminal after the dot.
   */
  function Expansions(prods: seq<Production>, pm: map<string, seq<nat>>, it: Item): set<Item>
    requires it.prodId < |prods|
  {
    var x := Dot(prods, it);
    if x.IsNonTerminal() && x.name in pm then (set j | 0 <= j < |pm[x.name]| :: Item(pm[x.name][j], 0)) else {}
  }

  /** A set of items that already holds the expansions of each of its items. */
  predicate Closed(prods: seq<Production>, pm: map<string, seq<nat>>, s: set<Item>) {
    ItemsIn(prods, s) && forall it :: it in s ==> Expansions(prods, pm, it) <= s
  }

  /** r is the closure of `input`: the least closed set of items that contains it. */
  ghost predicate LeastClosure(prods: seq<Production>, pm: map<string, seq<nat>>, input: set<Item>, r: set<Item>) {
    input <= r && Closed(prods, pm, r)
    && forall t :: input <= t && Closed(prods, pm, t) ==> r <= t
  }

  /** A set has one closure. */
  lemma ClosureUnique(prods: seq<Production>, pm: map<string, seq<nat>>, input: set<Item>, r1: set<Item>, r2: set<Item>)
    requires LeastClosure(prods, pm, input, r1) && LeastClosure(prods, pm, input, r2)
    ensures r1 == r2
  {
  }

  /** The closure of `input`: the items that every closed superset of it holds. */
  ghost function ClosureOf(prods: seq<Production>, pm: map<string, seq<nat>>, input: set<Item>): set<Item>
    requires ItemsIn(prods, input)
  {
    set it | it in input + Universe(prods) && forall t :: input <= t && Closed(prods, pm, t) ==> it in t
  }

  /** ClosureOf is the least closed superset of the input. */
  lemma ClosureOfLeast(prods: seq<Production>, pm: map<string, seq<nat>>, input: set<Item>)
    requires WellIndexed(prods, pm) && ItemsIn(prods, input)
    ensures LeastClosure(prods, pm, input, ClosureOf(prods, pm, input))
  {
    var r := ClosureOf(prods, pm, input);
    forall it | it in r ensures Expansions(prods, pm, it) <= r {
      forall e | e in Expansions(prods, pm, it) ensures e in r {
        var x := Dot(prods, it);
        var j :| 0 <= j < |pm[x.name]| && e == Item(pm[x.name][j], 0);
        assert InRange(prods, e);
        forall t | input <= t && Closed(prods, pm, t) ensures e in t {
          assert it in t;
        }
      }
    }
  }

  /** Every item of r outside `pending` has its expansions in r. */
  ghost predicate Expanded(prods: seq<Production>, pm: map<string, seq<nat>>, r: set<Item>, pending: set<Item>) {
    forall it :: it in r && it !in pending ==> it.prodId < |prods| && Expansions(prods, pm, it) <= r
  }

  /** r lies within every closed superset of the input. */
  ghost predicate Within(prods: seq<Production>, pm: map<string, seq<nat>>, input: set<Item>, r: set<Item>) {
    forall t :: input <= t && Closed(prods, pm, t) ==> r <= t
  }

  /** The items with the dot in front of each of the listed productions. */
  function IdStarts(ids: seq<nat>): set<Item> {
    set j | 0 <= j < |ids| :: Item(ids[j], 0)
  }

  lemma IdStartsSnoc(ids: seq<nat>, k: nat)
    requires k < |ids|
    ensures IdStarts(ids[..k + 1]) == IdStarts(ids[..k]) + {Item(ids[k], 0)}
  {
    var a := ids[..k + 1];
    forall x | x in IdStarts(a) ensures x in IdStarts(ids[..k]) + {Item(ids[k], 0)} {
      var j :| 0 <= j < |a| && x == Item(a[j], 0);
      if j < k {
        assert ids[..k][j] == a[j];
      }
    }
    forall x | x in IdStarts(ids[..k]) ensures x in IdStarts(a) {
      var j :| 0 <= j < k && x == Item(ids[..k][j], 0);
      assert a[j] == ids[..k][j];
    }
    assert a[k] == ids[k];
  }

  /** Items with the dot at the start of a production. */
  function Starts(prods: seq<Production>): (r: set<Item>)
    ensures ItemsIn(prods, r)
  {
    set i | 0 <= i < |prods| :: Item(i, 0)
  }

  // ------------------------------------------------- the canonical collection

  /** Every item of the productions with the dot within the body. */
  function Universe(prods: seq<Production>): (u: set<Item>)
    ensures forall it :: it in u <==> InRange(prods, it)
  {
    set i, d | 0 <= i < |prods| && 0 <= d <= |prods[i].body| :: Item(i, d)
  }

  ghost function ItemSubsets(prods: seq<Production>): set<set<Item>> {
    set s: set<Item> | s <= Universe(prods)
  }

  /** The symbols that follow a dot in I, other than epsilon: the X for which GO(I, X) is computed. */
  function DotSymbols(prods: seq<Production>, items: set<Item>): set<Symbol>
    requires ItemsIn(prods, items)
  {
    set it | it in items && Dot(prods, it) != Eps() :: Dot(prods, it)
  }

  /** The items of I with X after the dot, advanced over X. */
  function Kernel(prods: seq<Production>, items: set<Item>, x: Symbol): (k: set<Item>)
    requires ItemsIn(prods, items) && x != Eps()
    ensures ItemsIn(prods, k)
  {
    set it | it in items && Dot(prods, it) == x :: Next(it)
  }

  datatype ItemSet = ItemSet(id: nat, items: set<Item>)

  function ItemsOf(sets: seq<ItemSet>): (r: seq<set<Item>>)
    ensures |r| == |sets| && forall k :: 0 <= k < |sets| ==> r[k] == sets[k].items
  {
    seq(|sets|, k requires 0 <= k < |sets| => sets[k].items)
  }

  /**
   * The states and their index: state k has id k and items in range, each
   * key is sorted and holds the items of the state it maps to, and every
   * state has a key.
   */
  ghost predicate StatesIndexed(prods: seq<Production>, sets: seq<ItemSet>, ids: map<seq<Item>, nat>) {
    (forall k :: 0 <= k < |sets| ==> sets[k].id == k && ItemsIn(prods, sets[k].items))
    && (forall key :: key in ids ==> ids[key] < |sets| && ItemSorted(key) && Elems(key) == sets[ids[key]].items)
    && (forall k :: 0 <= k < |sets| ==> k in ids.Values)
  }

  /** Different sorted keys hold different item sets. */
  lemma KeysDistinct(key1: seq<Item>, key2: seq<Item>)
    requires ItemSorted(key1) && ItemSorted(key2) && key1 != key2
    ensures Elems(key1) != Elems(key2)
  {
    if Elems(key1) == Elems(key2) {
      SortedUnique(key1, key2);
    }
  }

  /** No two states have the same items. */
  lemma StatesDistinct(prods: seq<Production>, sets: seq<ItemSet>, ids: map<seq<Item>, nat>, k1: nat, k2: nat)
    requires StatesIndexed(prods, sets, ids) && k1 < |sets| && k2 < |sets| && k1 != k2
    ensures sets[k1].items != sets[k2].items
  {
    assert k1 in ids.Values && k2 in ids.Values;
    var key1 :| key1 in ids && ids[key1] == k1;
    var key2 :| key2 in ids && ids[key2] == k2;
    KeysDistinct(key1, key2);
  }

  lemma {:induction false} DistinctCount<T>(s: seq<T>)
    requires NoDup(s)
    ensures |Elems(s)| == |s|
  {
    if s != [] {
      var init := s[..|s| - 1];
      assert s == init + [s[|s| - 1]];
      DistinctCount(init);
      assert s[|s| - 1] !in Elems(init);
      ElemsSnoc(init, s[|s| - 1]);
    }
  }

  /** There are at most as many states as sets of items: the work list runs dry. */
  lemma StatesBound(prods: seq<Production>, sets: seq<ItemSet>, ids: map<seq<Item>, nat>)
    requires StatesIndexed(prods, sets, ids)
    ensures |sets| <= |ItemSubsets(prods)|
  {
    var all := ItemsOf(sets);
    forall i, j | 0 <= i < j < |all| ensures all[i] != all[j] {
      StatesDistinct(prods, sets, ids, i, j);
    }
    DistinctCount(all);
    forall s | s in Elems(all) ensures s in ItemSubsets(prods) {
      var k :| 0 <= k < |all| && all[k] == s;
    }
    SubsetSize(Elems(all), ItemSubsets(prods));
  }

  /** GO(k, X) is the state whose items are the closure of the kernel of state k on X. */
  ghost predicate GoOk(prods: seq<Production>, pm: map<string, seq<nat>>, sets: seq<ItemSet>,
                       go: map<(nat, Symbol), nat>, k: nat, x: Symbol)
    requires k < |sets| && ItemsIn(prods, sets[k].items) && x != Eps()
  {
    (k, x) in go && go[(k, x)] < |sets|
    && sets[go[(k, x)]].items == ClosureOf(prods, pm, Kernel(prods, sets[k].items, x))
  }

  /** All the transitions of state k are in GO. */
  ghost predicate GoDone(prods: seq<Production>, pm: map<string, seq<nat>>, sets: seq<ItemSet>,
                         go: map<(nat, Symbol), nat>, k: nat)
    requires k < |sets| && ItemsIn(prods, sets[k].items)
  {
    forall x :: x in DotSymbols(prods, sets[k].items) ==> GoOk(prods, pm, sets, go, k, x)
  }

  /** GO is defined only for a state and a symbol after one of its dots. */
  ghost predicate GoKeys(prods: seq<Production>, sets: seq<ItemSet>, go: map<(nat, Symbol), nat>, n: nat) {
    forall key :: key in go ==>
      key.0 < n && key.0 < |sets| && ItemsIn(prods, sets[key.0].items)
      && key.1 in DotSymbols(prods, sets[key.0].items)
  }

  /**
   * The canonical collection: state 0 is the closure of [production 0, dot
   * 0], the states are distinct, and GO holds exactly the transitions of
   * every state.
   */
  ghost predicate Canonical(prods: seq<Production>, pm: map<string, seq<nat>>, sets: seq<ItemSet>,
                            ids: map<seq<Item>, nat>, go: map<(nat, Symbol), nat>) {
    StatesIndexed(prods, sets, ids) && |sets| > 0
    && |prods| > 0 && sets[0].items == ClosureOf(prods, pm, {Item(0, 0)})
    && (forall k :: 0 <= k < |sets| ==> GoDone(prods, pm, sets, go, k))
    && GoKeys(prods, sets, go, |sets|)
  }

  /**
   * The work list loop of init_item_set: state 0 is the closure of the
   * start item, the first `done` states have all their transitions, and GO
   * has no other entries.
   */
  ghost predicate WorkInv(prods: seq<Production>, pm: map<string, seq<nat>>, sets: seq<ItemSet>,
                          go: map<(nat, Symbol), nat>, done: nat) {
    WellIndexed(prods, pm) && 0 < |prods| && 0 < |sets| && done <= |sets|
    && (forall k :: 0 <= k < |sets| ==> ItemsIn(prods, sets[k].items))
    && sets[0].items == ClosureOf(prods, pm, {Item(0, 0)})
    && (forall k :: 0 <= k < done ==> GoDone(prods, pm, sets, go, k))
    && GoKeys(prods, sets, go, done)
  }

  /** One state handled: its transitions join those of the states before it. */
  lemma WorkStep(prods: seq<Production>, pm: map<string, seq<nat>>, sets0: seq<ItemSet>, go0: map<(nat, Symbol), nat>,
                 sets1: seq<ItemSet>, ids1: map<seq<Item>, nat>, go1: map<(nat, Symbol), nat>, done: nat)
    requires WorkInv(prods, pm, sets0, go0, done) && done < |sets0|
    requires |sets0| <= |sets1| && sets1[..|sets0|] == sets0 && StatesIndexed(prods, sets1, ids1)
    requires forall key :: key in go0 ==> key in go1 && go1[key] == go0[key]
    requires GoDone(prods, pm, sets1, go1, done) && GoKeys(prods, sets1, go1, done + 1)
    ensures WorkInv(prods, pm, sets1, go1, done + 1)
  {
    forall k | 0 <= k < done ensures GoDone(prods, pm, sets1, go1, k) {
      GoDoneExtend(prods, pm, sets0, sets1, go0, go1, k);
    }
    assert sets1[0] == sets0[0];
  }

  lemma WorkStart(prods: seq<Production>, pm: map<string, seq<nat>>, sets: seq<ItemSet>,
                  ids: map<seq<Item>, nat>, go: map<(nat, Symbol), nat>)
    requires WellIndexed(prods, pm) && 0 < |prods| && StatesIndexed(prods, sets, ids) && |sets| == 1 && go == map[]
    requires sets[0].items == ClosureOf(prods, pm, {Item(0, 0)})
    ensures WorkInv(prods, pm, sets, go, 0) && [0] == Range(0, |sets|)
  {
  }

  /** With every state handled, the collection is canonical. */
  lemma WorkDone(prods: seq<Production>, pm: map<string, seq<nat>>, sets: seq<ItemSet>,
                 ids: map<seq<Item>, nat>, go: map<(nat, Symbol), nat>)
    requires StatesIndexed(prods, sets, ids) && WorkInv(prods, pm, sets, go, |sets|)
    ensures Canonical(prods, pm, sets, ids, go)
  {
  }

  lemma RangeSplit(lo: nat, mid: nat, hi: nat)
    requires lo < mid <= hi
    ensures Range(lo, mid)[1..] + Range(mid, hi) == Range(lo + 1, hi)
  {
  }

  /** Appending states and adding GO entries for another state keeps what was shown of state k. */
  lemma GoDoneExtend(prods: seq<Production>, pm: map<string, seq<nat>>, sets: seq<ItemSet>, sets': seq<ItemSet>,
                     go: map<(nat, Symbol), nat>, go': map<(nat, Symbol), nat>, k: nat)
    requires k < |sets| <= |sets'| && sets'[..|sets|] == sets && ItemsIn(prods, sets[k].items)
    requires forall x :: (k, x) in go ==> (k, x) in go' && go'[(k, x)] == go[(k, x)]
    requires GoDone(prods, pm, sets, go, k)
    ensures GoDone(prods, pm, sets', go', k)
  {
    assert sets'[k] == sets[k];
    forall x | x in DotSymbols(prods, sets[k].items) ensures GoOk(prods, pm, sets', go', k, x) {
      assert GoOk(prods, pm, sets, go, k, x);
      assert sets'[go[(k, x)]] == sets[go[(k, x)]];
    }
  }

  /**
   * The state of the loop that adds the transitions of state iId: the
   * states before it are kept, the new ones are listed in `added`, the
   * groups already handled have their GO entry, and GO gained only those.
   */
  ghost predicate ExpandInv(prods: seq<Production>, pm: map<string, seq<nat>>, iId: nat, curr: set<Item>,
                            groups: map<Symbol, set<Item>>, pending: set<Symbol>,
                            sets0: seq<ItemSet>, go0: map<(nat, Symbol), nat>,
                            sets: seq<ItemSet>, go: map<(nat, Symbol), nat>, added: seq<nat>)
  {
    ExpandSets(prods, iId, curr, sets0, sets, added)
    && groups == Groups(prods, curr) && pending <= groups.Keys
    && Handled(prods, pm, iId, groups.Keys - pending, sets, go)
    && GoGrows(go0, go, iId, groups.Keys - pending)
  }

  /** The states before the loop are kept, state iId holds curr, and the new states are listed in `added`. */
  predicate ExpandSets(prods: seq<Production>, iId: nat, curr: set<Item>, sets0: seq<ItemSet>, sets: seq<ItemSet>, added: seq<nat>) {
    iId < |sets0| <= |sets| && sets[..|sets0|] == sets0 && sets[iId].items == curr && ItemsIn(prods, curr)
    && added == Range(|sets0|, |sets|)
  }

  /** Every handled symbol of state iId has its GO entry. */
  ghost predicate Handled(prods: seq<Production>, pm: map<string, seq<nat>>, iId: nat, handled: set<Symbol>,
                          sets: seq<ItemSet>, go: map<(nat, Symbol), nat>)
    requires iId < |sets| && ItemsIn(prods, sets[iId].items)
  {
    forall x :: x in handled ==> x != Eps() && GoOk(prods, pm, sets, go, iId, x)
  }

  /** GO keeps its old entries and gains only the handled symbols of state iId. */
  ghost predicate GoGrows(go0: map<(nat, Symbol), nat>, go: map<(nat, Symbol), nat>, iId: nat, handled: set<Symbol>) {
    (forall key :: key in go0 ==> key in go && go[key] == go0[key])
    && (forall key :: key in go ==> key in go0 || (key.0 == iId && key.1 in handled))
  }

  lemma ExpandStart(prods: seq<Production>, pm: map<string, seq<nat>>, iId: nat, curr: set<Item>,
                    groups: map<Symbol, set<Item>>, sets0: seq<ItemSet>, go0: map<(nat, Symbol), nat>)
    requires iId < |sets0| && sets0[iId].items == curr && ItemsIn(prods, curr) && groups == Groups(prods, curr)
    ensures ExpandInv(prods, pm, iId, curr, groups, groups.Keys, sets0, go0, sets0, go0, [])
  {
    assert sets0[..|sets0|] == sets0;
  }

  /** One group handled: its closure is a state, old or new, and GO(iId, x) points to it. */
  lemma ExpandStep(prods: seq<Production>, pm: map<string, seq<nat>>, iId: nat, curr: set<Item>,
                   groups: map<Symbol, set<Item>>, pending: set<Symbol>,
                   sets0: seq<ItemSet>, go0: map<(nat, Symbol), nat>,
                   sets1: seq<ItemSet>, go1: map<(nat, Symbol), nat>, added1: seq<nat>,
                   x: Symbol, kernel: set<Item>, jId: nat, inserted: bool)
    requires ExpandInv(prods, pm, iId, curr, groups, pending, sets0, go0, sets1, go1, added1)
    requires x in pending && GoKeys(prods, sets0, go0, iId)
    requires kernel == ClosureOf(prods, pm, groups[x])
    requires inserted ==> jId == |sets1|
    requires !inserted ==> jId < |sets1| && sets1[jId].items == kernel
    ensures ExpandInv(prods, pm, iId, curr, groups, pending - {x}, sets0, go0,
                      if inserted then sets1 + [ItemSet(jId, kernel)] else sets1,
                      go1[(iId, x) := jId],
                      if inserted then added1 + [jId] else added1)
  {
    if inserted {
      ExpandStepTo(prods, pm, iId, curr, groups, pending, sets0, go0, sets1, go1, added1,
                   sets1 + [ItemSet(jId, kernel)], added1 + [jId], x, kernel, jId, inserted);
    } else {
      ExpandStepTo(prods, pm, iId, curr, groups, pending, sets0, go0, sets1, go1, added1,
                   sets1, added1, x, kernel, jId, inserted);
    }
  }

  lemma ExpandStepTo(prods: seq<Production>, pm: map<string, seq<nat>>, iId: nat, curr: set<Item>,
                     groups: map<Symbol, set<Item>>, pending: set<Symbol>,
                     sets0: seq<ItemSet>, go0: map<(nat, Symbol), nat>,
                     sets1: seq<ItemSet>, go1: map<(nat, Symbol), nat>, added1: seq<nat>,
                     sets2: seq<ItemSet>, added2: seq<nat>,
                     x: Symbol, kernel: set<Item>, jId: nat, inserted: bool)
    requires ExpandInv(prods, pm, iId, curr, groups, pending, sets0, go0, sets1, go1, added1)
    requires x in pending && GoKeys(prods, sets0, go0, iId)
    requires kernel == ClosureOf(prods, pm, groups[x])
    requires inserted ==> jId == |sets1| && sets2 == sets1 + [ItemSet(jId, kernel)] && added2 == added1 + [jId]
    requires !inserted ==> jId < |sets1| && sets1[jId].items == kernel && sets2 == sets1 && added2 == added1
    ensures ExpandInv(prods, pm, iId, curr, groups, pending - {x}, sets0, go0, sets2, go1[(iId, x) := jId], added2)
  {
    SetsStep(prods, iId, curr, sets0, sets1, added1, sets2, added2, jId, kernel, inserted);
    assert x in DotSymbols(prods, curr);
    assert jId < |sets2| && sets2[jId].items == kernel;
    HandledStep(prods, pm, iId, groups.Keys - pending, sets1, go1, sets2, x, jId);
    assert (iId, x) !in go0;
    GoGrowsStep(go0, go1, iId, groups.Keys - pending, x, jId);
    assert groups.Keys - (pending - {x}) == (groups.Keys - pending) + {x};
  }

  lemma SetsStep(prods: seq<Production>, iId: nat, curr: set<Item>, sets0: seq<ItemSet>,
                 sets1: seq<ItemSet>, added1: seq<nat>, sets2: seq<ItemSet>, added2: seq<nat>,
                 jId: nat, kernel: set<Item>, inserted: bool)
    requires ExpandSets(prods, iId, curr, sets0, sets1, added1)
    requires inserted ==> jId == |sets1| && sets2 == sets1 + [ItemSet(jId, kernel)] && added2 == added1 + [jId]
    requires !inserted ==> sets2 == sets1 && added2 == added1
    ensures ExpandSets(prods, iId, curr, sets0, sets2, added2) && sets2[..|sets1|] == sets1
  {
    assert sets2[..|sets1|] == sets1;
    assert sets2[..|sets0|] == sets0 by {
      assert sets2[..|sets0|] == sets2[..|sets1|][..|sets0|];
    }
  }

  /** Handling x: its GO entry points to the closure's state; the entries handled before are kept. */
  lemma HandledStep(prods: seq<Production>, pm: map<string, seq<nat>>, iId: nat, handled: set<Symbol>,
                    sets1: seq<ItemSet>, go1: map<(nat, Symbol), nat>, sets2: seq<ItemSet>, x: Symbol, jId: nat)
    requires iId < |sets1| <= |sets2| && sets2[..|sets1|] == sets1 && ItemsIn(prods, sets1[iId].items)
    requires Handled(prods, pm, iId, handled, sets1, go1) && x != Eps()
    requires jId < |sets2| && sets2[jId].items == ClosureOf(prods, pm, Kernel(prods, sets1[iId].items, x))
    ensures Handled(prods, pm, iId, handled + {x}, sets2, go1[(iId, x) := jId])
  {
    assert sets2[iId] == sets1[iId];
    forall y | y in handled + {x} ensures y != Eps() && GoOk(prods, pm, sets2, go1[(iId, x) := jId], iId, y) {
      if y != x {
        GoOkExtend(prods, pm, sets1, sets2, go1, go1[(iId, x) := jId], iId, y);
      }
    }
  }

  lemma GoGrowsStep(go0: map<(nat, Symbol), nat>, go1: map<(nat, Symbol), nat>, iId: nat, handled: set<Symbol>,
                    x: Symbol, jId: nat)
    requires GoGrows(go0, go1, iId, handled) && (iId, x) !in go0
    ensures GoGrows(go0, go1[(iId, x) := jId], iId, handled + {x})
  {
  }

  lemma ExpandEnd(prods: seq<Production>, pm: map<string, seq<nat>>, iId: nat, curr: set<Item>,
                  groups: map<Symbol, set<Item>>, sets0: seq<ItemSet>, go0: map<(nat, Symbol), nat>,
                  sets: seq<ItemSet>, go: map<(nat, Symbol), nat>, added: seq<nat>)
    requires ExpandInv(prods, pm, iId, curr, groups, {}, sets0, go0, sets, go, added)
    requires GoKeys(prods, sets0, go0, iId)
    ensures GoDone(prods, pm, sets, go, iId) && GoKeys(prods, sets, go, iId + 1)
  {
    forall key | key in go
      ensures key.0 < iId + 1 && key.0 < |sets| && ItemsIn(prods, sets[key.0].items)
        && key.1 in DotSymbols(prods, sets[key.0].items)
    {
      if key in go0 {
        assert sets[key.0] == sets[..|sets0|][key.0];
      }
    }
  }

  /** The symbols after the dots of I, each with its kernel: what the first inner loop collects. */
  function Groups(prods: seq<Production>, items: set<Item>): (g: map<Symbol, set<Item>>)
    requires ItemsIn(prods, items)
    ensures g.Keys == DotSymbols(prods, items)
  {
    map x | x in DotSymbols(prods, items) :: Kernel(prods, items, x)
  }

  function Range(lo: nat, hi: nat): (r: seq<nat>)
    requires lo <= hi
    ensures |r| == hi - lo && forall i :: 0 <= i < |r| ==> r[i] == lo + i
  {
    seq(hi - lo, i requires 0 <= i < hi - lo => lo + i)
  }

  // ---------------------------------------------------------------- tables

  /** FOLLOW(A), read with operator[]: a head without an entry has an empty FOLLOW set. */
  function FollowOf(follow: map<Symbol, set<Symbol>>, a: Symbol): set<Symbol> {
    if a in follow then follow[a] else {}
  }

  /**
   * What a completed item writes at ACTION[k, a]: accept at the end marker
   * for the start production, reduce by its production on FOLLOW(head)
   * otherwise. `written` chooses is_complete as written (the dot past the
   * body) instead of Reducible (only epsilon left after the dot).
   */
  function Completion(written: bool, prods: seq<Production>, start: Symbol, follow: map<Symbol, set<Symbol>>,
                      it: Item, a: Symbol): Option<SLRAction>
    requires it.prodId < |prods|
  {
    var p := prods[it.prodId];
    if !(if written then IsComplete(prods, it) else Reducible(prods, it)) then None
    else if p.head == start then (if a == EndMark() then Some(AcceptAction()) else None)
    else if a in FollowOf(follow, p.head) then Some(ReduceBy(it.prodId))
    else None
  }

  /** The entries that the completed items of S write at ACTION[k, a]. */
  function Writers(written: bool, prods: seq<Production>, start: Symbol, follow: map<Symbol, set<Symbol>>,
                   s: set<Item>, a: Symbol): set<SLRAction>
    requires ItemsIn(prods, s)
  {
    set it | it in s && Completion(written, prods, start, follow, it, a).Some? :: Completion(written, prods, start, follow, it, a).value
  }

  /** The terminals shifted on from items of S that are not complete, when GO(k, a) exists. */
  function ShiftSymbols(prods: seq<Production>, go: map<(nat, Symbol), nat>, k: nat, s: set<Item>): set<Symbol>
    requires ItemsIn(prods, s)
  {
    set it | it in s && !IsComplete(prods, it) && Dot(prods, it).IsTerminal() && (k, Dot(prods, it)) in go :: Dot(prods, it)
  }

  /** A completed item of the start symbol's other productions: calc_action_goto_tables throws. */
  predicate BadStart(prods: seq<Production>, start: Symbol, s: set<Item>)
    requires ItemsIn(prods, s)
  {
    exists it :: it in s && Reducible(prods, it) && prods[it.prodId].head == start && it.prodId != 0
  }

  /**
   * Row k of ACTION: an entry exactly for the shifted terminals and the
   * symbols some completed item writes; a written symbol holds one of the
   * written entries (reduce and accept override shift), any other holds
   * shift(GO(k, a)).
   */
  ghost predicate RowOk(prods: seq<Production>, start: Symbol, follow: map<Symbol, set<Symbol>>,
                        go: map<(nat, Symbol), nat>, action: map<(nat, Symbol), SLRAction>, k: nat, s: set<Item>)
    requires ItemsIn(prods, s)
  {
    (forall a :: (k, a) in action <==> a in ShiftSymbols(prods, go, k, s) || Writers(false, prods, start, follow, s, a) != {})
    && (forall a :: (k, a) in action ==>
          if Writers(false, prods, start, follow, s, a) != {} then action[(k, a)] in Writers(false, prods, start, follow, s, a)
          else (k, a) in go && action[(k, a)] == ShiftTo(go[(k, a)]))
  }

  /** The state k has no entry in ACTION yet. */
  ghost predicate RowEmpty(action: map<(nat, Symbol), SLRAction>, k: nat) {
    forall key :: key in action ==> key.0 != k
  }

  /** The action table holds rows 0 .. n - 1, each as RowOk says. */
  ghost predicate RowsOk(prods: seq<Production>, start: Symbol, follow: map<Symbol, set<Symbol>>,
                         go: map<(nat, Symbol), nat>, action: map<(nat, Symbol), SLRAction>,
                         sets: seq<ItemSet>, n: nat)
    requires n <= |sets| && forall k :: 0 <= k < |sets| ==> ItemsIn(prods, sets[k].items)
  {
    (forall key :: key in action ==> key.0 < n)
    && forall k :: 0 <= k < n ==> RowOk(prods, start, follow, go, action, k, sets[k].items)
  }

  /** Appending states and adding other GO entries keeps a transition of state k. */
  lemma GoOkExtend(prods: seq<Production>, pm: map<string, seq<nat>>, sets: seq<ItemSet>, sets': seq<ItemSet>,
                   go: map<(nat, Symbol), nat>, go': map<(nat, Symbol), nat>, k: nat, x: Symbol)
    requires k < |sets| <= |sets'| && sets'[..|sets|] == sets && ItemsIn(prods, sets[k].items) && x != Eps()
    requires (k, x) in go ==> (k, x) in go' && go'[(k, x)] == go[(k, x)]
    requires GoOk(prods, pm, sets, go, k, x)
    ensures GoOk(prods, pm, sets', go', k, x)
  {
    assert sets'[k] == sets[k];
    assert sets'[go[(k, x)]] == sets[go[(k, x)]];
  }

  /** Grouping one more item: a new kernel item under the symbol after its dot, nothing for epsilon. */
  lemma GroupsAdd(prods: seq<Production>, s: set<Item>, it: Item)
    requires ItemsIn(prods, s) && InRange(prods, it) && it !in s
    ensures Dot(prods, it) == Eps() ==> Groups(prods, s + {it}) == Groups(prods, s)
    ensures Dot(prods, it) != Eps() ==>
      Groups(prods, s + {it}) == Groups(prods, s)[Dot(prods, it) :=
        (if Dot(prods, it) in Groups(prods, s) then Groups(prods, s)[Dot(prods, it)] else {}) + {Next(it)}]
  {
    if Dot(prods, it) == Eps() {
      GroupsAddEps(prods, s, it);
    } else {
      GroupsAddSym(prods, s, it, Dot(prods, it));
    }
  }

  lemma GroupsAddEps(prods: seq<Production>, s: set<Item>, it: Item)
    requires ItemsIn(prods, s) && InRange(prods, it) && Dot(prods, it) == Eps()
    ensures Groups(prods, s + {it}) == Groups(prods, s)
  {
    DotSymbolsAdd(prods, s, it);
    forall y | y in DotSymbols(prods, s) ensures Kernel(prods, s + {it}, y) == Kernel(prods, s, y) {
      KernelAdd(prods, s, it, y);
    }
  }

  lemma GroupsAddSym(prods: seq<Production>, s: set<Item>, it: Item, x: Symbol)
    requires ItemsIn(prods, s) && InRange(prods, it) && x == Dot(prods, it) && x != Eps()
    ensures var g := Groups(prods, s);
            Groups(prods, s + {it}) == g[x := (if x in g then g[x] else {}) + {Next(it)}]
  {
    DotSymbolsAdd(prods, s, it);
    var g, g' := Groups(prods, s), Groups(prods, s + {it});
    var v := (if x in g then g[x] else {}) + {Next(it)};
    assert g'.Keys == g[x := v].Keys;
    forall y | y in g'.Keys ensures g'[y] == g[x := v][y] {
      GroupAddSym(prods, s, it, x, y);
    }
    MapsEqual(g', g[x := v]);
  }

  /** Two maps with the same keys and the same value at each key are equal. */
  lemma MapsEqual<K, V>(a: map<K, V>, b: map<K, V>)
    requires a.Keys == b.Keys && forall k :: k in a.Keys ==> a[k] == b[k]
    ensures a == b
  {
  }

  /** The group of one symbol y after the item is added. */
  lemma GroupAddSym(prods: seq<Production>, s: set<Item>, it: Item, x: Symbol, y: Symbol)
    requires ItemsIn(prods, s) && InRange(prods, it) && x == Dot(prods, it) && x != Eps()
    requires y in DotSymbols(prods, s + {it})
    ensures var g := Groups(prods, s);
            Kernel(prods, s + {it}, y) == if y == x then (if x in g then g[x] else {}) + {Next(it)} else g[y]
  {
    DotSymbolsAdd(prods, s, it);
    KernelAdd(prods, s, it, y);
    if y == x && x !in DotSymbols(prods, s) {
      KernelOutside(prods, s, x);
    }
  }

  lemma DotSymbolsAdd(prods: seq<Production>, s: set<Item>, it: Item)
    requires ItemsIn(prods, s) && InRange(prods, it)
    ensures DotSymbols(prods, s + {it}) == DotSymbols(prods, s) + (if Dot(prods, it) == Eps() then {} else {Dot(prods, it)})
  {
  }

  lemma KernelAdd(prods: seq<Production>, s: set<Item>, it: Item, y: Symbol)
    requires ItemsIn(prods, s) && InRange(prods, it) && y != Eps()
    ensures Kernel(prods, s + {it}, y) == Kernel(prods, s, y) + (if Dot(prods, it) == y then {Next(it)} else {})
  {
  }

  lemma KernelOutside(prods: seq<Production>, s: set<Item>, y: Symbol)
    requires ItemsIn(prods, s) && y != Eps() && y !in DotSymbols(prods, s)
    ensures Kernel(prods, s, y) == {}
  {
    forall it | it in s ensures Dot(prods, it) != y {
      if Dot(prods, it) != Eps() {
        assert Dot(prods, it) in DotSymbols(prods, s);
      }
    }
  }

  /** Adding one item to S adds its own completion entry, if any, to the writers of each symbol. */
  lemma WritersAdd(written: bool, prods: seq<Production>, start: Symbol, follow: map<Symbol, set<Symbol>>,
                   s: set<Item>, it: Item, a: Symbol)
    requires ItemsIn(prods, s) && InRange(prods, it)
    ensures Writers(written, prods, start, follow, s + {it}, a)
      == Writers(written, prods, start, follow, s, a)
         + (if Completion(written, prods, start, follow, it, a).Some?
            then {Completion(written, prods, start, follow, it, a).value} else {})
  {
  }

  /** Row k holds exactly the shifts of the items of s: GO(k, a) for each terminal a after a dot. */
  ghost predicate ShiftSoFar(prods: seq<Production>, go: map<(nat, Symbol), nat>, action: map<(nat, Symbol), SLRAction>,
                       k: nat, s: set<Item>)
    requires ItemsIn(prods, s)
  {
    (forall a :: (k, a) in action <==> a in ShiftSymbols(prods, go, k, s))
    && (forall a :: (k, a) in action ==> (k, a) in go && action[(k, a)] == ShiftTo(go[(k, a)]))
  }

  lemma ShiftStep(prods: seq<Production>, go: map<(nat, Symbol), nat>, t1: map<(nat, Symbol), SLRAction>,
                  k: nat, before: set<Item>, item: Item)
    requires ItemsIn(prods, before) && InRange(prods, item) && ShiftSoFar(prods, go, t1, k, before)
    ensures var shifts := !IsComplete(prods, item) && Dot(prods, item).IsTerminal() && (k, Dot(prods, item)) in go;
      ShiftSoFar(prods, go, if shifts then t1[(k, Dot(prods, item)) := ShiftTo(go[(k, Dot(prods, item))])] else t1,
                 k, before + {item})
  {
  }

  lemma ShiftDone(prods: seq<Production>, start: Symbol, follow: map<Symbol, set<Symbol>>,
                  go: map<(nat, Symbol), nat>, action: map<(nat, Symbol), SLRAction>, k: nat, s: set<Item>)
    requires ItemsIn(prods, s) && ShiftSoFar(prods, go, action, k, s)
    ensures RowSoFar(prods, start, follow, go, action, k, s, {})
  {
    forall a ensures Writers(false, prods, start, follow, {}, a) == {} {
    }
  }

  ghost predicate SameOutside(t0: map<(nat, Symbol), SLRAction>, t1: map<(nat, Symbol), SLRAction>, k: nat) {
    forall key: (nat, Symbol) :: key.0 != k ==> (key in t1 <==> key in t0) && (key in t0 ==> t1[key] == t0[key])
  }

  /**
   * Row k as far as the completed items of `done` go: the shifted terminals
   * and the symbols written so far have entries, and a written symbol holds
   * one of the entries written for it.
   */
  ghost predicate RowSoFar(prods: seq<Production>, start: Symbol, follow: map<Symbol, set<Symbol>>,
                           go: map<(nat, Symbol), nat>, action: map<(nat, Symbol), SLRAction>,
                           k: nat, s: set<Item>, done: set<Item>)
    requires ItemsIn(prods, s) && done <= s
  {
    (forall a :: (k, a) in action <==> a in ShiftSymbols(prods, go, k, s) || Writers(false, prods, start, follow, done, a) != {})
    && (forall a :: (k, a) in action ==>
          if Writers(false, prods, start, follow, done, a) != {} then action[(k, a)] in Writers(false, prods, start, follow, done, a)
          else (k, a) in go && action[(k, a)] == ShiftTo(go[(k, a)]))
  }

  /**
   * What the tables say of each entry: a shift is on a terminal, to GO of
   * that terminal; accept is on the end marker, for a completed item of
   * the start symbol; a reduce is on a FOLLOW symbol of the head of a
   * production whose item is completed in that state; GOTO is GO on
   * non-terminals.
   */
  lemma TableEntries(prods: seq<Production>, start: Symbol, follow: map<Symbol, set<Symbol>>,
                     go: map<(nat, Symbol), nat>, action: map<(nat, Symbol), SLRAction>,
                     sets: seq<ItemSet>, k: nat, a: Symbol)
    requires (forall j :: 0 <= j < |sets| ==> ItemsIn(prods, sets[j].items)) && k < |sets|
    requires RowsOk(prods, start, follow, go, action, sets, |sets|) && (k, a) in action
    ensures action[(k, a)].ty == Shift ==> a.IsTerminal() && (k, a) in go && action[(k, a)] == ShiftTo(go[(k, a)])
    ensures action[(k, a)].ty == Accept ==>
      a == EndMark() && action[(k, a)] == AcceptAction()
      && exists it :: it in sets[k].items && Reducible(prods, it) && prods[it.prodId].head == start
    ensures action[(k, a)].ty == Reduce ==>
      exists it :: it in sets[k].items && Reducible(prods, it) && action[(k, a)] == ReduceBy(it.prodId)
        && prods[it.prodId].head != start && a in FollowOf(follow, prods[it.prodId].head)
    ensures action[(k, a)].ty != Error
  {
    var s := sets[k].items;
    assert RowOk(prods, start, follow, go, action, k, s);
    var w := Writers(false, prods, start, follow, s, a);
    if w != {} {
      var it :| it in s && Completion(false, prods, start, follow, it, a).Some?
        && action[(k, a)] == Completion(false, prods, start, follow, it, a).value;
    } else {
      assert a in ShiftSymbols(prods, go, k, s);
      var it :| it in s && !IsComplete(prods, it) && Dot(prods, it).IsTerminal() && (k, Dot(prods, it)) in go && a == Dot(prods, it);
    }
  }

  /**
   * The empty compilation unit. Its grammar has Program -> CompUnit and
   * CompUnit -> epsilon, with the end marker in FOLLOW(CompUnit); the
   * start state is the closure {[Program -> . CompUnit], [CompUnit -> . epsilon]}.
   * With is_complete as written, no item of that state writes anything at
   * the end marker, and nothing is shifted, so the empty input has no
   * action: CompUnit -> epsilon is never reduced. With Reducible it is
   * reduced there.
   */
  lemma EpsilonNeverReduced()
    ensures var program := NT("Program");
      var unit := NT("CompUnit");
      var prods := [Production(0, program, [unit]), Production(1, unit, [Eps()])];
      var pm := map["Program" := [0], "CompUnit" := [1]];
      var follow := map[unit := {EndMark()}];
      var i0 := {Item(0, 0), Item(1, 0)};
      ItemsIn(prods, i0)
      && LeastClosure(prods, pm, {Item(0, 0)}, i0)
      && ShiftSymbols(prods, map[(0, unit) := 1], 0, i0) == {}
      && Writers(true, prods, program, follow, i0, EndMark()) == {}
      && Writers(false, prods, program, follow, i0, EndMark()) == {ReduceBy(1)}
  {
    var program := NT("Program");
    var unit := NT("CompUnit");
    var prods := [Production(0, program, [unit]), Production(1, unit, [Eps()])];
    var pm := map["Program" := [0], "CompUnit" := [1]];
    var follow := map[unit := {EndMark()}];
    var i0 := {Item(0, 0), Item(1, 0)};
    assert Dot(prods, Item(0, 0)) == unit;
    assert Dot(prods, Item(1, 0)) == Eps();
    assert pm[unit.name] == [1] && pm[unit.name][0] == 1;
    assert Item(1, 0) in Expansions(prods, pm, Item(0, 0));
    assert Expansions(prods, pm, Item(0, 0)) <= i0;
    assert Expansions(prods, pm, Item(1, 0)) == {};
    assert Closed(prods, pm, i0);
    assert Completion(true, prods, program, follow, Item(0, 0), EndMark()).None?;
    assert Completion(true, prods, program, follow, Item(1, 0), EndMark()).None?;
    assert Completion(false, prods, program, follow, Item(0, 0), EndMark()).None?;
    assert Completion(false, prods, program, follow, Item(1, 0), EndMark()) == Some(ReduceBy(1));
  }

  class SLRParser {
    const prods: seq<Production>
    const pm: map<string, seq<nat>>
    const start: Symbol
    const follow: map<Symbol, set<Symbol>>
    var itemSets: seq<ItemSet>
    var stateId: map<seq<Item>, nat>
    var goFunc: map<(nat, Symbol), nat>
    var actionTable: map<(nat, Symbol), SLRAction>
    var gotoTable: map<(nat, Symbol), nat>
    /** Ok, or the exception construction ended with. */
    var built: Result<()>

    /**
     * SLRParser(grammar): the canonical collection, then the tables; the
     * construction throws when a completed item of the start symbol is not
     * production 0.
     */
    constructor(g: Grammar)
      requires g.Structured() && |g.productions| > 0
      ensures prods == g.productions && pm == g.productionMap && start == g.start && follow == g.follow
      ensures Canonical(prods, pm, itemSets, stateId, goFunc)
      ensures built.Err? <==> exists k :: 0 <= k < |itemSets| && BadStart(prods, start, itemSets[k].items)
      ensures built.Ok? ==>
        gotoTable == (map key | key in goFunc && key.1.IsNonTerminal() :: goFunc[key])
        && RowsOk(prods, start, follow, goFunc, actionTable, itemSets, |itemSets|)
    {
      prods := g.productions;
      pm := g.productionMap;
      start := g.start;
      follow := g.follow;
      itemSets := [];
      stateId := map[];
      goFunc := map[];
      actionTable := map[];
      gotoTable := map[];
      built := Ok(());
      new;
      IndexedWell(g);
      InitItemSet();
      built := CalcActionGotoTables();
    }

    /**
     * closure: the queue starts with the input items; each item with a
     * non-terminal B after the dot adds [B -> . gamma] for the productions
     * listed under B, queueing those not yet present.
     */
    method Closure(input: set<Item>) returns (r: set<Item>)
      requires WellIndexed(prods, pm) && ItemsIn(prods, input)
      ensures r == ClosureOf(prods, pm, input)
    {
      var q: seq<Item> := [];
      var rest := input;
      while rest != {}
        invariant rest <= input && Elems(q) == input - rest
        decreases |rest|
      {
        var it :| it in rest;
        ElemsSnoc(q, it);
        q := q + [it];
        rest := rest - {it};
      }
      r := input;
      ghost var bound := input + Starts(prods);
      SubsetSize(r, bound);
      while q != []
        invariant r <= bound && |r| <= |bound| && input <= r && Elems(q) <= r
        invariant Expanded(prods, pm, r, Elems(q))
        invariant Within(prods, pm, input, r)
        decreases |bound| - |r|, |q|
      {
        var item := q[0];
        assert item in Elems(q) && q == [item] + q[1..];
        ElemsAppend([item], q[1..]);
        q := q[1..];
        var sym := Dot(prods, item);
        if sym.IsNonTerminal() && sym.name in pm {
          ghost var r0, q0 := r, q;
          r, q := AddExpansions(pm[sym.name], r, q);
          ExpansionStep(input, bound, item, r0, q0, r, q);
          SubsetSize(r, bound);
        }
      }
      assert LeastClosure(prods, pm, input, r);
      ClosureOfLeast(prods, pm, input);
      ClosureUnique(prods, pm, input, r, ClosureOf(prods, pm, input));
    }

    /**
     * The inner loop of closure: [B -> . gamma] for each listed production,
     * inserted into the set and queued when it was not there yet.
     */
    method AddExpansions(ids: seq<nat>, r: set<Item>, q: seq<Item>) returns (r': set<Item>, q': seq<Item>)
      ensures r' == r + IdStarts(ids)
      ensures Elems(q') == Elems(q) + (r' - r) && |r| <= |r'| && |q'| + |r| == |q| + |r'|
    {
      r', q' := r, q;
      var k := 0;
      while k < |ids|
        invariant 0 <= k <= |ids|
        invariant r' == r + IdStarts(ids[..k])
        invariant Elems(q') == Elems(q) + (r' - r) && |r| <= |r'| && |q'| + |r| == |q| + |r'|
      {
        var newItem := Item(ids[k], 0);
        IdStartsSnoc(ids, k);
        if newItem !in r' {
          ElemsSnoc(q', newItem);
          r' := r' + {newItem};
          q' := q' + [newItem];
        }
        k := k + 1;
      }
      assert ids[..k] == ids;
    }

    /** One round of the closure loop keeps its invariants. */
    lemma ExpansionStep(input: set<Item>, bound: set<Item>, item: Item, r0: set<Item>, q0: seq<Item>, r: set<Item>, q: seq<Item>)
      requires WellIndexed(prods, pm) && bound == input + Starts(prods)
      requires r0 <= bound && item in r0 && Elems(q0) <= r0 && item.prodId < |prods|
      requires Dot(prods, item).IsNonTerminal() && Dot(prods, item).name in pm
      requires Expanded(prods, pm, r0, Elems(q0) + {item}) && Within(prods, pm, input, r0)
      requires r == r0 + IdStarts(pm[Dot(prods, item).name]) && Elems(q) == Elems(q0) + (r - r0)
      ensures r <= bound && Elems(q) <= r && Expanded(prods, pm, r, Elems(q)) && Within(prods, pm, input, r)
    {
      var ids := pm[Dot(prods, item).name];
      assert IdStarts(ids) == Expansions(prods, pm, item);
      forall x | x in IdStarts(ids) ensures x in Starts(prods) {
        var j :| 0 <= j < |ids| && x == Item(ids[j], 0);
      }
      forall t | input <= t && Closed(prods, pm, t) ensures r <= t {
        assert item in t;
      }
    }

    /**
     * add_state: the state already made for these items (found by their
     * sorted key), or a new state with the next id.
     */
    method AddState(items: set<Item>) returns (id: nat, isNew: bool)
      requires StatesIndexed(prods, itemSets, stateId) && ItemsIn(prods, items)
      modifies this`itemSets, this`stateId
      ensures StatesIndexed(prods, itemSets, stateId)
      ensures id < |itemSets| && itemSets[id].items == items
      ensures isNew <==> forall k :: 0 <= k < |old(itemSets)| ==> old(itemSets)[k].items != items
      ensures isNew ==> id == |old(itemSets)| && itemSets == old(itemSets) + [ItemSet(id, items)]
      ensures !isNew ==> itemSets == old(itemSets) && stateId == old(stateId)
    {
      var key := MakeKey(items);
      if key in stateId {
        return stateId[key], false;
      }
      id := |itemSets|;
      forall k | 0 <= k < |itemSets| ensures itemSets[k].items != items {
        assert k in stateId.Values;
        var key' :| key' in stateId && stateId[key'] == k;
        KeysDistinct(key', key);
      }
      itemSets := itemSets + [ItemSet(id, items)];
      stateId := stateId[key := id];
      isNew := true;
      forall k | 0 <= k < |itemSets| ensures k in stateId.Values {
        if k < id {
          assert k in old(stateId).Values;
          var key' :| key' in old(stateId) && old(stateId)[key'] == k;
          assert key' in stateId && stateId[key'] == k;
        } else {
          assert key in stateId && stateId[key] == k;
        }
      }
    }

    /**
     * The first inner loop of init_item_set: the items of a state grouped
     * by the symbol after the dot, epsilon skipped, each advanced over it.
     */
    method GroupByDot(items: set<Item>) returns (groups: map<Symbol, set<Item>>)
      requires ItemsIn(prods, items)
      ensures groups == Groups(prods, items)
    {
      groups := map[];
      var rest := items;
      while rest != {}
        invariant rest <= items
        invariant groups == Groups(prods, items - rest)
        decreases |rest|
      {
        var item :| item in rest;
        GroupsAdd(prods, items - rest, item);
        assert items - rest + {item} == items - (rest - {item});
        var x := Dot(prods, item);
        if x != Eps() {
          var j := if x in groups then groups[x] else {};
          groups := groups[x := j + {Next(item)}];
        }
        rest := rest - {item};
      }
      assert items - rest == items;
    }

    /**
     * The second inner loop of init_item_set, for state iId: GO(iId, X) is
     * the state of the closure of each group; the states it creates are
     * returned in order, to be queued.
     */
    method ExpandState(iId: nat) returns (added: seq<nat>)
      requires WellIndexed(prods, pm) && StatesIndexed(prods, itemSets, stateId) && iId < |itemSets|
      requires GoKeys(prods, itemSets, goFunc, iId)
      modifies this`itemSets, this`stateId, this`goFunc
      ensures StatesIndexed(prods, itemSets, stateId)
      ensures |old(itemSets)| <= |itemSets| && itemSets[..|old(itemSets)|] == old(itemSets)
      ensures added == Range(|old(itemSets)|, |itemSets|)
      ensures GoDone(prods, pm, itemSets, goFunc, iId) && GoKeys(prods, itemSets, goFunc, iId + 1)
      ensures forall key :: key in old(goFunc) ==> key in goFunc && goFunc[key] == old(goFunc)[key]
    {
      var curr := itemSets[iId].items;
      var groups := GroupByDot(curr);
      var pending := groups.Keys;
      added := [];
      ghost var sets0 := itemSets;
      ghost var go0 := goFunc;
      ExpandStart(prods, pm, iId, curr, groups, sets0, go0);
      while pending != {}
        invariant StatesIndexed(prods, itemSets, stateId)
        invariant ExpandInv(prods, pm, iId, curr, groups, pending, sets0, go0, itemSets, goFunc, added)
        decreases |pending|
      {
        var x :| x in pending;
        added := AddTransition(iId, x, curr, groups, pending, sets0, go0, added);
        pending := pending - {x};
      }
      ExpandEnd(prods, pm, iId, curr, groups, sets0, go0, itemSets, goFunc, added);
    }

    /** One round of that loop: GO(iId, x) is the state of the closure of the group of x, queued when new. */
    method AddTransition(iId: nat, x: Symbol, ghost curr: set<Item>, groups: map<Symbol, set<Item>>,
                         ghost pending: set<Symbol>, ghost sets0: seq<ItemSet>, ghost go0: map<(nat, Symbol), nat>,
                         added: seq<nat>) returns (added': seq<nat>)
      requires WellIndexed(prods, pm) && StatesIndexed(prods, itemSets, stateId)
      requires ExpandInv(prods, pm, iId, curr, groups, pending, sets0, go0, itemSets, goFunc, added)
      requires x in pending && GoKeys(prods, sets0, go0, iId)
      modifies this`itemSets, this`stateId, this`goFunc
      ensures StatesIndexed(prods, itemSets, stateId)
      ensures ExpandInv(prods, pm, iId, curr, groups, pending - {x}, sets0, go0, itemSets, goFunc, added')
    {
      ghost var sets1, go1 := itemSets, goFunc;
      var kernel := Closure(groups[x]);
      var jId, inserted := AddState(kernel);
      goFunc := goFunc[(iId, x) := jId];
      added' := if inserted then added + [jId] else added;
      ExpandStep(prods, pm, iId, curr, groups, pending, sets0, go0, sets1, go1, added, x, kernel, jId, inserted);
    }

    /**
     * init_item_set: I0 is the closure of [production 0, dot 0]; a FIFO
     * work list of state ids; each state popped gets its transitions, and
     * the new states they reach are queued.
     */
    method InitItemSet()
      requires WellIndexed(prods, pm) && |prods| > 0
      requires itemSets == [] && stateId == map[] && goFunc == map[]
      modifies this`itemSets, this`stateId, this`goFunc
      ensures Canonical(prods, pm, itemSets, stateId, goFunc)
    {
      var startId := StartState();
      var workList := [startId];
      ghost var done := 0;
      while workList != []
        invariant StatesIndexed(prods, itemSets, stateId) && |itemSets| <= |ItemSubsets(prods)|
        invariant WorkInv(prods, pm, itemSets, goFunc, done) && workList == Range(done, |itemSets|)
        decreases |ItemSubsets(prods)| - done
      {
        var iId := workList[0];
        ghost var n0 := |itemSets|;
        var added := WorkRound(iId);
        RangeSplit(done, n0, |itemSets|);
        workList := workList[1..] + added;
        done := done + 1;
      }
      WorkDone(prods, pm, itemSets, stateId, goFunc);
    }

    /** The first state: the closure of the item of the augmented production, numbered 0. */
    method StartState() returns (startId: nat)
      requires WellIndexed(prods, pm) && |prods| > 0
      requires itemSets == [] && stateId == map[] && goFunc == map[]
      modifies this`itemSets, this`stateId
      ensures startId == 0 && |itemSets| == 1 && StatesIndexed(prods, itemSets, stateId) && 1 <= |ItemSubsets(prods)|
      ensures itemSets[0].items == ClosureOf(prods, pm, {Item(0, 0)}) && WorkInv(prods, pm, itemSets, goFunc, 0)
    {
      assert InRange(prods, Item(0, 0));
      var startItems := Closure({Item(0, 0)});
      var isNew;
      startId, isNew := AddState(startItems);
      WorkStart(prods, pm, itemSets, stateId, goFunc);
      StatesBound(prods, itemSets, stateId);
    }

    /** One round of the work list: state iId expanded, its new states queued. */
    method WorkRound(iId: nat) returns (added: seq<nat>)
      requires StatesIndexed(prods, itemSets, stateId) && WorkInv(prods, pm, itemSets, goFunc, iId) && iId < |itemSets|
      modifies this`itemSets, this`stateId, this`goFunc
      ensures StatesIndexed(prods, itemSets, stateId) && |itemSets| <= |ItemSubsets(prods)|
      ensures WorkInv(prods, pm, itemSets, goFunc, iId + 1)
      ensures |old(itemSets)| <= |itemSets| && added == Range(|old(itemSets)|, |itemSets|)
    {
      ghost var sets0, go0 := itemSets, goFunc;
      added := ExpandState(iId);
      WorkStep(prods, pm, sets0, go0, itemSets, stateId, goFunc, iId);
      StatesBound(prods, itemSets, stateId);
    }

    /**
     * calc_action_goto_tables: GOTO is GO on non-terminals; then, state by
     * state, shift entries and then the entries of the completed items,
     * which override them.
     */
    method CalcActionGotoTables() returns (r: Result<()>)
      requires forall k :: 0 <= k < |itemSets| ==> ItemsIn(prods, itemSets[k].items)
      requires actionTable == map[]
      modifies this`actionTable, this`gotoTable
      ensures gotoTable == (map key | key in goFunc && key.1.IsNonTerminal() :: goFunc[key])
      ensures r.Err? <==> exists k :: 0 <= k < |itemSets| && BadStart(prods, start, itemSets[k].items)
      ensures r.Err? ==> r.msg == "Invalid start production id"
      ensures r.Ok? ==> RowsOk(prods, start, follow, goFunc, actionTable, itemSets, |itemSets|)
    {
      gotoTable := map key | key in goFunc && key.1.IsNonTerminal() :: goFunc[key];
      var k := 0;
      while k < |itemSets|
        invariant 0 <= k <= |itemSets|
        invariant gotoTable == (map key | key in goFunc && key.1.IsNonTerminal() :: goFunc[key])
        invariant RowsOk(prods, start, follow, goFunc, actionTable, itemSets, k)
        invariant forall j :: 0 <= j < k ==> !BadStart(prods, start, itemSets[j].items)
      {
        var ok := FillRow(k);
        if !ok {
          return Err("Invalid start production id");
        }
        k := k + 1;
      }
      r := Ok(());
    }

    /** One state of calc_action_goto_tables: its shift entries, then its reduce and accept entries. */
    method FillRow(k: nat) returns (ok: bool)
      requires k < |itemSets| && forall j :: 0 <= j < |itemSets| ==> ItemsIn(prods, itemSets[j].items)
      requires RowsOk(prods, start, follow, goFunc, actionTable, itemSets, k)
      modifies this`actionTable
      ensures ok <==> !BadStart(prods, start, itemSets[k].items)
      ensures ok ==> RowsOk(prods, start, follow, goFunc, actionTable, itemSets, k + 1)
    {
      ghost var t0 := actionTable;
      ShiftRow(k);
      ok := ReduceRow(k);
      if ok {
        forall j | 0 <= j < k
          ensures RowOk(prods, start, follow, goFunc, actionTable, j, itemSets[j].items)
        {
          RowKept(t0, actionTable, j, k);
        }
      }
    }

    /** A row other than the one rewritten keeps its entries. */
    lemma RowKept(t0: map<(nat, Symbol), SLRAction>, t1: map<(nat, Symbol), SLRAction>, j: nat, k: nat)
      requires j < |itemSets| && j != k && ItemsIn(prods, itemSets[j].items)
      requires SameOutside(t0, t1, k) && RowOk(prods, start, follow, goFunc, t0, j, itemSets[j].items)
      ensures RowOk(prods, start, follow, goFunc, t1, j, itemSets[j].items)
    {
      forall a ensures (j, a) in t1 <==> (j, a) in t0 {
        assert (j, a).0 != k;
      }
      forall a | (j, a) in t1 ensures t1[(j, a)] == t0[(j, a)] {
        assert (j, a).0 != k;
      }
    }

    /** The shift loop of state k: shift(GO(k, a)) for each terminal a after the dot of an item that is not complete. */
    method ShiftRow(k: nat)
      requires k < |itemSets| && ItemsIn(prods, itemSets[k].items)
      requires forall key :: key in actionTable ==> key.0 < k
      modifies this`actionTable
      ensures SameOutside(old(actionTable), actionTable, k)
      ensures RowSoFar(prods, start, follow, goFunc, actionTable, k, itemSets[k].items, {})
    {
      var items := itemSets[k].items;
      var rest := items;
      ghost var t0 := actionTable;
      while rest != {}
        invariant rest <= items && SameOutside(t0, actionTable, k)
        invariant ShiftSoFar(prods, goFunc, actionTable, k, items - rest)
        decreases |rest|
      {
        var item :| item in rest;
        ghost var before := items - rest;
        rest := rest - {item};
        assert items - rest == before + {item};
        ShiftStep(prods, goFunc, actionTable, k, before, item);
        if !IsComplete(prods, item) {
          var a := Dot(prods, item);
          if a.IsTerminal() && (k, a) in goFunc {
            actionTable := actionTable[(k, a) := ShiftTo(goFunc[(k, a)])];
          }
        }
      }
      assert items - rest == items;
      ShiftDone(prods, start, follow, goFunc, actionTable, k, items);
    }

    /**
     * The completion loop of state k: accept at the end marker for a
     * completed start item (an error when it is not production 0), reduce
     * on FOLLOW(head) for the others. Completed is Reducible here.
     */
    method ReduceRow(k: nat) returns (ok: bool)
      requires k < |itemSets| && ItemsIn(prods, itemSets[k].items)
      requires RowSoFar(prods, start, follow, goFunc, actionTable, k, itemSets[k].items, {})
      modifies this`actionTable
      ensures SameOutside(old(actionTable), actionTable, k)
      ensures ok <==> !BadStart(prods, start, itemSets[k].items)
      ensures ok ==> RowOk(prods, start, follow, goFunc, actionTable, k, itemSets[k].items)
    {
      var items := itemSets[k].items;
      var rest := items;
      ghost var t0 := actionTable;
      while rest != {}
        invariant rest <= items && SameOutside(t0, actionTable, k)
        invariant RowSoFar(prods, start, follow, goFunc, actionTable, k, items, items - rest)
        invariant forall it :: it in items - rest && Reducible(prods, it) && prods[it.prodId].head == start ==> it.prodId == 0
        decreases |rest|
      {
        var item :| item in rest;
        ghost var before := items - rest;
        rest := rest - {item};
        assert items - rest == before + {item};
        var itemOk := ReduceItem(k, items, before, item);
        if !itemOk {
          return false;
        }
      }
      assert items - rest == items;
      ok := true;
    }

    /** One completed item of state k: accept or the reductions on FOLLOW(head); false for a start item other than production 0. */
    method ReduceItem(k: nat, ghost items: set<Item>, ghost before: set<Item>, item: Item) returns (ok: bool)
      requires ItemsIn(prods, items) && before <= items && item in items
      requires RowSoFar(prods, start, follow, goFunc, actionTable, k, items, before)
      modifies this`actionTable
      ensures SameOutside(old(actionTable), actionTable, k)
      ensures ok <==> !(Reducible(prods, item) && prods[item.prodId].head == start && item.prodId != 0)
      ensures ok ==> RowSoFar(prods, start, follow, goFunc, actionTable, k, items, before + {item})
    {
      if Reducible(prods, item) {
        var p := prods[item.prodId];
        if p.head == start {
          if item.prodId != 0 {
            return false;
          }
          AcceptStep(actionTable, k, items, before, item);
          actionTable := actionTable[(k, EndMark()) := AcceptAction()];
        } else {
          ghost var t1 := actionTable;
          WriteReduce(k, FollowOf(follow, p.head), item.prodId);
          ReduceStep(t1, actionTable, k, items, before, item);
        }
      } else {
        SkipStep(actionTable, k, items, before, item);
      }
      ok := true;
    }

    /** The FOLLOW loop: reduce by production id on every symbol of fs, in row k. */
    method WriteReduce(k: nat, fs: set<Symbol>, id: nat)
      modifies this`actionTable
      ensures SameOutside(old(actionTable), actionTable, k)
      ensures forall a :: (k, a) in actionTable <==> (k, a) in old(actionTable) || a in fs
      ensures forall a :: (k, a) in actionTable ==>
        actionTable[(k, a)] == if a in fs then ReduceBy(id) else old(actionTable)[(k, a)]
    {
      var frest := fs;
      while frest != {}
        invariant frest <= fs && SameOutside(old(actionTable), actionTable, k)
        invariant forall a :: (k, a) in actionTable <==> (k, a) in old(actionTable) || a in fs - frest
        invariant forall a :: (k, a) in actionTable ==>
          actionTable[(k, a)] == if a in fs - frest then ReduceBy(id) else old(actionTable)[(k, a)]
        decreases |frest|
      {
        var a :| a in frest;
        actionTable := actionTable[(k, a) := ReduceBy(id)];
        frest := frest - {a};
      }
    }

    lemma AcceptStep(t1: map<(nat, Symbol), SLRAction>, k: nat, items: set<Item>, before: set<Item>, item: Item)
      requires ItemsIn(prods, items) && before <= items && item in items
      requires Reducible(prods, item) && prods[item.prodId].head == start
      requires RowSoFar(prods, start, follow, goFunc, t1, k, items, before)
      ensures RowSoFar(prods, start, follow, goFunc, t1[(k, EndMark()) := AcceptAction()], k, items, before + {item})
    {
      forall a {
        WritersAdd(false, prods, start, follow, before, item, a);
      }
    }

    lemma SkipStep(t1: map<(nat, Symbol), SLRAction>, k: nat, items: set<Item>, before: set<Item>, item: Item)
      requires ItemsIn(prods, items) && before <= items && item in items && !Reducible(prods, item)
      requires RowSoFar(prods, start, follow, goFunc, t1, k, items, before)
      ensures RowSoFar(prods, start, follow, goFunc, t1, k, items, before + {item})
    {
      forall a ensures Writers(false, prods, start, follow, before + {item}, a) == Writers(false, prods, start, follow, before, a) {
        WritersAdd(false, prods, start, follow, before, item, a);
      }
    }

    lemma ReduceStep(t1: map<(nat, Symbol), SLRAction>, t2: map<(nat, Symbol), SLRAction>,
                     k: nat, items: set<Item>, before: set<Item>, item: Item)
      requires ItemsIn(prods, items) && before <= items && item in items
      requires Reducible(prods, item) && prods[item.prodId].head != start
      requires RowSoFar(prods, start, follow, goFunc, t1, k, items, before)
      requires forall a :: (k, a) in t2 <==> (k, a) in t1 || a in FollowOf(follow, prods[item.prodId].head)
      requires forall a :: (k, a) in t2 ==>
        t2[(k, a)] == if a in FollowOf(follow, prods[item.prodId].head) then ReduceBy(item.prodId) else t1[(k, a)]
      ensures RowSoFar(prods, start, follow, goFunc, t2, k, items, before + {item})
    {
      forall a {
        WritersAdd(false, prods, start, follow, before, item, a);
      }
    }
  }
}
