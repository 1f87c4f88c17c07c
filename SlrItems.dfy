// LR(0) items and SLR actions, shared by include/grammar/parser.h and
// include/grammar/parser_slr.h (the two revisions define the same item).
//
// An item holds a shared pointer to a copy of grammar production `id`; as
// productions are numbered by position, the item is modelled by that id,
// and every operation that looks at the body is given the productions.
module SlrItems {
  import opened Common
  import opened Symbols
  import opened Grammars

  /** [head -> body[..dotPos] . body[dotPos..]] of production prodId. */
  datatype Item = Item(prodId: nat, dotPos: nat)

  /** Items of the productions, with the dot at most at the end of the body. */
  predicate InRange(prods: seq<Production>, it: Item) {
    it.prodId < |prods| && it.dotPos <= |prods[it.prodId].body|
  }

  /** operator<: by production id, then by dot position. */
  predicate ItemLess(a: Item, b: Item) {
    if a.prodId != b.prodId then a.prodId < b.prodId else a.dotPos < b.dotPos
  }

  /** The order is a strict total order whose equivalence is item equality (production id and dot). */
  lemma ItemOrder(a: Item, b: Item, c: Item)
    ensures !ItemLess(a, a)
    ensures ItemLess(a, b) && ItemLess(b, c) ==> ItemLess(a, c)
    ensures a == b || ItemLess(a, b) || ItemLess(b, a)
    ensures !(ItemLess(a, b) && ItemLess(b, a))
  {
  }

  /** dot(): the symbol after the dot, or epsilon when the dot is at or past the end. */
  function Dot(prods: seq<Production>, it: Item): (s: Symbol)
    requires it.prodId < |prods|
  {
    var body := prods[it.prodId].body;
    if it.dotPos >= |body| then Eps() else body[it.dotPos]
  }

  /** next(): the same production with the dot one place further. */
  function Next(it: Item): Item {
    Item(it.prodId, it.dotPos + 1)
  }

  /** is_complete(): the dot is at or past the end of the body. */
  predicate IsComplete(prods: seq<Production>, it: Item)
    requires it.prodId < |prods|
  {
    it.dotPos >= |prods[it.prodId].body|
  }

  /**
   * The dot moves over exactly one symbol: the advanced item comes after
   * the item in the order, and the symbol after its dot is the next body
   * symbol (epsilon past the end).
   */
  lemma NextAdvances(prods: seq<Production>, it: Item)
    requires it.prodId < |prods|
    ensures ItemLess(it, Next(it)) && Next(it).prodId == it.prodId
    ensures it.dotPos + 1 < |prods[it.prodId].body| ==> Dot(prods, Next(it)) == prods[it.prodId].body[it.dotPos + 1]
    ensures it.dotPos + 1 >= |prods[it.prodId].body| ==> Dot(prods, Next(it)) == Eps()
  {
  }

  /** A complete item has epsilon after its dot; a non-epsilon symbol after the dot means the item is not complete. */
  lemma CompleteDot(prods: seq<Production>, it: Item)
    requires it.prodId < |prods|
    ensures IsComplete(prods, it) ==> Dot(prods, it) == Eps()
    ensures Dot(prods, it) != Eps() ==> !IsComplete(prods, it) && Dot(prods, it) == prods[it.prodId].body[it.dotPos]
  {
  }

  /**
   * The converse fails: for a production whose body is the epsilon symbol
   * (as CompUnit -> epsilon is written), the item with the dot in front of
   * it has epsilon after the dot yet is not complete.
   */
  lemma EpsilonItemIncomplete(head: Symbol)
    ensures var prods := [Production(0, head, [Eps()])];
      Dot(prods, Item(0, 0)) == Eps() && !IsComplete(prods, Item(0, 0))
  {
  }

  /**
   * The item has nothing but epsilon symbols after its dot: there is
   * nothing left to shift, so it can be reduced. This is the completeness
   * the table construction is corrected to use.
   */
  predicate Reducible(prods: seq<Production>, it: Item)
    requires it.prodId < |prods|
  {
    forall j :: it.dotPos <= j < |prods[it.prodId].body| ==> prods[it.prodId].body[j].IsEpsilon()
  }

  /** Every complete item is reducible; the ε-item is reducible but not complete. */
  lemma ReducibleExtendsComplete(prods: seq<Production>, it: Item, head: Symbol)
    requires it.prodId < |prods|
    ensures IsComplete(prods, it) ==> Reducible(prods, it)
    ensures Reducible(prods, it) && !IsComplete(prods, it) ==> Dot(prods, it).IsEpsilon()
    ensures Reducible([Production(0, head, [Eps()])], Item(0, 0))
  {
  }

  // --------------------------------------------------------------- actions

  datatype ActionType = Shift | Reduce | Accept | Error

  /** An ACTION entry: the state to shift to, or the production to reduce by, or -1. */
  datatype SLRAction = SLRAction(ty: ActionType, target: int)

  function ShiftTo(i: int): SLRAction { SLRAction(Shift, i) }
  function ReduceBy(i: int): SLRAction { SLRAction(Reduce, i) }
  function AcceptAction(): SLRAction { SLRAction(Accept, -1) }
  function ErrorAction(): SLRAction { SLRAction(Error, -1) }

  /**
   * shift(i) and reduce(i) carry their target i; accept() and error()
   * carry -1; the four factories give four different kinds.
   */
  lemma ActionFactories(i: int)
    ensures ShiftTo(i).ty == Shift && ShiftTo(i).target == i
    ensures ReduceBy(i).ty == Reduce && ReduceBy(i).target == i
    ensures AcceptAction().ty == Accept && AcceptAction().target == -1
    ensures ErrorAction().ty == Error && ErrorAction().target == -1
    ensures ShiftTo(i) != ReduceBy(i) && AcceptAction() != ErrorAction()
  {
  }

  // -------------------------------------------------------------- make_key

  /** Strictly increasing in the item order. */
  predicate ItemSorted(s: seq<Item>) {
    forall i, j :: 0 <= i < j < |s| ==> ItemLess(s[i], s[j])
  }

  /** Inserts x into a sorted sequence at its place. */
  function InsertItem(x: Item, s: seq<Item>): (r: seq<Item>)
    requires ItemSorted(s) && x !in s
    ensures ItemSorted(r) && Elems(r) == Elems(s) + {x} && |r| == |s| + 1
  {
    if s == [] then [x]
    else if ItemLess(x, s[0]) then
      ItemOrder(x, s[0], s[0]);
      [x] + s
    else
      ItemOrder(x, s[0], s[0]);
      InsertStep(x, s, InsertItem(x, s[1..]));
      [s[0]] + InsertItem(x, s[1..])
  }

  lemma InsertStep(x: Item, s: seq<Item>, rest: seq<Item>)
    requires s != [] && ItemSorted(s) && ItemLess(s[0], x)
    requires ItemSorted(rest) && Elems(rest) == Elems(s[1..]) + {x}
    ensures ItemSorted([s[0]] + rest)
  {
    forall j | 0 <= j < |rest| ensures ItemLess(s[0], rest[j]) {
      assert rest[j] in Elems(rest);
      if rest[j] != x {
        var k :| 0 <= k < |s[1..]| && s[1..][k] == rest[j];
        assert s[k + 1] == rest[j];
      }
    }
  }

  /** Two sorted sequences with the same elements are equal: the order fixes the sequence. */
  lemma {:induction false} SortedUnique(a: seq<Item>, b: seq<Item>)
    requires ItemSorted(a) && ItemSorted(b) && Elems(a) == Elems(b)
    ensures a == b
    decreases |a|
  {
    if a == [] || b == [] {
      ElemsEmpty(a);
      ElemsEmpty(b);
    } else {
      SortedHead(a);
      SortedHead(b);
      assert a[0] in Elems(b) && b[0] in Elems(a);
      ItemOrder(a[0], b[0], a[0]);
      SortedTail(a);
      SortedTail(b);
      SortedUnique(a[1..], b[1..]);
    }
  }

  /** The first element of a sorted sequence is below all the others. */
  lemma SortedHead(s: seq<Item>)
    requires s != [] && ItemSorted(s)
    ensures forall x :: x in Elems(s) ==> x == s[0] || ItemLess(s[0], x)
  {
  }

  lemma SortedTail(s: seq<Item>)
    requires s != [] && ItemSorted(s)
    ensures Elems(s[1..]) == Elems(s) - {s[0]}
  {
    assert s == [s[0]] + s[1..];
    forall x | x in Elems(s[1..]) ensures x != s[0] {
      var k :| 0 <= k < |s[1..]| && s[1..][k] == x;
      assert ItemLess(s[0], s[k + 1]);
    }
  }

  /** The sorted sequence of a set of items (the value make_key returns). */
  ghost function SortedKey(items: set<Item>): (r: seq<Item>)
    ensures ItemSorted(r) && Elems(r) == items
    decreases |items|
  {
    if items == {} then []
    else
      var x :| x in items;
      InsertItem(x, SortedKey(items - {x}))
  }

  /** Different item sets have different keys: the key identifies the set. */
  lemma KeyInjective(a: set<Item>, b: set<Item>)
    ensures SortedKey(a) == SortedKey(b) <==> a == b
  {
  }

  /**
   * make_key: the items copied into a vector in the set's iteration order
   * (any order) and sorted. Whatever the order, the result is the sorted
   * key of the set.
   */
  method MakeKey(items: set<Item>) returns (key: seq<Item>)
    ensures key == SortedKey(items)
  {
    key := [];
    var rest := items;
    while rest != {}
      invariant rest <= items
      invariant ItemSorted(key) && Elems(key) == items - rest
      decreases |rest|
    {
      var x :| x in rest;
      key := InsertItem(x, key);
      rest := rest - {x};
    }
    SortedUnique(key, SortedKey(items));
  }
}
