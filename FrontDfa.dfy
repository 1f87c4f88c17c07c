// The lexer's deterministic automaton (the `front::DFA<Symbol>` template):
// a vector of states with at most one edge per symbol, built from an NFA by
// subset construction and minimised by partition refinement.
module FrontDfa {
  import opened Common
  import opened FrontNfa

  /** A state; `token` -1 means non-accepting, a lower `priority` wins. */
  datatype DfaState = DfaState(edges: seq<Trans>, token: int, priority: int)

  /** The state `new_state` appends: non-accepting, with the weakest priority. */
  const FreshDfaState: DfaState := DfaState([], -1, INT_MAX)

  /** No two edges of one state carry the same symbol. */
  predicate Deterministic(edges: seq<Trans>)
  {
    forall i, j :: 0 <= i < j < |edges| ==> edges[i].sym != edges[j].sym
  }

  /** Every edge of every state points at an existing state. */
  predicate DfaEdgesInRange(st: seq<DfaState>)
  {
    forall s, e :: 0 <= s < |st| && 0 <= e < |st[s].edges| ==> 0 <= st[s].edges[e].to < |st|
  }

  /** Some edge of `edges` is labelled `sym`. */
  predicate HasSym(edges: seq<Trans>, sym: int)
  {
    exists e :: 0 <= e < |edges| && edges[e].sym == sym
  }

  /** The index of the first edge labelled `sym`, or |edges| when there is none. */
  function FirstEdge(edges: seq<Trans>, sym: int): (k: nat)
    ensures k <= |edges| && (k < |edges| ==> edges[k].sym == sym)
    ensures k < |edges| <==> HasSym(edges, sym)
    ensures forall j :: 0 <= j < k ==> edges[j].sym != sym
  {
    if edges == [] then 0
    else if edges[0].sym == sym then 0
    else 1 + FirstEdge(edges[1..], sym)
  }

  /** The index of the last edge labelled `sym`, or -1 when there is none. */
  function LastEdge(edges: seq<Trans>, sym: int): (k: int)
    ensures -1 <= k < |edges| && (k >= 0 ==> edges[k].sym == sym)
    ensures k >= 0 <==> HasSym(edges, sym)
    ensures forall j :: k < j < |edges| ==> edges[j].sym != sym
  {
    if edges == [] then -1
    else if edges[|edges| - 1].sym == sym then |edges| - 1
    else LastEdge(edges[..|edges| - 1], sym)
  }

  /** The edges of a state after `add_edge(_, v, sym)`: the first `sym`-edge retargeted, or a new edge appended. */
  function WithEdge(edges: seq<Trans>, sym: int, v: int): seq<Trans>
  {
    var k := FirstEdge(edges, sym);
    if k < |edges| then edges[k := Trans(sym, v)] else edges + [Trans(sym, v)]
  }

  /**
   * `add_edge` keeps a state deterministic; afterwards `sym` leads to `v`
   * and every other symbol still leads where it did.
   */
  lemma WithEdgeSpec(edges: seq<Trans>, sym: int, v: int)
    requires Deterministic(edges)
    ensures Deterministic(WithEdge(edges, sym, v))
    ensures HasSym(WithEdge(edges, sym, v), sym)
    ensures WithEdge(edges, sym, v)[FirstEdge(WithEdge(edges, sym, v), sym)].to == v
    ensures forall x :: x != sym ==> (HasSym(WithEdge(edges, sym, v), x) <==> HasSym(edges, x))
    ensures forall x :: x != sym && HasSym(edges, x) ==>
              WithEdge(edges, sym, v)[FirstEdge(WithEdge(edges, sym, v), x)] == edges[FirstEdge(edges, x)]
    ensures |WithEdge(edges, sym, v)| == if HasSym(edges, sym) then |edges| else |edges| + 1
  {
    var r := WithEdge(edges, sym, v);
    var k := FirstEdge(edges, sym);
    assert forall i :: 0 <= i < |edges| && i != k ==> r[i] == edges[i];
    assert r[k].sym == sym;
    forall x | x != sym ensures HasSym(r, x) <==> HasSym(edges, x) {
      if HasSym(edges, x) {
        var e :| 0 <= e < |edges| && edges[e].sym == x;
        assert r[e].sym == x;
      }
      if HasSym(r, x) {
        var e :| 0 <= e < |r| && r[e].sym == x;
        assert edges[e].sym == x;
      }
    }
    forall x | x != sym && HasSym(edges, x)
      ensures r[FirstEdge(r, x)] == edges[FirstEdge(edges, x)]
    {
      var j := FirstEdge(edges, x);
      assert r[j] == edges[j];
      assert forall i :: 0 <= i < j ==> r[i].sym != x;
    }
  }

  /** The labels on `edges`. */
  function EdgeSyms(edges: seq<Trans>): set<int>
  {
    if edges == [] then {} else EdgeSyms(edges[..|edges| - 1]) + {edges[|edges| - 1].sym}
  }

  /** The labels on the edges of all of `st`. */
  function AllLabels(st: seq<DfaState>): set<int>
  {
    if st == [] then {} else AllLabels(st[..|st| - 1]) + EdgeSyms(st[|st| - 1].edges)
  }

  /** `collect_alphabet`'s result holds exactly the symbols that label some edge. */
  lemma {:induction false} AllLabelsSpec(st: seq<DfaState>, x: int)
    ensures x in AllLabels(st) <==> exists s, e :: 0 <= s < |st| && 0 <= e < |st[s].edges| && st[s].edges[e].sym == x
  {
    if st != [] {
      var n := |st| - 1;
      AllLabelsSpec(st[..n], x);
      EdgeSymsSpec(st[n].edges, x);
      if x in AllLabels(st[..n]) {
        var s, e :| 0 <= s < n && 0 <= e < |st[..n][s].edges| && st[..n][s].edges[e].sym == x;
        assert st[s] == st[..n][s];
      }
      if exists s, e :: 0 <= s < |st| && 0 <= e < |st[s].edges| && st[s].edges[e].sym == x {
        var s, e :| 0 <= s < |st| && 0 <= e < |st[s].edges| && st[s].edges[e].sym == x;
        if s < n {
          assert st[..n][s] == st[s];
        }
      }
    }
  }

  lemma {:induction false} EdgeSymsSpec(edges: seq<Trans>, x: int)
    ensures x in EdgeSyms(edges) <==> exists e :: 0 <= e < |edges| && edges[e].sym == x
  {
    if edges != [] {
      var n := |edges| - 1;
      EdgeSymsSpec(edges[..n], x);
      if x in EdgeSyms(edges[..n]) {
        var e :| 0 <= e < n && edges[..n][e].sym == x;
        assert edges[e].sym == x;
      }
    }
  }

  // ---------------------------------------------------------------------
  // Reachability
  // ---------------------------------------------------------------------

  /** `c` holds every successor of each of its states. */
  ghost predicate Closed(st: seq<DfaState>, c: set<int>)
  {
    forall s, e :: s in c && 0 <= s < |st| && 0 <= e < |st[s].edges| ==> st[s].edges[e].to in c
  }

  /** `s` lies in every closed set that holds `u`: it is reachable from `u`. */
  ghost predicate Reachable(st: seq<DfaState>, u: int, s: int)
  {
    forall c: set<int> :: u in c && Closed(st, c) ==> s in c
  }

  /** Reachability extends along an edge. */
  lemma ReachableStep(st: seq<DfaState>, u: int, e: int, s: int)
    requires 0 <= u < |st| && 0 <= e < |st[u].edges| && Reachable(st, st[u].edges[e].to, s)
    ensures Reachable(st, u, s)
  {
    forall c: set<int> | u in c && Closed(st, c) ensures s in c {
      assert st[u].edges[e].to in c;
    }
  }

  /** The states marked in a `reachable` vector. */
  function Marked(a: array<bool>): set<int>
    reads a
  {
    set s | 0 <= s < a.Length && a[s]
  }

  /** The reachable states: the marked ones form a closed set holding `u`, and lie in every other. */
  lemma MarkedIsReachSet(st: seq<DfaState>, u: int, marked: set<int>)
    requires u in marked && Closed(st, marked)
    requires forall s :: s in marked ==> Reachable(st, u, s)
    ensures forall s :: s in marked <==> Reachable(st, u, s)
  {
  }

  // ---------------------------------------------------------------------
  // Reverse edges and predecessors (the inputs of the refinement loop)
  // ---------------------------------------------------------------------

  /** (sym, from) is a reverse edge of `to`: both ends are reachable and `from` has a `sym`-edge to `to`. */
  ghost predicate RevEdgeOf(st: seq<DfaState>, reach: seq<bool>, to: int, t: Trans)
    requires |reach| == |st| && 0 <= to < |st|
  {
    0 <= t.to < |st| && reach[t.to] && reach[to] && Trans(t.sym, to) in st[t.to].edges
  }

  /** The sources of `sym`-labelled reverse edges into any state of `states` that `rev` covers. */
  function PredsOf(rev: seq<seq<Trans>>, states: seq<int>, sym: int): set<int>
  {
    if states == [] then {}
    else
      var q := states[|states| - 1];
      PredsOf(rev, states[..|states| - 1], sym) + (if 0 <= q < |rev| then SymTargets(rev[q], sym) else {})
  }

  /**
   * Over the reverse graph of the reachable part, the predecessors of a
   * group under `sym` are the reachable states with a `sym`-edge into a
   * reachable state of the group.
   */
  lemma {:induction false} PredsMeaning(st: seq<DfaState>, reach: seq<bool>, rev: seq<seq<Trans>>,
                                        states: seq<int>, sym: int, x: int)
    requires |reach| == |st| && |rev| == |st|
    requires forall to, t :: 0 <= to < |st| ==> (t in rev[to] <==> RevEdgeOf(st, reach, to, t))
    ensures x in PredsOf(rev, states, sym) <==>
              exists k :: 0 <= k < |states| && 0 <= states[k] < |st| && RevEdgeOf(st, reach, states[k], Trans(sym, x))
  {
    if states != [] {
      var n := |states| - 1;
      var q := states[n];
      PredsMeaning(st, reach, rev, states[..n], sym, x);
      if 0 <= q < |rev| {
        Nfa.SymTargetsSpec(rev[q], sym, x);
        if x in SymTargets(rev[q], sym) {
          var e :| 0 <= e < |rev[q]| && rev[q][e] == Trans(sym, x);
          assert rev[q][e] in rev[q];
        }
        if RevEdgeOf(st, reach, q, Trans(sym, x)) {
          assert Trans(sym, x) in rev[q];
        }
      }
      if exists k :: 0 <= k < |states| && 0 <= states[k] < |st| && RevEdgeOf(st, reach, states[k], Trans(sym, x)) {
        var k :| 0 <= k < |states| && 0 <= states[k] < |st| && RevEdgeOf(st, reach, states[k], Trans(sym, x));
        if k < n {
          assert states[..n][k] == states[k];
        }
      }
      if x in PredsOf(rev, states[..n], sym) {
        var k :| 0 <= k < n && 0 <= states[..n][k] < |st| && RevEdgeOf(st, reach, states[..n][k], Trans(sym, x));
        assert states[k] == states[..n][k];
      }
    }
  }

  // ---------------------------------------------------------------------
  // Partition
  // ---------------------------------------------------------------------

  /** A block of the partition: its states and the accept data they share. */
  datatype Group = Group(states: seq<int>, isAccepting: bool, token: int, priority: int, valid: bool)

  /** `m` with every state of `states` mapped to `gid`. */
  function Assign(m: seq<int>, states: seq<int>, gid: int): (r: seq<int>)
    ensures |r| == |m|
    ensures forall s :: 0 <= s < |m| ==> r[s] == if s in states then gid else m[s]
  {
    seq(|m|, s requires 0 <= s < |m| => if s in states then gid else m[s])
  }

  /** The states of every group index `state_to_group`. */
  ghost predicate GroupsInRange(groups: seq<Group>, n: int)
  {
    forall g, s {:trigger s in groups[g].states} :: 0 <= g < |groups| && s in groups[g].states ==> 0 <= s < n
  }

  /**
   * The partition invariant: every group is valid and lists each state
   * once, and `state_to_group[s] == g` exactly when s is in group g (so the
   * groups are pairwise disjoint), -1 for a state in no group.
   */
  ghost predicate Consistent(groups: seq<Group>, m: seq<int>)
  {
    && (forall g :: 0 <= g < |groups| ==> groups[g].valid && NoDup(groups[g].states))
    && (forall g, s {:trigger s in groups[g].states} :: 0 <= g < |groups| && s in groups[g].states ==> 0 <= s < |m| && m[s] == g)
    && (forall s :: 0 <= s < |m| && m[s] != -1 ==> 0 <= m[s] < |groups| && s in groups[m[s]].states)
  }

  /** No group is empty. */
  ghost predicate NonEmpty(groups: seq<Group>)
  {
    forall g :: 0 <= g < |groups| ==> groups[g].states != []
  }

  /** Adding a group of ungrouped states keeps the partition consistent. */
  lemma AddGroupConsistent(groups: seq<Group>, m: seq<int>, states: seq<int>, isAccepting: bool, token: int, priority: int)
    requires Consistent(groups, m) && NoDup(states)
    requires forall s :: s in states ==> 0 <= s < |m| && m[s] == -1
    ensures Consistent(groups + [Group(states, isAccepting, token, priority, true)], Assign(m, states, |groups|))
  {
    var groups' := groups + [Group(states, isAccepting, token, priority, true)];
    var m' := Assign(m, states, |groups|);
    forall g, s | 0 <= g < |groups'| && s in groups'[g].states ensures 0 <= s < |m'| && m'[s] == g {
      if g < |groups| {
        assert groups'[g] == groups[g];
        assert m[s] == g;
      }
    }
    forall s | 0 <= s < |m'| && m'[s] != -1 ensures 0 <= m'[s] < |groups'| && s in groups'[m'[s]].states {
      if s !in states {
        assert groups'[m[s]] == groups[m[s]];
      }
    }
  }

  /** Non-empty, pairwise disjoint groups of states below n number at most n. */
  lemma GroupBound(groups: seq<Group>, m: seq<int>)
    requires Consistent(groups, m) && NonEmpty(groups)
    ensures |groups| <= |m|
  {
    var gs := seq(|groups|, g requires 0 <= g < |groups| => Elems(groups[g].states));
    forall g | 0 <= g < |gs| ensures gs[g] != {} && gs[g] <= IntRange(|m|) {
      assert gs[g] == Elems(groups[g].states);
      assert groups[g].states[0] in gs[g];
      forall s | s in gs[g] ensures s in IntRange(|m|) {
        assert s in groups[g].states;
      }
    }
    forall g1, g2 | 0 <= g1 < g2 < |gs| ensures gs[g1] * gs[g2] == {} {
      assert gs[g1] == Elems(groups[g1].states);
      assert gs[g2] == Elems(groups[g2].states);
      forall s | s in gs[g1] ensures s !in gs[g2] {
        assert s in groups[g1].states;
        assert m[s] == g1;
      }
    }
    DisjointGroupsBound(gs, |m|);
  }

  /** `std::set_intersection` of two ascending ranges: the elements of `a` that occur in `x`, in order. */
  function SetIntersection(a: seq<int>, x: seq<int>): (r: seq<int>)
    ensures Elems(r) == Elems(a) * Elems(x)
    ensures NoDup(a) ==> NoDup(r)
  {
    if a == [] then []
    else
      var rest := SetIntersection(a[1..], x);
      ConsFacts(a, rest);
      if a[0] in x then [a[0]] + rest else rest
  }

  /** `std::set_difference` of two ascending ranges: the elements of `a` that do not occur in `x`, in order. */
  function SetDifference(a: seq<int>, x: seq<int>): (r: seq<int>)
    ensures Elems(r) == Elems(a) - Elems(x)
    ensures NoDup(a) ==> NoDup(r)
  {
    if a == [] then []
    else
      var rest := SetDifference(a[1..], x);
      ConsFacts(a, rest);
      if a[0] !in x then [a[0]] + rest else rest
  }

  /** Prefixing the head of `a` to a filtered tail of it. */
  lemma ConsFacts(a: seq<int>, rest: seq<int>)
    requires a != [] && Elems(rest) <= Elems(a[1..]) && (NoDup(a[1..]) ==> NoDup(rest))
    ensures Elems(a) == {a[0]} + Elems(a[1..]) && Elems([a[0]] + rest) == {a[0]} + Elems(rest)
    ensures NoDup(a) ==> NoDup(a[1..]) && NoDup([a[0]] + rest)
  {
    assert a == [a[0]] + a[1..];
    ElemsAppend([a[0]], a[1..]);
    ElemsAppend([a[0]], rest);
    assert Elems([a[0]]) == {a[0]};
    if NoDup(a) {
      assert a[0] !in Elems(a[1..]);
      NoDupAppend([a[0]], rest);
    }
  }

  /** The partition of minimisation: the groups and the group of each state. */
  class Partition {
    var groups: seq<Group>
    var stateToGroup: seq<int>

    /** An empty partition of `nStates` states, none of them grouped. */
    constructor (nStates: nat)
      ensures groups == [] && stateToGroup == seq(nStates, _ => -1)
    {
      groups := [];
      stateToGroup := seq(nStates, _ => -1);
    }

    /** `add_group`: appends a valid group and maps each of its states to its id, the old group count. */
    method AddGroup(states: seq<int>, isAccepting: bool, token: int, priority: int) returns (gid: int)
      requires forall s :: s in states ==> 0 <= s < |stateToGroup|
      modifies this
      ensures gid == |old(groups)|
      ensures groups == old(groups) + [Group(states, isAccepting, token, priority, true)]
      ensures stateToGroup == Assign(old(stateToGroup), states, gid)
    {
      gid := |groups|;
      for k := 0 to |states|
        invariant |stateToGroup| == |old(stateToGroup)| && groups == old(groups)
        invariant stateToGroup == Assign(old(stateToGroup), states[..k], gid)
      {
        assert states[k] in states;
        stateToGroup := stateToGroup[states[k] := gid];
        assert forall s :: s in states[..k + 1] <==> s in states[..k] || s == states[k];
      }
      assert states[..|states|] == states;
      groups := groups + [Group(states, isAccepting, token, priority, true)];
    }

    /**
     * `split(gid, x)`: when x properly divides valid group gid, the group
     * keeps the states in x and a new group, returned, takes the rest with
     * the same accept data; otherwise -1, with the group's states merely
     * sorted. The caller's x is sorted in place as well; the model takes it
     * by value.
     */
    method Split(gid: int, x: seq<int>) returns (newGid: int)
      requires 0 <= gid < |groups| && GroupsInRange(groups, |stateToGroup|)
      modifies this
      ensures GroupsInRange(groups, |stateToGroup|) && |stateToGroup| == |old(stateToGroup)|
      ensures |groups| >= |old(groups)|
      ensures old(Consistent(groups, stateToGroup)) ==> Consistent(groups, stateToGroup)
      ensures old(NonEmpty(groups)) ==> NonEmpty(groups)
      ensures newGid == -1 <==>
                !old(groups[gid]).valid || Elems(old(groups[gid]).states) <= Elems(x) ||
                Elems(old(groups[gid]).states) * Elems(x) == {}
      ensures newGid == -1 ==>
                && stateToGroup == old(stateToGroup)
                && groups == old(groups)[gid := old(groups[gid]).(states := groups[gid].states)]
                && multiset(groups[gid].states) == multiset(old(groups[gid]).states)
      ensures newGid != -1 ==>
                && newGid == |old(groups)| && |groups| == newGid + 1
                && groups == old(groups)[gid := old(groups[gid]).(states := groups[gid].states)] +
                             [old(groups[gid]).(states := groups[newGid].states)]
                && Elems(groups[gid].states) == Elems(old(groups[gid]).states) * Elems(x)
                && Elems(groups[newGid].states) == Elems(old(groups[gid]).states) - Elems(x)
                && stateToGroup == Assign(Assign(old(stateToGroup), groups[gid].states, gid), groups[newGid].states, newGid)
    {
      var old_ := groups[gid];
      if !old_.valid {
        return -1;
      }
      ghost var groups0, m0 := groups, stateToGroup;
      var sorted := Sort(old_.states);
      var xs := Sort(x);
      Resorted(groups0, m0, gid, sorted);
      groups := groups[gid := old_.(states := sorted)];
      ghost var groupsS := groups;
      var diff := SetDifference(sorted, xs);
      var inter := SetIntersection(sorted, xs);
      Parts(old_.states, x, sorted, xs, inter, diff);
      if inter == [] || diff == [] {
        return -1;
      }
      newGid := Divide(gid, inter, diff);
      UpdateTwice(groups0, gid, old_.(states := sorted), old_.(states := inter));
      if Consistent(groups0, m0) {
        AssignNoop(m0, groupsS, gid, inter);
        SplitConsistent(groupsS, m0, gid, inter, diff, groups, stateToGroup);
      }
    }

    /** The two halves `split` computes, in terms of the group and x as they were before sorting. */
    static lemma Parts(states: seq<int>, x: seq<int>, sorted: seq<int>, xs: seq<int>, inter: seq<int>, diff: seq<int>)
      requires multiset(sorted) == multiset(states) && multiset(xs) == multiset(x)
      requires Elems(inter) == Elems(sorted) * Elems(xs) && Elems(diff) == Elems(sorted) - Elems(xs)
      ensures Elems(inter) == Elems(states) * Elems(x) && Elems(diff) == Elems(states) - Elems(x)
      ensures Elems(inter) + Elems(diff) == Elems(states) && Elems(inter) * Elems(diff) == {}
      ensures inter == [] <==> Elems(states) * Elems(x) == {}
      ensures diff == [] <==> Elems(states) <= Elems(x)
    {
      MultisetElems(states, sorted);
      MultisetElems(x, xs);
      ElemsEmpty(inter);
      ElemsEmpty(diff);
    }

    static lemma UpdateTwice(groups: seq<Group>, gid: int, a: Group, b: Group)
      requires 0 <= gid < |groups|
      ensures groups[gid := a][gid := b] == groups[gid := b]
    {
    }

    /** The successful end of `split`: group gid keeps `inter`, a new group takes `diff`. */
    method Divide(gid: int, inter: seq<int>, diff: seq<int>) returns (newGid: int)
      requires 0 <= gid < |groups| && GroupsInRange(groups, |stateToGroup|) && groups[gid].valid
      requires Elems(inter) + Elems(diff) == Elems(groups[gid].states) && inter != [] && diff != []
      modifies this
      ensures GroupsInRange(groups, |stateToGroup|) && |stateToGroup| == |old(stateToGroup)|
      ensures old(NonEmpty(groups)) ==> NonEmpty(groups)
      ensures newGid == |old(groups)|
      ensures groups == old(groups)[gid := old(groups[gid]).(states := inter)] + [old(groups[gid]).(states := diff)]
      ensures stateToGroup == Assign(Assign(old(stateToGroup), inter, gid), diff, newGid)
    {
      var old_ := groups[gid];
      ghost var groups0, m0 := groups, stateToGroup;
      forall s | s in inter || s in diff ensures 0 <= s < |m0| {
        assert s in Elems(inter) || s in Elems(diff);
        assert s in groups0[gid].states;
      }
      groups := groups[gid := old_.(states := inter)];
      for k := 0 to |inter|
        invariant |stateToGroup| == |m0| && groups == groups0[gid := old_.(states := inter)]
        invariant stateToGroup == Assign(m0, inter[..k], gid)
      {
        assert inter[k] in inter;
        stateToGroup := stateToGroup[inter[k] := gid];
        assert forall s :: s in inter[..k + 1] <==> s in inter[..k] || s == inter[k];
      }
      assert inter[..|inter|] == inter;
      newGid := AddGroup(diff, old_.isAccepting, old_.token, old_.priority);
      forall g, s {:trigger s in groups[g].states} | 0 <= g < |groups| && s in groups[g].states
        ensures 0 <= s < |stateToGroup|
      {
        if g != gid && g < |groups0| {
          assert groups[g] == groups0[g];
        }
      }
      forall g | 0 <= g < |groups| && old(NonEmpty(groups)) ensures groups[g].states != [] {
        if g != gid && g < |groups0| {
          assert groups[g] == groups0[g];
        }
      }
    }

    /** Sorting a group's states in place keeps every partition fact. */
    static lemma Resorted(groups: seq<Group>, m: seq<int>, gid: int, sorted: seq<int>)
      requires 0 <= gid < |groups| && GroupsInRange(groups, |m|) && multiset(sorted) == multiset(groups[gid].states)
      ensures Elems(sorted) == Elems(groups[gid].states)
      ensures NoDup(groups[gid].states) ==> NoDup(sorted)
      ensures GroupsInRange(groups[gid := groups[gid].(states := sorted)], |m|)
      ensures Consistent(groups, m) ==> Consistent(groups[gid := groups[gid].(states := sorted)], m)
      ensures NonEmpty(groups) ==> NonEmpty(groups[gid := groups[gid].(states := sorted)])
    {
      MultisetElems(groups[gid].states, sorted);
      if NoDup(groups[gid].states) {
        NoDupMultiset(groups[gid].states, sorted);
      }
      ElemsEmpty(sorted);
      ElemsEmpty(groups[gid].states);
      var groups' := groups[gid := groups[gid].(states := sorted)];
      assert forall g, s :: 0 <= g < |groups| && s in groups'[g].states ==> s in groups[g].states by {
        forall g, s | 0 <= g < |groups| && s in groups'[g].states ensures s in groups[g].states {
          if g == gid {
            assert s in Elems(sorted);
          }
        }
      }
      assert forall g, s :: 0 <= g < |groups| && s in groups[g].states ==> s in groups'[g].states by {
        forall g, s | 0 <= g < |groups| && s in groups[g].states ensures s in groups'[g].states {
          if g == gid {
            assert s in Elems(groups[gid].states);
          }
        }
      }
    }

    /** Re-mapping a group's own states to it changes nothing. */
    static lemma AssignNoop(m: seq<int>, groups: seq<Group>, gid: int, inter: seq<int>)
      requires Consistent(groups, m) && 0 <= gid < |groups| && Elems(inter) <= Elems(groups[gid].states)
      ensures Assign(m, inter, gid) == m
    {
      forall s | 0 <= s < |m| ensures Assign(m, inter, gid)[s] == m[s] {
        if s in inter {
          assert s in Elems(groups[gid].states);
        }
      }
    }

    static lemma SplitConsistent(groups0: seq<Group>, m0: seq<int>, gid: int, inter: seq<int>, diff: seq<int>,
                                 groups1: seq<Group>, m1: seq<int>)
      requires Consistent(groups0, m0) && 0 <= gid < |groups0|
      requires NoDup(inter) && NoDup(diff)
      requires Elems(inter) + Elems(diff) == Elems(groups0[gid].states) && Elems(inter) * Elems(diff) == {}
      requires groups1 == groups0[gid := groups0[gid].(states := inter)] + [groups0[gid].(states := diff, valid := true)]
      requires m1 == Assign(m0, diff, |groups0|)
      ensures Consistent(groups1, m1)
    {
      var n := |groups0|;
      forall t | t in diff ensures 0 <= t < |m0| && m0[t] == gid {
        assert t in Elems(diff);
        assert t in groups0[gid].states;
      }
      forall g, s {:trigger s in groups1[g].states} | 0 <= g < |groups1| && s in groups1[g].states
        ensures 0 <= s < |m1| && m1[s] == g
      {
        if g < n && g != gid {
          assert groups1[g] == groups0[g];
          assert m0[s] == g;
        } else if g == gid {
          assert s in Elems(inter);
          assert s in Elems(groups0[gid].states);
          assert s !in Elems(inter) * Elems(diff);
        } else {
          assert s in Elems(diff);
        }
      }
      forall g | 0 <= g < |groups1| ensures groups1[g].valid && NoDup(groups1[g].states) {
        if g < n && g != gid {
          assert groups1[g] == groups0[g];
        }
      }
      forall s | 0 <= s < |m1| && m1[s] != -1 ensures 0 <= m1[s] < |groups1| && s in groups1[m1[s]].states {
        if s !in diff {
          var g := m0[s];
          assert m1[s] == g && 0 <= g < n && s in groups0[g].states;
          if g == gid {
            assert s in Elems(groups0[gid].states);
            assert s !in Elems(diff);
            assert s in Elems(inter);
          } else {
            assert groups1[g] == groups0[g];
          }
        } else {
          assert groups1[n].states == diff;
        }
      }
    }

    /** `find`: the group of `state`, -1 when it is in none. */
    function Find(state: int): (r: int)
      requires 0 <= state < |stateToGroup|
      reads this
      ensures Consistent(groups, stateToGroup) ==>
                (r == -1 <==> forall g :: 0 <= g < |groups| ==> state !in groups[g].states)
      ensures Consistent(groups, stateToGroup) && r != -1 ==> 0 <= r < |groups| && state in groups[r].states
    {
      stateToGroup[state]
    }
  }

  // ---------------------------------------------------------------------
  // Subset construction
  // ---------------------------------------------------------------------

  /** An edge of state k agrees with the subset construction. */
  ghost predicate SoundEdge(nfa: Nfa, subsets: seq<seq<int>>, k: int, t: Trans)
    requires 0 <= k < |subsets| && nfa.InRange(subsets[k])
    reads nfa
  {
    && 0 <= t.to < |subsets| && t.sym in nfa.LabelsFrom(subsets[k])
    && nfa.TargetsFrom(subsets[k], t.sym) != {}
    && nfa.IsClosureOf(subsets[t.to], nfa.TargetsFrom(subsets[k], t.sym))
  }

  /**
   * The automaton `st` with state subsets `subsets`: each subset is a
   * sorted list of NFA states, each state accepts what its subset accepts,
   * and every edge is deterministic and agrees with the construction.
   */
  ghost predicate Built(nfa: Nfa, st: seq<DfaState>, subsets: seq<seq<int>>)
    reads nfa
  {
    && |subsets| == |st|
    && (forall k :: 0 <= k < |subsets| ==> StrictlySorted(subsets[k]) && nfa.InRange(subsets[k]))
    && (forall k :: 0 <= k < |subsets| ==> nfa.IsAcceptOf(subsets[k], st[k].token, st[k].priority))
    && (forall k :: 0 <= k < |st| ==> Deterministic(st[k].edges))
    && (forall k, t :: 0 <= k < |st| && t in st[k].edges ==> SoundEdge(nfa, subsets, k, t))
  }

  /** A state of subset `sub` has a `sym`-edge whenever the subset has `sym`-moves. */
  ghost predicate Complete(nfa: Nfa, sub: seq<int>, edges: seq<Trans>, sym: int)
    requires nfa.InRange(sub)
    reads nfa
  {
    nfa.TargetsFrom(sub, sym) != {} ==> HasSym(edges, sym)
  }

  /** `subset_idx` maps each registered subset to its state and nothing else. */
  ghost predicate Indexed(idx: map<seq<int>, int>, subsets: seq<seq<int>>)
  {
    && (forall key :: key in idx ==> 0 <= idx[key] < |subsets| && subsets[idx[key]] == key)
    && (forall k :: 0 <= k < |subsets| ==> subsets[k] in idx && idx[subsets[k]] == k)
  }

  /** Registering a new closure keeps the construction's invariant. */
  lemma NewSubsetBuilt(nfa: Nfa, st0: seq<DfaState>, subsets: seq<seq<int>>, closure: seq<int>, st: seq<DfaState>)
    requires Built(nfa, st0, subsets)
    requires StrictlySorted(closure) && nfa.InRange(closure)
    requires |st| == |st0| + 1 && (forall k :: 0 <= k < |st0| ==> st[k] == st0[k]) && st[|st0|].edges == []
    requires nfa.IsAcceptOf(closure, st[|st0|].token, st[|st0|].priority)
    ensures Built(nfa, st, subsets + [closure])
  {
    var subsets' := subsets + [closure];
    assert forall k :: 0 <= k < |subsets| ==> subsets'[k] == subsets[k] && st[k] == st0[k];
    forall k, t | 0 <= k < |st| && t in st[k].edges ensures SoundEdge(nfa, subsets', k, t) {
      assert st[k] == st0[k];
      assert SoundEdge(nfa, subsets, k, t);
    }
  }

  /** Registering a closure missing from `subset_idx` keeps the index exact. */
  lemma NewSubsetIndexed(idx: map<seq<int>, int>, subsets: seq<seq<int>>, closure: seq<int>)
    requires Indexed(idx, subsets) && closure !in idx
    ensures Indexed(idx[closure := |subsets|], subsets + [closure])
  {
  }

  /** The element sets of the registered subsets. */
  ghost function ElemSets(subs: seq<seq<int>>): set<set<int>>
  {
    if subs == [] then {} else ElemSets(subs[..|subs| - 1]) + {Elems(subs[|subs| - 1])}
  }

  /**
   * Distinct sorted subsets of the n NFA states number at most |Subsets(n)|:
   * the bound that ends the subset construction's work list.
   */
  lemma {:induction false} SubsetCount(subs: seq<seq<int>>, n: nat)
    requires forall k :: 0 <= k < |subs| ==> StrictlySorted(subs[k]) && Elems(subs[k]) <= IntRange(n)
    requires forall k1, k2 :: 0 <= k1 < k2 < |subs| ==> subs[k1] != subs[k2]
    ensures |ElemSets(subs)| == |subs| && ElemSets(subs) <= Subsets(n)
  {
    if subs != [] {
      var m := |subs| - 1;
      SubsetCount(subs[..m], n);
      forall x | x in ElemSets(subs[..m]) ensures x != Elems(subs[m]) {
        var k := ElemSetsMember(subs[..m], x);
        StrictlySortedInjective(subs[k], subs[m]);
      }
      assert Elems(subs[m]) in Subsets(n);
    }
  }

  lemma {:induction false} ElemSetsMember(subs: seq<seq<int>>, x: set<int>) returns (k: int)
    requires x in ElemSets(subs)
    ensures 0 <= k < |subs| && Elems(subs[k]) == x
  {
    var m := |subs| - 1;
    if x == Elems(subs[m]) {
      k := m;
    } else {
      k := ElemSetsMember(subs[..m], x);
    }
  }

  /** Adding the `sym`-edge from i to the closure's state keeps the construction sound and makes i complete for `sym`. */
  lemma LinkSound(nfa: Nfa, st0: seq<DfaState>, subsets: seq<seq<int>>, i: int, sym: int, toState: int,
                  moveStates: seq<int>, st: seq<DfaState>)
    requires Built(nfa, st0, subsets) && 0 <= i < |st0| && 0 <= toState < |st0|
    requires sym in nfa.LabelsFrom(subsets[i]) && Elems(moveStates) == nfa.TargetsFrom(subsets[i], sym) && moveStates != []
    requires nfa.IsClosureOf(subsets[toState], Elems(moveStates))
    requires st == st0[i := st0[i].(edges := WithEdge(st0[i].edges, sym, toState))]
    ensures Built(nfa, st, subsets)
    ensures forall x :: HasSym(st0[i].edges, x) ==> HasSym(st[i].edges, x)
    ensures Complete(nfa, subsets[i], st[i].edges, sym)
  {
    WithEdgeSpec(st0[i].edges, sym, toState);
    WithEdgeMembers(st0[i].edges, sym, toState);
    assert moveStates[0] in Elems(moveStates);
    forall k, t | 0 <= k < |st| && t in st[k].edges ensures SoundEdge(nfa, subsets, k, t) {
      if k != i || t != Trans(sym, toState) {
        assert t in st0[k].edges;
      }
    }
  }

  lemma WithEdgeMembers(edges: seq<Trans>, sym: int, v: int)
    ensures forall t :: t in WithEdge(edges, sym, v) ==> t in edges || t == Trans(sym, v)
  {
  }

  /** States below i have an edge for every symbol their subset moves on. */
  ghost predicate CompleteBelow(nfa: Nfa, st: seq<DfaState>, subs: seq<seq<int>>, i: int)
    requires Built(nfa, st, subs)
    reads nfa
  {
    forall k, sym :: 0 <= k < i && k < |st| && sym in nfa.LabelsFrom(subs[k]) ==> Complete(nfa, subs[k], st[k].edges, sym)
  }

  /** `edges` are complete for each symbol of `done`. */
  ghost predicate CompleteFor(nfa: Nfa, sub: seq<int>, edges: seq<Trans>, done: set<int>)
    requires nfa.InRange(sub)
    reads nfa
  {
    forall sym :: sym in done ==> Complete(nfa, sub, edges, sym)
  }

  lemma StartBuilt(nfa: Nfa, first: seq<int>, st: seq<DfaState>, idx: map<seq<int>, int>)
    requires StrictlySorted(first) && nfa.InRange(first)
    requires |st| == 1 && st[0].edges == [] && nfa.IsAcceptOf(first, st[0].token, st[0].priority)
    requires idx == map[first := 0]
    ensures Built(nfa, st, [first]) && Indexed(idx, [first])
  {
  }

  /** The registered subsets are distinct, so there are at most |Subsets(n)| of them. */
  lemma BuiltCount(nfa: Nfa, st: seq<DfaState>, subs: seq<seq<int>>, idx: map<seq<int>, int>)
    requires Built(nfa, st, subs) && Indexed(idx, subs)
    ensures |subs| <= |Subsets(|nfa.st|)|
  {
    forall k | 0 <= k < |subs| ensures Elems(subs[k]) <= IntRange(|nfa.st|) {
      assert nfa.InRange(subs[k]);
    }
    SubsetCount(subs, |nfa.st|);
    SubsetSize(ElemSets(subs), Subsets(|nfa.st|));
  }

  /** What one Explore call leaves complete: all that was, and `sym` for state i. */
  lemma CompleteKeep(nfa: Nfa, st0: seq<DfaState>, subs0: seq<seq<int>>, st: seq<DfaState>, subs: seq<seq<int>>,
                     i: int, done: set<int>, sym: int)
    requires Built(nfa, st0, subs0) && Built(nfa, st, subs) && 0 <= i < |st0|
    requires |subs0| <= |subs| && forall k :: 0 <= k < |subs0| ==> subs[k] == subs0[k]
    requires |st0| <= |st| && forall k :: 0 <= k < |st0| && k != i ==> st[k] == st0[k]
    requires forall x :: HasSym(st0[i].edges, x) ==> HasSym(st[i].edges, x)
    requires CompleteBelow(nfa, st0, subs0, i) && CompleteFor(nfa, subs0[i], st0[i].edges, done)
    requires Complete(nfa, subs0[i], st[i].edges, sym)
    ensures subs[i] == subs0[i]
    ensures CompleteBelow(nfa, st, subs, i) && CompleteFor(nfa, subs[i], st[i].edges, done + {sym})
  {
    assert forall k :: 0 <= k < |subs0| ==> subs[k] == subs0[k];
  }

  lemma CompleteNext(nfa: Nfa, st: seq<DfaState>, subs: seq<seq<int>>, i: int)
    requires Built(nfa, st, subs) && 0 <= i < |st|
    requires CompleteBelow(nfa, st, subs, i) && CompleteFor(nfa, subs[i], st[i].edges, nfa.LabelsFrom(subs[i]))
    ensures CompleteBelow(nfa, st, subs, i + 1)
  {
  }

  /**
   * The outcome of the subset construction: state 0 stands for the ε-closure
   * of the NFA start, the states stand for distinct subsets, the edges agree
   * with the construction and stay in range, and every state has an edge for
   * every symbol (other than ε) that its subset moves on.
   */
  ghost predicate SubsetAutomaton(nfa: Nfa, st: seq<DfaState>, subsets: seq<seq<int>>)
    reads nfa
  {
    && |st| > 0 && Built(nfa, st, subsets) && DfaEdgesInRange(st)
    && nfa.IsClosureOf(subsets[0], {nfa.start})
    && (forall k1, k2 :: 0 <= k1 < k2 < |subsets| ==> Elems(subsets[k1]) != Elems(subsets[k2]))
    && (forall k, sym :: 0 <= k < |st| && sym != EPS ==> Complete(nfa, subsets[k], st[k].edges, sym))
  }

  /** At the end of the construction: edges in range, subsets distinct, and completeness for every symbol. */
  lemma BuiltEnd(nfa: Nfa, st: seq<DfaState>, subsets: seq<seq<int>>, idx: map<seq<int>, int>, first: seq<int>)
    requires Built(nfa, st, subsets) && Indexed(idx, subsets) && |subsets| > 0
    requires subsets[0] == first && nfa.IsClosureOf(first, {nfa.start})
    requires CompleteBelow(nfa, st, subsets, |subsets|)
    ensures SubsetAutomaton(nfa, st, subsets)
  {
    forall s, e | 0 <= s < |st| && 0 <= e < |st[s].edges| ensures 0 <= st[s].edges[e].to < |st| {
      assert st[s].edges[e] in st[s].edges;
    }
    forall k1, k2 | 0 <= k1 < k2 < |subsets| ensures Elems(subsets[k1]) != Elems(subsets[k2]) {
      StrictlySortedInjective(subsets[k1], subsets[k2]);
    }
    forall k, sym | 0 <= k < |st| && sym != EPS ensures Complete(nfa, subsets[k], st[k].edges, sym) {
      if nfa.TargetsFrom(subsets[k], sym) != {} {
        var x := Pick(nfa.TargetsFrom(subsets[k], sym));
        nfa.TargetsFromSpec(subsets[k], sym, x);
        nfa.LabelsFromSpec(subsets[k], sym);
      }
    }
  }

  /** Where the reverse-edge loop stands: (sym, from) is recorded in rev[to] for every edge scanned so far. */
  ghost predicate RevBefore(st: seq<DfaState>, reach: seq<bool>, to: int, t: Trans, from: int, e: int)
    requires |reach| == |st| && 0 <= to < |st| && 0 <= from && (from < |st| ==> 0 <= e <= |st[from].edges|)
  {
    && 0 <= t.to < |st| && reach[t.to] && reach[to]
    && (if t.to < from then Trans(t.sym, to) in st[t.to].edges
        else t.to == from && Trans(t.sym, to) in st[from].edges[..e])
  }

  /** The marks only grew from `before` to `after`, and every new mark is reachable from u. */
  ghost predicate Grown(st: seq<DfaState>, u: int, before: set<int>, after: set<int>)
  {
    before <= after && forall s :: s in after - before ==> Reachable(st, u, s)
  }

  /** s is a state and every successor of it is marked. */
  predicate SuccMarked(st: seq<DfaState>, s: int, marked: set<int>)
  {
    0 <= s < |st| && forall e :: 0 <= e < |st[s].edges| ==> st[s].edges[e].to in marked
  }

  lemma DfsMeasure(st: seq<DfaState>, u: int, to: int, before: set<int>, mid: set<int>)
    requires before + {u} <= mid && 0 <= to < |st| && to !in mid
    ensures |IntRange(|st|) - mid - {to}| < |IntRange(|st|) - before - {u}|
  {
    ProperSubsetSize(IntRange(|st|) - mid - {to}, IntRange(|st|) - before - {u}, to);
  }

  lemma DfsAfterCall(st: seq<DfaState>, u: int, e: int, before: set<int>, mid: set<int>, after: set<int>)
    requires 0 <= u < |st| && 0 <= e < |st[u].edges|
    requires Grown(st, u, before, mid) && u in mid
    requires forall s :: s in mid - before - {u} ==> SuccMarked(st, s, mid)
    requires forall e' :: 0 <= e' < e ==> st[u].edges[e'].to in mid
    requires Grown(st, st[u].edges[e].to, mid, after) && st[u].edges[e].to in after
    requires forall s :: s in after - mid ==> SuccMarked(st, s, after)
    ensures Grown(st, u, before, after) && u in after
    ensures forall s :: s in after - before - {u} ==> SuccMarked(st, s, after)
    ensures forall e' :: 0 <= e' <= e ==> st[u].edges[e'].to in after
  {
    forall s | s in after - before ensures Reachable(st, u, s) {
      if s !in mid {
        ReachableStep(st, u, e, s);
      }
    }
    forall s | s in after - before - {u} ensures SuccMarked(st, s, after) {
      if s in mid {
        assert SuccMarked(st, s, mid);
      }
    }
  }

  /** The automaton itself. */
  class Dfa {
    var st: seq<DfaState>
    var start: int

    /** The default-constructed automaton: no states and start -1. */
    constructor ()
      ensures st == [] && start == -1
    {
      st := [];
      start := -1;
    }

    /**
     * Subset construction. An empty NFA gives an empty automaton with start
     * 0. Otherwise state 0 stands for the ε-closure of the NFA's start, no
     * two states stand for the same subset, each accepts what its subset
     * accepts, and state k has a `sym`-edge exactly when some NFA state of
     * its subset has one, leading to the state of the ε-closure of the
     * `sym`-targets.
     */
    constructor FromNfa(nfa: Nfa)
      requires nfa.WellFormed() && (|nfa.st| > 0 ==> 0 <= nfa.start < |nfa.st|)
      ensures |nfa.st| == 0 ==> st == [] && start == 0
      ensures |nfa.st| > 0 ==> start == 0 && exists subsets :: SubsetAutomaton(nfa, st, subsets)
    {
      st := [];
      start := 0;
      new;
      if |nfa.st| > 0 {
        Construct(nfa);
      }
    }

    /** The construction proper, on a non-empty NFA: the start subset, then the work list. */
    method Construct(nfa: Nfa)
      requires nfa.WellFormed() && 0 <= nfa.start < |nfa.st| && st == []
      modifies this`st, this`start
      ensures start == 0 && exists subsets :: SubsetAutomaton(nfa, st, subsets)
    {
      var first, subsetIdx := AddStart(nfa);
      var subs;
      subs, subsetIdx := WorkList(nfa, [first], subsetIdx);
      BuiltEnd(nfa, st, subs, subsetIdx, first);
    }

    /** Steps 2 and 3: expands the registered subsets in order until no unexpanded one is left. */
    method WorkList(nfa: Nfa, subs: seq<seq<int>>, subsetIdx: map<seq<int>, int>)
      returns (subs': seq<seq<int>>, subsetIdx': map<seq<int>, int>)
      requires nfa.WellFormed() && Built(nfa, st, subs) && Indexed(subsetIdx, subs) && |subs| > 0
      modifies this`st
      ensures Built(nfa, st, subs') && Indexed(subsetIdx', subs') && CompleteBelow(nfa, st, subs', |subs'|)
      ensures |subs'| > 0 && subs'[0] == subs[0]
    {
      subs', subsetIdx' := subs, subsetIdx;
      var i := 0;
      while i < |subs'|
        invariant 0 <= i <= |subs'| && |subs'| > 0 && subs'[0] == subs[0]
        invariant Built(nfa, st, subs') && Indexed(subsetIdx', subs') && CompleteBelow(nfa, st, subs', i)
        decreases |Subsets(|nfa.st|)| - i
      {
        BuiltCount(nfa, st, subs', subsetIdx');
        subs', subsetIdx' := ExpandState(nfa, i, subs', subsetIdx');
        i := i + 1;
      }
    }

    /** Step 1 of the construction: state 0 stands for the (sorted) ε-closure of the NFA's start. */
    method AddStart(nfa: Nfa) returns (first: seq<int>, subsetIdx: map<seq<int>, int>)
      requires nfa.WellFormed() && 0 <= nfa.start < |nfa.st| && st == []
      modifies this`st, this`start
      ensures start == 0 && Built(nfa, st, [first]) && Indexed(subsetIdx, [first])
      ensures nfa.IsClosureOf(first, {nfa.start})
    {
      first := StartClosure(nfa);
      start := NewState();
      subsetIdx := map[first := start];
      var token, priority := nfa.ComputingAccept(first);
      st := st[start := st[start].(token := token, priority := priority)];
      StartBuilt(nfa, first, st, subsetIdx);
    }

    /** `subsets[0]`: the ε-closure of the NFA's start, sorted. */
    static method StartClosure(nfa: Nfa) returns (first: seq<int>)
      requires nfa.WellFormed() && 0 <= nfa.start < |nfa.st|
      ensures StrictlySorted(first) && nfa.InRange(first)
      ensures nfa.IsClosureOf(first, {nfa.start})
    {
      var startStates := nfa.EpsilonClosure([nfa.start]);
      SortSortedIdentity(startStates);
      first := Sort(startStates);
    }

    /** The body of the work-list loop: state i gets its edge for every symbol its subset moves on. */
    method ExpandState(nfa: Nfa, i: int, subs: seq<seq<int>>, subsetIdx: map<seq<int>, int>)
      returns (subs': seq<seq<int>>, subsetIdx': map<seq<int>, int>)
      requires nfa.WellFormed() && 0 <= i < |st|
      requires Built(nfa, st, subs) && Indexed(subsetIdx, subs) && CompleteBelow(nfa, st, subs, i)
      modifies this`st
      ensures Built(nfa, st, subs') && Indexed(subsetIdx', subs') && CompleteBelow(nfa, st, subs', i + 1)
      ensures |subs| <= |subs'| && forall k :: 0 <= k < |subs| ==> subs'[k] == subs[k]
    {
      subs', subsetIdx' := subs, subsetIdx;
      var t := subs[i];
      var symbols := nfa.CollectSymbols(t);
      while symbols != {}
        invariant i < |subs'| && subs'[i] == t && |subs| <= |subs'| && forall k :: 0 <= k < |subs| ==> subs'[k] == subs[k]
        invariant symbols <= nfa.LabelsFrom(t)
        invariant Built(nfa, st, subs') && Indexed(subsetIdx', subs')
        invariant CompleteBelow(nfa, st, subs', i) && CompleteFor(nfa, t, st[i].edges, nfa.LabelsFrom(t) - symbols)
        decreases symbols
      {
        ghost var some := Pick(symbols);
        var sym :| sym in symbols;
        ghost var st0, subs0 := st, subs';
        subs', subsetIdx' := Explore(nfa, i, sym, subs', subsetIdx');
        CompleteKeep(nfa, st0, subs0, st, subs', i, nfa.LabelsFrom(t) - symbols, sym);
        symbols := symbols - {sym};
      }
      CompleteNext(nfa, st, subs', i);
    }

    /**
     * One step of the subset construction: the ε-closure of the `sym`-moves
     * of state i's subset is looked up, registered as a new state when
     * unseen, and linked from i.
     */
    method Explore(nfa: Nfa, i: int, sym: int, subs: seq<seq<int>>, subsetIdx: map<seq<int>, int>)
      returns (subs': seq<seq<int>>, subsetIdx': map<seq<int>, int>)
      requires nfa.WellFormed() && 0 <= i < |st|
      requires Built(nfa, st, subs) && Indexed(subsetIdx, subs)
      requires sym in nfa.LabelsFrom(subs[i])
      modifies this`st
      ensures Built(nfa, st, subs') && Indexed(subsetIdx', subs')
      ensures |subs| <= |subs'| && forall k :: 0 <= k < |subs| ==> subs'[k] == subs[k]
      ensures |old(st)| <= |st| && forall k :: 0 <= k < |old(st)| && k != i ==> st[k] == old(st[k])
      ensures forall x :: HasSym(old(st[i].edges), x) ==> HasSym(st[i].edges, x)
      ensures Complete(nfa, subs[i], st[i].edges, sym)
    {
      subs', subsetIdx' := subs, subsetIdx;
      var moveStates := nfa.Move(subs[i], sym);
      if moveStates == [] {
        return;
      }
      var closure := nfa.EpsilonClosure(moveStates);
      SortSortedIdentity(closure);
      closure := Sort(closure);
      var toState;
      subs', subsetIdx', toState := Register(nfa, closure, subs, subsetIdx);
      Link(nfa, i, sym, toState, moveStates, subs');
    }

    /** Looks the closure up in `subset_idx`, registering it as a new state (with its accept data) when absent. */
    method Register(nfa: Nfa, closure: seq<int>, subs: seq<seq<int>>, subsetIdx: map<seq<int>, int>)
      returns (subs': seq<seq<int>>, subsetIdx': map<seq<int>, int>, toState: int)
      requires Built(nfa, st, subs) && Indexed(subsetIdx, subs)
      requires StrictlySorted(closure) && nfa.InRange(closure)
      modifies this`st
      ensures Built(nfa, st, subs') && Indexed(subsetIdx', subs')
      ensures |subs| <= |subs'| && forall k :: 0 <= k < |subs| ==> subs'[k] == subs[k]
      ensures |old(st)| <= |st| && forall k :: 0 <= k < |old(st)| ==> st[k] == old(st[k])
      ensures 0 <= toState < |subs'| && subs'[toState] == closure
    {
      if closure in subsetIdx {
        return subs, subsetIdx, subsetIdx[closure];
      }
      toState := NewState();
      var token, priority := nfa.ComputingAccept(closure);
      st := st[toState := st[toState].(token := token, priority := priority)];
      NewSubsetBuilt(nfa, old(st), subs, closure, st);
      NewSubsetIndexed(subsetIdx, subs, closure);
      subs' := subs + [closure];
      subsetIdx' := subsetIdx[closure := toState];
    }

    /** `add_edge(from, toState, sym)` for a registered closure of the `sym`-moves of state i. */
    method Link(nfa: Nfa, i: int, sym: int, toState: int, ghost moveStates: seq<int>, ghost subs: seq<seq<int>>)
      requires Built(nfa, st, subs) && 0 <= i < |st| && 0 <= toState < |st|
      requires sym in nfa.LabelsFrom(subs[i]) && Elems(moveStates) == nfa.TargetsFrom(subs[i], sym) && moveStates != []
      requires nfa.IsClosureOf(subs[toState], Elems(moveStates))
      modifies this`st
      ensures Built(nfa, st, subs)
      ensures |old(st)| == |st| && forall k :: 0 <= k < |old(st)| && k != i ==> st[k] == old(st[k])
      ensures forall x :: HasSym(old(st[i].edges), x) ==> HasSym(st[i].edges, x)
      ensures Complete(nfa, subs[i], st[i].edges, sym)
    {
      AddEdge(i, toState, sym);
      LinkSound(nfa, old(st), subs, i, sym, toState, moveStates, st);
    }

    predicate WellFormed()
      reads this
    {
      DfaEdgesInRange(st)
    }

    /** `new_state`: appends a fresh state and returns its index, the old state count. */
    method NewState() returns (id: int)
      modifies this`st
      ensures st == old(st) + [FreshDfaState] && start == old(start)
      ensures id == |old(st)|
    {
      st := st + [FreshDfaState];
      id := |st| - 1;
    }

    /**
     * `add_edge(u, v, sym)`: retargets u's `sym`-edge to v, or appends one;
     * WithEdgeSpec says what that does to the edge table.
     */
    method AddEdge(u: int, v: int, sym: int)
      requires 0 <= u < |st|
      modifies this`st
      ensures st == old(st)[u := old(st[u]).(edges := WithEdge(old(st[u].edges), sym, v))]
      ensures start == old(start)
    {
      var edges := st[u].edges;
      for e := 0 to |edges|
        invariant forall j :: 0 <= j < e ==> edges[j].sym != sym
      {
        if edges[e].sym == sym {
          st := st[u := st[u].(edges := edges[e := Trans(sym, v)])];
          return;
        }
      }
      st := st[u := st[u].(edges := edges + [Trans(sym, v)])];
    }

    /**
     * `transition`: the target of the first edge labelled `sym`; failing
     * that, for a symbol other than ANY, the target of the last ANY edge;
     * failing both, -1.
     */
    method Transition(state: int, sym: int) returns (r: int)
      requires 0 <= state < |st|
      ensures HasSym(st[state].edges, sym) ==> r == st[state].edges[FirstEdge(st[state].edges, sym)].to
      ensures !HasSym(st[state].edges, sym) && sym != ANY && HasSym(st[state].edges, ANY) ==>
                r == st[state].edges[LastEdge(st[state].edges, ANY)].to
      ensures !HasSym(st[state].edges, sym) && (sym == ANY || !HasSym(st[state].edges, ANY)) ==> r == -1
    {
      var edges := st[state].edges;
      var anyTarget := -1;
      for e := 0 to |edges|
        invariant forall j :: 0 <= j < e ==> edges[j].sym != sym
        invariant anyTarget == if sym != ANY && HasSym(edges[..e], ANY) then edges[LastEdge(edges[..e], ANY)].to else -1
      {
        assert edges[..e + 1][..e] == edges[..e];
        if edges[e].sym == sym {
          return edges[e].to;
        }
        if sym != ANY && edges[e].sym == ANY {
          anyTarget := edges[e].to;
        }
        assert HasSym(edges[..e + 1], ANY) <==> HasSym(edges[..e], ANY) || edges[e].sym == ANY;
      }
      assert edges[..|edges|] == edges;
      return anyTarget;
    }

    /**
     * `dfs(u, reachable)`: marks u and, through unmarked states, everything
     * reachable from it. The newly marked states are all reachable from u,
     * and each of them, like u, has all its successors marked; from an
     * all-unmarked vector that is exactly the set reachable from u
     * (MarkedIsReachSet).
     */
    method Dfs(u: int, reachable: array<bool>)
      requires WellFormed() && reachable.Length == |st| && 0 <= u < |st|
      modifies reachable
      ensures Grown(st, u, old(Marked(reachable)), Marked(reachable)) && u in Marked(reachable)
      ensures SuccMarked(st, u, Marked(reachable))
      ensures forall s :: s in Marked(reachable) - old(Marked(reachable)) ==> SuccMarked(st, s, Marked(reachable))
      decreases |IntRange(|st|) - Marked(reachable) - {u}|
    {
      ghost var before := Marked(reachable);
      reachable[u] := true;
      var edges := st[u].edges;
      for e := 0 to |edges|
        invariant Grown(st, u, before, Marked(reachable)) && u in Marked(reachable)
        invariant forall s :: s in Marked(reachable) - before - {u} ==> SuccMarked(st, s, Marked(reachable))
        invariant forall e' :: 0 <= e' < e ==> edges[e'].to in Marked(reachable)
      {
        var to := edges[e].to;
        ghost var mid := Marked(reachable);
        if !reachable[to] {
          DfsMeasure(st, u, to, before, mid);
          Dfs(to, reachable);
          DfsAfterCall(st, u, e, before, mid, Marked(reachable));
        }
      }
    }
    /** `collect_alphabet`: every symbol on some edge (as a set; the vector's order is unspecified). */
    method CollectAlphabet() returns (alphabet: set<int>)
      ensures alphabet == AllLabels(st)
    {
      alphabet := {};
      for i := 0 to |st|
        invariant alphabet == AllLabels(st[..i])
      {
        assert st[..i + 1][..i] == st[..i];
        var edges := st[i].edges;
        ghost var before := alphabet;
        assert edges[..0] == [];
        for j := 0 to |edges|
          invariant alphabet == before + EdgeSyms(edges[..j])
        {
          assert edges[..j + 1][..j] == edges[..j];
          alphabet := alphabet + {edges[j].sym};
        }
        assert edges[..|edges|] == edges;
      }
      assert st[..|st|] == st;
    }

    /**
     * `build_reverse_edges`: rev[to] holds (sym, from) exactly for the
     * edges from -sym-> to between two reachable states.
     */
    method BuildReverseEdges(reach: seq<bool>) returns (rev: seq<seq<Trans>>)
      requires |reach| == |st|
      ensures |rev| == |st|
      ensures forall to, t :: 0 <= to < |st| ==> (t in rev[to] <==> RevEdgeOf(st, reach, to, t))
    {
      var n := |st|;
      rev := seq(n, _ => []);
      for from := 0 to n
        invariant |rev| == n
        invariant forall to, t :: 0 <= to < n ==> (t in rev[to] <==> RevBefore(st, reach, to, t, from, 0))
      {
        if reach[from] {
          var edges := st[from].edges;
          for e := 0 to |edges|
            invariant |rev| == n
            invariant forall to, t :: 0 <= to < n ==> (t in rev[to] <==> RevBefore(st, reach, to, t, from, e))
          {
            var to := edges[e].to;
            ghost var rev0 := rev;
            if 0 <= to < n && reach[to] {
              rev := rev[to := rev[to] + [Trans(edges[e].sym, from)]];
            }
            RevStep(st, reach, rev0, rev, from, e);
          }
          assert edges[..|edges|] == edges;
        }
        RevNext(st, reach, rev, from);
      }
    }

    /** `find_predecessors`: each source of a `sym`-labelled reverse edge into the group, listed once. */
    method FindPredecessors(group: Group, sym: int, rev: seq<seq<Trans>>) returns (preds: seq<int>)
      ensures NoDup(preds) && Elems(preds) == PredsOf(rev, group.states, sym)
    {
      var states := group.states;
      var seen: set<int> := {};
      preds := [];
      for i := 0 to |states|
        invariant seen == Elems(preds) && NoDup(preds) && seen == PredsOf(rev, states[..i], sym)
      {
        assert states[..i + 1][..i] == states[..i];
        var q := states[i];
        if 0 <= q < |rev| {
          var inEdges := rev[q];
          ghost var seen0 := seen;
          assert inEdges[..0] == [];
          for j := 0 to |inEdges|
            invariant seen == Elems(preds) && NoDup(preds) && seen == seen0 + SymTargets(inEdges[..j], sym)
          {
            SymTargetsSnoc(inEdges[..j], inEdges[j], sym);
            assert inEdges[..j + 1] == inEdges[..j] + [inEdges[j]];
            if inEdges[j].sym == sym && inEdges[j].to !in seen {
              seen := seen + {inEdges[j].to};
              ElemsSnoc(preds, inEdges[j].to);
              NoDupAppend(preds, [inEdges[j].to]);
              preds := preds + [inEdges[j].to];
            }
          }
          assert inEdges[..|inEdges|] == inEdges;
        }
      }
      assert states[..|states|] == states;
    }
  }

  lemma RevStep(st: seq<DfaState>, reach: seq<bool>, rev0: seq<seq<Trans>>, rev: seq<seq<Trans>>, from: int, e: int)
    requires |reach| == |st| && |rev0| == |st| && 0 <= from < |st| && reach[from] && 0 <= e < |st[from].edges|
    requires forall to, t :: 0 <= to < |st| ==> (t in rev0[to] <==> RevBefore(st, reach, to, t, from, e))
    requires var t := st[from].edges[e];
             rev == if 0 <= t.to < |st| && reach[t.to] then rev0[t.to := rev0[t.to] + [Trans(t.sym, from)]] else rev0
    ensures |rev| == |st|
    ensures forall to, t :: 0 <= to < |st| ==> (t in rev[to] <==> RevBefore(st, reach, to, t, from, e + 1))
  {
    var edges := st[from].edges;
    assert edges[..e + 1] == edges[..e] + [edges[e]];
  }

  lemma RevNext(st: seq<DfaState>, reach: seq<bool>, rev: seq<seq<Trans>>, from: int)
    requires |reach| == |st| && |rev| == |st| && 0 <= from < |st|
    requires reach[from] ==> forall to, t :: 0 <= to < |st| ==>
               (t in rev[to] <==> RevBefore(st, reach, to, t, from, |st[from].edges|))
    requires !reach[from] ==> forall to, t :: 0 <= to < |st| ==> (t in rev[to] <==> RevBefore(st, reach, to, t, from, 0))
    ensures forall to, t :: 0 <= to < |st| ==> (t in rev[to] <==> RevBefore(st, reach, to, t, from + 1, 0))
  {
    assert st[from].edges[..|st[from].edges|] == st[from].edges;
  }
}
