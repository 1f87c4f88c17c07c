// `DFA::minimalize`, in the templated automaton and in its older copy:
// drop the unreachable states, split the rest into groups by accept data,
// refine the groups against the predecessors of every group under every
// symbol, and rebuild one state per group.
//
// The refinement is proved to end with a stable partition: for every
// symbol a and every pair of groups G, H, either every state of G or no
// state of G has an a-edge into H. Together with determinism that makes
// the map from a state to its group a homomorphism onto the rebuilt
// automaton: accept data and edges correspond exactly.
module DfaMinimize {
  import opened Common
  import opened FrontNfa
  import opened FrontDfa

  // ---------------------------------------------------------------------
  // What a group of the initial partition shares
  // ---------------------------------------------------------------------

  /** The token a state's group carries: -1 for every non-accepting state. */
  function ClassToken(d: DfaState): int { if d.token < 0 then -1 else d.token }

  /** The priority a state's group carries: -1 for every non-accepting state. */
  function ClassPriority(d: DfaState): int { if d.token < 0 then -1 else d.priority }

  /** Every state of a group has the group's accept data. */
  ghost predicate Agree(groups: seq<Group>, st: seq<DfaState>)
  {
    forall g, s {:trigger s in groups[g].states} :: 0 <= g < |groups| && s in groups[g].states ==>
      0 <= s < |st| && groups[g].token == ClassToken(st[s]) && groups[g].priority == ClassPriority(st[s])
  }

  /** Exactly the reachable states are grouped. */
  ghost predicate Covers(m: seq<int>, reach: seq<bool>)
  {
    |m| == |reach| && forall s :: 0 <= s < |m| ==> (m[s] != -1 <==> reach[s])
  }

  /** The invariant of the refinement: a consistent partition of the reachable states by accept data. */
  ghost predicate Refinable(groups: seq<Group>, m: seq<int>, st: seq<DfaState>, reach: seq<bool>)
  {
    |m| == |st| && Consistent(groups, m) && NonEmpty(groups) && Covers(m, reach) && Agree(groups, st)
  }

  /** The work list holds the group ids 0 .. n - 1 in order: every group is pushed as it is made. */
  predicate Counting(workList: seq<int>, n: int)
  {
    |workList| == n && forall k :: 0 <= k < n ==> workList[k] == k
  }

  // ---------------------------------------------------------------------
  // Classes, refinement and stability, in terms of `state_to_group`
  // ---------------------------------------------------------------------

  /** The states in group g. */
  ghost function Class(m: seq<int>, g: int): set<int>
  {
    set x | 0 <= x < |m| && m[x] == g
  }

  /** Two grouped states share a group in `m` only if they shared one in `m0`. */
  ghost predicate Finer(m: seq<int>, m0: seq<int>)
  {
    |m| == |m0| &&
    forall x, y :: 0 <= x < |m| && 0 <= y < |m| && m[x] != -1 && m[x] == m[y] ==> m0[x] == m0[y]
  }

  /** A state in one of the first n groups of `m` was in that same group in `m0`. */
  ghost predicate Descends(m: seq<int>, m0: seq<int>, n: int)
  {
    |m| == |m0| && forall x :: 0 <= x < |m| && 0 <= m[x] < n ==> m0[x] == m[x]
  }

  /** No group of `m` is cut by `p`: its states lie all inside or all outside. */
  ghost predicate Respects(m: seq<int>, p: set<int>)
  {
    forall x, y :: 0 <= x < |m| && 0 <= y < |m| && m[x] != -1 && m[x] == m[y] ==> (x in p <==> y in p)
  }

  /** Some edge of `edges` is labelled a and leads into `target`. */
  ghost predicate EdgeInto(edges: seq<Trans>, a: int, target: set<int>)
  {
    exists e :: 0 <= e < |edges| && edges[e].sym == a && edges[e].to in target
  }

  /** The reachable states with an a-edge into `target`. */
  ghost function Pre(st: seq<DfaState>, reach: seq<bool>, a: int, target: set<int>): set<int>
    requires |reach| == |st|
  {
    set x | 0 <= x < |st| && reach[x] && EdgeInto(st[x].edges, a, target)
  }

  /** Every state has at most one edge per symbol (what `add_edge` maintains). */
  ghost predicate AllDeterministic(st: seq<DfaState>)
  {
    forall s :: 0 <= s < |st| ==> Deterministic(st[s].edges)
  }

  lemma FinerTrans(m2: seq<int>, m1: seq<int>, m0: seq<int>, r: seq<bool>)
    requires Finer(m2, m1) && Finer(m1, m0) && Covers(m2, r) && Covers(m1, r)
    ensures Finer(m2, m0)
  {
  }

  lemma DescendsTrans(m2: seq<int>, m1: seq<int>, m0: seq<int>, n1: int, n0: int)
    requires Descends(m2, m1, n1) && Descends(m1, m0, n0) && n0 <= n1
    ensures Descends(m2, m0, n0)
  {
  }

  /** Stability survives refinement. */
  lemma RespectsFiner(m: seq<int>, m0: seq<int>, p: set<int>)
    requires Finer(m, m0) && Respects(m0, p)
    requires forall x :: 0 <= x < |m| && m[x] != -1 ==> m0[x] != -1
    ensures Respects(m, p)
  {
  }

  /**
   * In a deterministic automaton the states with an a-edge into S - T are
   * those with one into S and none into T, so stability under S and T
   * gives stability under S - T.
   */
  lemma PreDifference(st: seq<DfaState>, reach: seq<bool>, a: int, s: set<int>, t: set<int>)
    requires |reach| == |st| && AllDeterministic(st)
    ensures Pre(st, reach, a, s - t) == Pre(st, reach, a, s) - Pre(st, reach, a, t)
  {
    forall x | x in Pre(st, reach, a, s) - Pre(st, reach, a, t) ensures x in Pre(st, reach, a, s - t) {
      var e :| 0 <= e < |st[x].edges| && st[x].edges[e].sym == a && st[x].edges[e].to in s;
      assert st[x].edges[e].to in s - t;
    }
    forall x | x in Pre(st, reach, a, s - t) ensures x !in Pre(st, reach, a, t) {
      var e :| 0 <= e < |st[x].edges| && st[x].edges[e].sym == a && st[x].edges[e].to in s - t;
      assert forall f :: 0 <= f < |st[x].edges| && st[x].edges[f].sym == a ==> f == e;
    }
  }

  lemma RespectsDifference(m: seq<int>, p: set<int>, q: set<int>)
    requires Respects(m, p) && Respects(m, q)
    ensures Respects(m, p - q)
  {
  }

  // ---------------------------------------------------------------------
  // The initial partition
  // ---------------------------------------------------------------------

  /** Appending an ungrouped state to a group keeps the partition consistent. */
  lemma AppendConsistent(groups: seq<Group>, m: seq<int>, gid: int, s: int)
    requires Consistent(groups, m) && 0 <= gid < |groups| && 0 <= s < |m| && m[s] == -1
    ensures Consistent(groups[gid := groups[gid].(states := groups[gid].states + [s])], m[s := gid])
  {
    var groups' := groups[gid := groups[gid].(states := groups[gid].states + [s])];
    var m' := m[s := gid];
    assert s !in groups[gid].states;
    forall g, x | 0 <= g < |groups'| && x in groups'[g].states ensures 0 <= x < |m'| && m'[x] == g {
      if x != s {
        assert x in groups[g].states;
      }
    }
    forall x | 0 <= x < |m'| && m'[x] != -1 ensures 0 <= m'[x] < |groups'| && x in groups'[m'[x]].states {
      if x != s {
        assert x in groups[m[x]].states;
      }
    }
  }

  /** The reachable non-accepting states, in index order. */
  method UnacceptingStates(st: seq<DfaState>, reach: seq<bool>) returns (unaccept: seq<int>)
    requires |reach| == |st|
    ensures NoDup(unaccept) && forall s :: s in unaccept <==> 0 <= s < |st| && reach[s] && st[s].token < 0
  {
    unaccept := [];
    for i := 0 to |st|
      invariant NoDup(unaccept) && forall s :: s in unaccept <==> 0 <= s < i && reach[s] && st[s].token < 0
    {
      if reach[i] && st[i].token < 0 {
        NoDupAppend(unaccept, [i]);
        unaccept := unaccept + [i];
      }
    }
  }

  /**
   * The first two phases of `minimalize` after the reachability search:
   * the reachable non-accepting states form one group (when there are
   * any), tagged token -1 and priority -1, and the reachable accepting
   * states are grouped by (token, priority) in order of first appearance;
   * every group is pushed on the work list as it is made.
   */
  method InitialPartition(st: seq<DfaState>, reach: seq<bool>, p: Partition) returns (workList: seq<int>)
    requires |reach| == |st| && p.groups == [] && p.stateToGroup == seq(|st|, _ => -1)
    modifies p
    ensures Refinable(p.groups, p.stateToGroup, st, reach) && Counting(workList, |p.groups|)
  {
    var unaccept := UnacceptingStates(st, reach);
    workList := [];
    assert forall s :: 0 <= s < |p.stateToGroup| ==> p.stateToGroup[s] == -1;
    if unaccept != [] {
      AddGroupConsistent(p.groups, p.stateToGroup, unaccept, false, -1, -1);
      var gid := p.AddGroup(unaccept, false, -1, -1);
      workList := workList + [gid];
    }
    workList := GroupAccepting(st, reach, p, workList);
  }

  /** The state of the partition while the accepting states below i are being grouped. */
  ghost predicate GroupedBelow(groups: seq<Group>, m: seq<int>, st: seq<DfaState>, reach: seq<bool>, i: int)
  {
    && |m| == |st| && |reach| == |st| && Consistent(groups, m) && NonEmpty(groups) && Agree(groups, st)
    && forall s :: 0 <= s < |st| ==> (m[s] != -1 <==> reach[s] && (st[s].token < 0 || s < i))
  }

  /** The accept map sends each key seen so far to the group with that accept data. */
  ghost predicate KeysGrouped(acceptMap: map<(int, int), int>, groups: seq<Group>)
  {
    forall key :: key in acceptMap ==>
      0 <= acceptMap[key] < |groups| && groups[acceptMap[key]].token == key.0 && groups[acceptMap[key]].priority == key.1
  }

  /** The accepting half of the initial partition: one group per (token, priority), in order of first appearance. */
  method GroupAccepting(st: seq<DfaState>, reach: seq<bool>, p: Partition, workList0: seq<int>) returns (workList: seq<int>)
    requires GroupedBelow(p.groups, p.stateToGroup, st, reach, 0) && Counting(workList0, |p.groups|)
    modifies p
    ensures Refinable(p.groups, p.stateToGroup, st, reach) && Counting(workList, |p.groups|)
  {
    workList := workList0;
    var acceptMap: map<(int, int), int> := map[];
    for i := 0 to |st|
      invariant GroupedBelow(p.groups, p.stateToGroup, st, reach, i)
      invariant Counting(workList, |p.groups|) && KeysGrouped(acceptMap, p.groups)
    {
      if reach[i] && st[i].token >= 0 {
        var key := (st[i].token, st[i].priority);
        ghost var groups0, m0 := p.groups, p.stateToGroup;
        if key !in acceptMap {
          AddGroupConsistent(p.groups, p.stateToGroup, [i], true, key.0, key.1);
          var gid := p.AddGroup([i], true, key.0, key.1);
          acceptMap := acceptMap[key := gid];
          workList := workList + [gid];
          NewKeyGrouped(groups0, m0, st, reach, i, p.groups, p.stateToGroup);
        } else {
          var gid := acceptMap[key];
          AppendConsistent(p.groups, p.stateToGroup, gid, i);
          p.groups := p.groups[gid := p.groups[gid].(states := p.groups[gid].states + [i])];
          p.stateToGroup := p.stateToGroup[i := gid];
          OldKeyGrouped(groups0, m0, st, reach, i, gid, p.groups, p.stateToGroup);
        }
      }
    }
  }

  lemma NewKeyGrouped(groups0: seq<Group>, m0: seq<int>, st: seq<DfaState>, reach: seq<bool>, i: int,
                      groups: seq<Group>, m: seq<int>)
    requires GroupedBelow(groups0, m0, st, reach, i) && 0 <= i < |st| && reach[i] && st[i].token >= 0
    requires Consistent(groups, m)
    requires groups == groups0 + [Group([i], true, st[i].token, st[i].priority, true)]
    requires m == Assign(m0, [i], |groups0|)
    ensures GroupedBelow(groups, m, st, reach, i + 1)
  {
    forall g, s | 0 <= g < |groups| && s in groups[g].states
      ensures 0 <= s < |st| && groups[g].token == ClassToken(st[s]) && groups[g].priority == ClassPriority(st[s])
    {
      if g < |groups0| {
        assert groups[g] == groups0[g];
      }
    }
  }

  lemma OldKeyGrouped(groups0: seq<Group>, m0: seq<int>, st: seq<DfaState>, reach: seq<bool>, i: int, gid: int,
                      groups: seq<Group>, m: seq<int>)
    requires GroupedBelow(groups0, m0, st, reach, i) && 0 <= i < |st| && reach[i] && st[i].token >= 0
    requires 0 <= gid < |groups0| && groups0[gid].token == st[i].token && groups0[gid].priority == st[i].priority
    requires Consistent(groups, m)
    requires groups == groups0[gid := groups0[gid].(states := groups0[gid].states + [i])]
    requires m == m0[i := gid]
    ensures GroupedBelow(groups, m, st, reach, i + 1)
  {
    forall g, s | 0 <= g < |groups| && s in groups[g].states
      ensures 0 <= s < |st| && groups[g].token == ClassToken(st[s]) && groups[g].priority == ClassPriority(st[s])
    {
      if g != gid || s != i {
        assert s in groups0[g].states;
      }
    }
  }

  // ---------------------------------------------------------------------
  // Splitting every group by one predecessor set
  // ---------------------------------------------------------------------

  /** The first k groups of `m` are not cut by `p`. */
  ghost predicate RespectsBelow(m: seq<int>, p: set<int>, k: int)
  {
    forall x, y :: 0 <= x < |m| && 0 <= y < |m| && 0 <= m[x] < k && m[x] == m[y] ==> (x in p <==> y in p)
  }

  /**
   * What one `split(k, x)` does to the partition invariant: the groups
   * stay a partition of the reachable states by accept data, only group k
   * changes (keeping its id for the states in x), and afterwards x does
   * not cut group k.
   */
  lemma SplitStep(st: seq<DfaState>, reach: seq<bool>, g0: seq<Group>, m0: seq<int>, g1: seq<Group>, m1: seq<int>,
                  k: int, newGid: int, x: seq<int>)
    requires Refinable(g0, m0, st, reach) && 0 <= k < |g0|
    requires Consistent(g1, m1) && NonEmpty(g1) && |m1| == |m0|
    requires newGid == -1 <==>
               !g0[k].valid || Elems(g0[k].states) <= Elems(x) || Elems(g0[k].states) * Elems(x) == {}
    requires newGid == -1 ==>
               && m1 == m0 && |g1| == |g0| && g1 == g0[k := g0[k].(states := g1[k].states)]
               && multiset(g1[k].states) == multiset(g0[k].states)
    requires newGid != -1 ==>
               && newGid == |g0| && |g1| == newGid + 1
               && g1 == g0[k := g0[k].(states := g1[k].states)] + [g0[k].(states := g1[newGid].states)]
               && Elems(g1[k].states) == Elems(g0[k].states) * Elems(x)
               && Elems(g1[newGid].states) == Elems(g0[k].states) - Elems(x)
               && m1 == Assign(Assign(m0, g1[k].states, k), g1[newGid].states, newGid)
    ensures Refinable(g1, m1, st, reach) && |g1| >= |g0|
    ensures Finer(m1, m0) && Descends(m1, m0, |g0|)
    ensures forall y :: 0 <= y < |m0| && m0[y] != k ==> m1[y] == m0[y]
    ensures forall y, z :: 0 <= y < |m1| && 0 <= z < |m1| && m1[y] == k && m1[z] == k ==> (y in x <==> z in x)
  {
    if newGid == -1 {
      MultisetElems(g0[k].states, g1[k].states);
      assert forall y :: y in g1[k].states <==> y in Elems(g0[k].states);
      assert g0[k].valid;
      forall y, z | 0 <= y < |m1| && 0 <= z < |m1| && m1[y] == k && m1[z] == k ensures y in x <==> z in x {
        assert y in g0[k].states && z in g0[k].states;
        assert y in Elems(g0[k].states) && z in Elems(g0[k].states);
        assert y in x <==> y in Elems(x);
        assert z in x <==> z in Elems(x);
        if !(Elems(g0[k].states) <= Elems(x)) {
          assert y !in Elems(g0[k].states) * Elems(x) && z !in Elems(g0[k].states) * Elems(x);
        }
      }
    } else {
      DivideStep(st, reach, g0, m0, g1, m1, k, newGid, x);
    }
  }

  lemma DivideStep(st: seq<DfaState>, reach: seq<bool>, g0: seq<Group>, m0: seq<int>, g1: seq<Group>, m1: seq<int>,
                   k: int, newGid: int, x: seq<int>)
    requires Refinable(g0, m0, st, reach) && 0 <= k < |g0|
    requires Consistent(g1, m1) && NonEmpty(g1) && |m1| == |m0|
    requires newGid == |g0| && |g1| == newGid + 1
    requires g1 == g0[k := g0[k].(states := g1[k].states)] + [g0[k].(states := g1[newGid].states)]
    requires Elems(g1[k].states) == Elems(g0[k].states) * Elems(x)
    requires Elems(g1[newGid].states) == Elems(g0[k].states) - Elems(x)
    requires m1 == Assign(Assign(m0, g1[k].states, k), g1[newGid].states, newGid)
    ensures Refinable(g1, m1, st, reach)
    ensures Finer(m1, m0) && Descends(m1, m0, |g0|)
    ensures forall y :: 0 <= y < |m0| && m0[y] != k ==> m1[y] == m0[y]
    ensures forall y, z :: 0 <= y < |m1| && 0 <= z < |m1| && m1[y] == k && m1[z] == k ==> (y in x <==> z in x)
  {
    assert forall g :: 0 <= g < |g0| && g != k ==> g1[g] == g0[g];
    assert forall y :: y in g1[k].states ==> y in Elems(g1[k].states);
    assert forall y :: y in g1[newGid].states ==> y in Elems(g1[newGid].states);
    assert forall y :: y in Elems(g0[k].states) ==> y in g0[k].states;
    assert forall y :: y in Elems(x) <==> y in x;
  }

  lemma BelowStep(m0: seq<int>, m1: seq<int>, p: set<int>, k: int, n: int)
    requires RespectsBelow(m0, p, k) && Descends(m1, m0, n) && k < n
    requires forall y, z :: 0 <= y < |m1| && 0 <= z < |m1| && m1[y] == k && m1[z] == k ==> (y in p <==> z in p)
    ensures RespectsBelow(m1, p, k + 1)
  {
  }

  /**
   * The inner loop of the refinement: `split(k, x)` on every valid group,
   * including those the loop itself appends, pushing every new group on
   * the work list. Afterwards no group is cut by x, and the partition only
   * got finer: groups that existed before keep their ids for the part of
   * their states they keep.
   */
  method SplitAll(ghost st: seq<DfaState>, ghost reach: seq<bool>, p: Partition, x: seq<int>, workList0: seq<int>)
    returns (workList: seq<int>)
    requires Refinable(p.groups, p.stateToGroup, st, reach) && Counting(workList0, |p.groups|)
    modifies p
    ensures Refinable(p.groups, p.stateToGroup, st, reach) && Counting(workList, |p.groups|)
    ensures |p.groups| >= |old(p.groups)|
    ensures Finer(p.stateToGroup, old(p.stateToGroup)) && Descends(p.stateToGroup, old(p.stateToGroup), |old(p.groups)|)
    ensures Respects(p.stateToGroup, Elems(x))
  {
    workList := workList0;
    var k := 0;
    while k < |p.groups|
      invariant Refinable(p.groups, p.stateToGroup, st, reach) && Counting(workList, |p.groups|)
      invariant 0 <= k <= |p.groups| && |p.groups| >= |old(p.groups)|
      invariant Finer(p.stateToGroup, old(p.stateToGroup))
      invariant Descends(p.stateToGroup, old(p.stateToGroup), |old(p.groups)|)
      invariant RespectsBelow(p.stateToGroup, Elems(x), k)
      decreases |st| - k
    {
      GroupBound(p.groups, p.stateToGroup);
      if p.groups[k].valid {
        ghost var g0, m0 := p.groups, p.stateToGroup;
        var newGid := p.Split(k, x);
        SplitStep(st, reach, g0, m0, p.groups, p.stateToGroup, k, newGid, x);
        BelowStep(m0, p.stateToGroup, Elems(x), k, |g0|);
        FinerTrans(p.stateToGroup, m0, old(p.stateToGroup), reach);
        DescendsTrans(p.stateToGroup, m0, old(p.stateToGroup), |g0|, |old(p.groups)|);
        if newGid >= 0 {
          workList := workList + [newGid];
        }
      }
      k := k + 1;
    }
  }

  // ---------------------------------------------------------------------
  // Stability of the refinement
  // ---------------------------------------------------------------------

  /**
   * What handling group j for symbol a has achieved, as the groups keep
   * splitting: sp[j] is a set of reachable states holding all of group j,
   * the sets for different groups are disjoint, and no group is cut by
   * the a-predecessors of any of them.
   */
  ghost predicate SpanFacts(st: seq<DfaState>, reach: seq<bool>, m: seq<int>, a: int, sp: seq<set<int>>)
    requires |reach| == |st|
  {
    && (forall j :: 0 <= j < |sp| ==> Class(m, j) <= sp[j])
    && (forall j :: 0 <= j < |sp| ==> sp[j] <= ReachSet(reach))
    && (forall j :: 0 <= j < |sp| ==> Respects(m, Pre(st, reach, a, sp[j])))
    && (forall j1, j2, x :: 0 <= j1 < |sp| && 0 <= j2 < |sp| && x in sp[j1] && x in sp[j2] ==> j1 == j2)
  }

  /**
   * The refinement loop's invariant at splitter i, once the symbols in
   * `done` have been handled for it: every symbol a of the alphabet has
   * facts for the groups handled for a so far, 0 .. i - 1 or 0 .. i.
   */
  ghost predicate Spans(st: seq<DfaState>, reach: seq<bool>, m: seq<int>, span: map<int, seq<set<int>>>,
                        alphabet: set<int>, i: int, done: set<int>)
    requires |reach| == |st|
  {
    forall a :: a in alphabet ==>
      a in span && |span[a]| == (if a in done then i + 1 else i) && SpanFacts(st, reach, m, a, span[a])
  }

  /** The reachable states. */
  ghost function ReachSet(reach: seq<bool>): set<int>
  {
    set x | 0 <= x < |reach| && reach[x]
  }

  /** The partition is stable: no group is cut by the a-predecessors of any group, for any symbol a. */
  ghost predicate Stable(st: seq<DfaState>, reach: seq<bool>, m: seq<int>, n: int)
    requires |reach| == |st|
  {
    forall a, j :: 0 <= j < n ==> Respects(m, Pre(st, reach, a, Class(m, j)))
  }

  /** The facts after handling splitter group i for symbol a: group i's own set is its class, carved out of the others. */
  ghost function Carve(sp: seq<set<int>>, c: set<int>): seq<set<int>>
  {
    seq(|sp|, j requires 0 <= j < |sp| => sp[j] - c) + [c]
  }

  lemma SpansInit(st: seq<DfaState>, reach: seq<bool>, m: seq<int>, alphabet: set<int>)
    requires |reach| == |st|
    ensures Spans(st, reach, m, map a | a in alphabet :: [], alphabet, 0, {})
  {
  }

  /** The facts survive a refinement that keeps the ids of the groups they are about. */
  lemma SpanRefine(st: seq<DfaState>, reach: seq<bool>, m0: seq<int>, m1: seq<int>, a: int, sp: seq<set<int>>)
    requires |reach| == |st| && SpanFacts(st, reach, m0, a, sp)
    requires Covers(m0, reach) && Covers(m1, reach) && Finer(m1, m0) && Descends(m1, m0, |sp|)
    ensures SpanFacts(st, reach, m1, a, sp)
  {
    forall j | 0 <= j < |sp| ensures Class(m1, j) <= sp[j] && Respects(m1, Pre(st, reach, a, sp[j])) {
      assert Class(m1, j) <= Class(m0, j);
      RespectsFiner(m1, m0, Pre(st, reach, a, sp[j]));
    }
  }

  /**
   * Handling splitter i for symbol a: once no group is cut by the
   * a-predecessors of A, group i's class when the symbol came up, A
   * becomes group i's set and is carved out of the earlier sets, which
   * stay stable because a-predecessors of a difference are the difference
   * of a-predecessors in a deterministic automaton.
   */
  lemma SpanHandle(st: seq<DfaState>, reach: seq<bool>, m0: seq<int>, m1: seq<int>, a: int, sp: seq<set<int>>,
                   i: int, c: set<int>)
    requires |reach| == |st| && AllDeterministic(st) && SpanFacts(st, reach, m0, a, sp) && |sp| == i
    requires Covers(m0, reach) && Covers(m1, reach) && Finer(m1, m0) && Descends(m1, m0, i + 1)
    requires c == Class(m0, i) && Respects(m1, Pre(st, reach, a, c))
    ensures SpanFacts(st, reach, m1, a, Carve(sp, c))
  {
    var sp' := Carve(sp, c);
    forall j | 0 <= j < |sp'| ensures Class(m1, j) <= sp'[j] && Respects(m1, Pre(st, reach, a, sp'[j])) {
      assert Class(m1, j) <= Class(m0, j);
      if j < i {
        assert sp'[j] == sp[j] - c;
        RespectsFiner(m1, m0, Pre(st, reach, a, sp[j]));
        PreDifference(st, reach, a, sp[j], c);
        RespectsDifference(m1, Pre(st, reach, a, sp[j]), Pre(st, reach, a, c));
      }
    }
    forall j1, j2, x | 0 <= j1 < |sp'| && 0 <= j2 < |sp'| && x in sp'[j1] && x in sp'[j2] ensures j1 == j2 {
      assert j1 < i ==> x in sp[j1] && x !in c;
      assert j2 < i ==> x in sp[j2] && x !in c;
    }
  }

  /** Handling symbol a for splitter i, for the whole map of facts. */
  lemma SpansHandle(st: seq<DfaState>, reach: seq<bool>, m0: seq<int>, m1: seq<int>, span: map<int, seq<set<int>>>,
                    alphabet: set<int>, i: int, done: set<int>, a: int)
    requires |reach| == |st| && AllDeterministic(st) && Spans(st, reach, m0, span, alphabet, i, done)
    requires a in alphabet && a !in done
    requires Covers(m0, reach) && Covers(m1, reach) && Finer(m1, m0) && Descends(m1, m0, i + 1)
    requires Respects(m1, Pre(st, reach, a, Class(m0, i)))
    ensures Spans(st, reach, m1, span[a := Carve(span[a], Class(m0, i))], alphabet, i, done + {a})
  {
    forall b | b in alphabet
      ensures SpanFacts(st, reach, m1, b, span[a := Carve(span[a], Class(m0, i))][b])
    {
      if b == a {
        SpanHandle(st, reach, m0, m1, a, span[a], i, Class(m0, i));
      } else {
        SpanRefine(st, reach, m0, m1, b, span[b]);
      }
    }
  }

  /** At the end every group has been handled for every symbol, so each group's set is its class: the partition is stable. */
  lemma SpansEnd(st: seq<DfaState>, reach: seq<bool>, groups: seq<Group>, m: seq<int>, span: map<int, seq<set<int>>>,
                 alphabet: set<int>)
    requires |reach| == |st| && Refinable(groups, m, st, reach) && alphabet == AllLabels(st)
    requires Spans(st, reach, m, span, alphabet, |groups|, {})
    ensures Stable(st, reach, m, |groups|)
  {
    forall a, j | 0 <= j < |groups| ensures Respects(m, Pre(st, reach, a, Class(m, j))) {
      if a in alphabet {
        var sp := span[a];
        assert sp[j] == Class(m, j) by {
          forall x | x in sp[j] ensures x in Class(m, j) {
            assert x in ReachSet(reach);
            assert m[x] != -1;
            var g := m[x];
            assert x in Class(m, g);
            assert 0 <= g < |sp| && x in sp[g];
          }
        }
      } else {
        forall x | x in Pre(st, reach, a, Class(m, j)) ensures false {
          var e :| 0 <= e < |st[x].edges| && st[x].edges[e].sym == a && st[x].edges[e].to in Class(m, j);
          AllLabelsSpec(st, a);
        }
        assert Pre(st, reach, a, Class(m, j)) == {};
      }
    }
  }

  /** `find_predecessors` over the reverse graph lists, among the reachable states, exactly the a-predecessors of the group. */
  lemma PredsArePre(st: seq<DfaState>, reach: seq<bool>, rev: seq<seq<Trans>>, groups: seq<Group>, m: seq<int>,
                    i: int, a: int, x: seq<int>)
    requires |reach| == |st| && |rev| == |st| && Refinable(groups, m, st, reach) && 0 <= i < |groups|
    requires forall to, t :: 0 <= to < |st| ==> (t in rev[to] <==> RevEdgeOf(st, reach, to, t))
    requires Elems(x) == PredsOf(rev, groups[i].states, a)
    ensures forall y :: 0 <= y < |st| && reach[y] ==> (y in Elems(x) <==> y in Pre(st, reach, a, Class(m, i)))
  {
    var states := groups[i].states;
    forall y | 0 <= y < |st| && reach[y] ensures y in Elems(x) <==> y in Pre(st, reach, a, Class(m, i)) {
      PredsMeaning(st, reach, rev, states, a, y);
      if y in Elems(x) {
        var k :| 0 <= k < |states| && 0 <= states[k] < |st| && RevEdgeOf(st, reach, states[k], Trans(a, y));
        var e :| 0 <= e < |st[y].edges| && st[y].edges[e] == Trans(a, states[k]);
        assert states[k] in groups[i].states;
        assert states[k] in Class(m, i);
      }
      if y in Pre(st, reach, a, Class(m, i)) {
        var e :| 0 <= e < |st[y].edges| && st[y].edges[e].sym == a && st[y].edges[e].to in Class(m, i);
        var q := st[y].edges[e].to;
        assert q in states;
        var k :| 0 <= k < |states| && states[k] == q;
        assert st[y].edges[e] in st[y].edges;
        assert RevEdgeOf(st, reach, states[k], Trans(a, y));
      }
    }
  }

  /** A set that agrees with `p` on the reachable states cuts no group that `p` does not. */
  lemma RespectsOnReach(m: seq<int>, reach: seq<bool>, p: set<int>, q: set<int>)
    requires Covers(m, reach) && Respects(m, p)
    requires forall y :: 0 <= y < |reach| && reach[y] ==> (y in p <==> y in q)
    ensures Respects(m, q)
  {
  }

  // ---------------------------------------------------------------------
  // The refinement loop
  // ---------------------------------------------------------------------

  /** The reverse graph of the reachable part, as `build_reverse_edges` returns it. */
  ghost predicate ReverseOf(st: seq<DfaState>, reach: seq<bool>, rev: seq<seq<Trans>>)
  {
    |reach| == |st| && |rev| == |st| && forall to, t :: 0 <= to < |st| ==> (t in rev[to] <==> RevEdgeOf(st, reach, to, t))
  }

  /**
   * One round of the outer loop: for each symbol of the alphabet, in the
   * set's unspecified order, split every group by the predecessors of the
   * splitter group i under that symbol (the splitter is read afresh each
   * time, as the source's reference into the group vector sees it shrink).
   */
  method RefineBy(dfa: Dfa, p: Partition, i: int, workList0: seq<int>, alphabet: set<int>, rev: seq<seq<Trans>>,
                  ghost reach: seq<bool>, ghost span0: map<int, seq<set<int>>>)
    returns (workList: seq<int>, ghost span: map<int, seq<set<int>>>)
    requires ReverseOf(dfa.st, reach, rev) && AllDeterministic(dfa.st)
    requires Refinable(p.groups, p.stateToGroup, dfa.st, reach) && Counting(workList0, |p.groups|)
    requires 0 <= i < |p.groups| && Spans(dfa.st, reach, p.stateToGroup, span0, alphabet, i, {})
    modifies p
    ensures Refinable(p.groups, p.stateToGroup, dfa.st, reach) && Counting(workList, |p.groups|)
    ensures i < |p.groups| && Spans(dfa.st, reach, p.stateToGroup, span, alphabet, i + 1, {})
  {
    workList, span := workList0, span0;
    var syms := alphabet;
    ghost var done: set<int> := {};
    while syms != {}
      invariant syms <= alphabet && done == alphabet - syms
      invariant Refinable(p.groups, p.stateToGroup, dfa.st, reach) && Counting(workList, |p.groups|)
      invariant i < |p.groups| && Spans(dfa.st, reach, p.stateToGroup, span, alphabet, i, done)
      decreases syms
    {
      ghost var some := Pick(syms);
      var sym :| sym in syms;
      syms := syms - {sym};
      ghost var m0 := p.stateToGroup;
      var x := dfa.FindPredecessors(p.groups[workList[i]], sym, rev);
      PredsArePre(dfa.st, reach, rev, p.groups, m0, i, sym, x);
      if x != [] {
        workList := SplitAll(dfa.st, reach, p, x, workList);
        RespectsOnReach(p.stateToGroup, reach, Elems(x), Pre(dfa.st, reach, sym, Class(m0, i)));
      } else {
        RespectsOnReach(p.stateToGroup, reach, {}, Pre(dfa.st, reach, sym, Class(m0, i)));
      }
      SpansHandle(dfa.st, reach, m0, p.stateToGroup, span, alphabet, i, done, sym);
      span := span[sym := Carve(span[sym], Class(m0, i))];
      done := done + {sym};
    }
  }

  /**
   * The outer loop: every group on the work list, including those pushed
   * while it runs, acts as splitter in turn. It ends with a stable
   * partition of the reachable states by accept data.
   */
  method Refine(dfa: Dfa, p: Partition, workList0: seq<int>, alphabet: set<int>, rev: seq<seq<Trans>>,
                ghost reach: seq<bool>)
    requires ReverseOf(dfa.st, reach, rev) && AllDeterministic(dfa.st) && alphabet == AllLabels(dfa.st)
    requires Refinable(p.groups, p.stateToGroup, dfa.st, reach) && Counting(workList0, |p.groups|)
    modifies p
    ensures Refinable(p.groups, p.stateToGroup, dfa.st, reach)
    ensures Stable(dfa.st, reach, p.stateToGroup, |p.groups|)
  {
    var workList := workList0;
    ghost var span: map<int, seq<set<int>>> := map a | a in alphabet :: [];
    SpansInit(dfa.st, reach, p.stateToGroup, alphabet);
    var i := 0;
    while i < |workList|
      invariant Refinable(p.groups, p.stateToGroup, dfa.st, reach) && Counting(workList, |p.groups|)
      invariant 0 <= i <= |workList| && Spans(dfa.st, reach, p.stateToGroup, span, alphabet, i, {})
      decreases |dfa.st| - i
    {
      GroupBound(p.groups, p.stateToGroup);
      workList, span := RefineBy(dfa, p, i, workList, alphabet, rev, reach, span);
      i := i + 1;
    }
    SpansEnd(dfa.st, reach, p.groups, p.stateToGroup, span, alphabet);
  }

  // ---------------------------------------------------------------------
  // Rebuilding one state per group
  // ---------------------------------------------------------------------

  /** Every edge of a reachable state leads to a reachable state. */
  ghost predicate ReachClosed(st: seq<DfaState>, reach: seq<bool>)
  {
    |reach| == |st| && DfaEdgesInRange(st) &&
    forall s, e :: 0 <= s < |st| && reach[s] && 0 <= e < |st[s].edges| ==> reach[st[s].edges[e].to]
  }

  /** Edge t of group g's state stands for every member's edge: each has a t.sym-edge into group t.to. */
  ghost predicate Lifted(st0: seq<DfaState>, m: seq<int>, g: int, t: Trans)
    requires |m| == |st0| && DfaEdgesInRange(st0)
  {
    forall s :: 0 <= s < |st0| && m[s] == g ==>
      HasSym(st0[s].edges, t.sym) && m[st0[s].edges[FirstEdge(st0[s].edges, t.sym)].to] == t.to
  }

  /** The rebuilt states so far: deterministic, in range, and every edge lifted from the members' edges. */
  ghost predicate EdgesLifted(st0: seq<DfaState>, m: seq<int>, st: seq<DfaState>)
    requires |m| == |st0| && DfaEdgesInRange(st0)
  {
    && AllDeterministic(st) && DfaEdgesInRange(st)
    && forall g, t :: 0 <= g < |st| && t in st[g].edges ==> Lifted(st0, m, g, t)
  }

  /**
   * `st` is the quotient of `st0` by the grouping m: m sends exactly the
   * reachable states onto the states of `st`, with the same accept data
   * (-1, -1 for the non-accepting ones), and a reachable state has an
   * a-edge exactly when its group's state has one, the two leading to a
   * state and its group.
   */
  ghost predicate QuotientOf(st0: seq<DfaState>, reach: seq<bool>, m: seq<int>, st: seq<DfaState>)
  {
    && |m| == |st0| && Covers(m, reach) && DfaEdgesInRange(st0)
    && AllDeterministic(st) && DfaEdgesInRange(st)
    && (forall s :: 0 <= s < |st0| && m[s] != -1 ==>
          && 0 <= m[s] < |st|
          && st[m[s]].token == ClassToken(st0[s]) && st[m[s]].priority == ClassPriority(st0[s]))
    && (forall g :: 0 <= g < |st| ==> Class(m, g) != {})
    && (forall s, a :: 0 <= s < |st0| && m[s] != -1 ==> (HasSym(st[m[s]].edges, a) <==> HasSym(st0[s].edges, a)))
    && (forall s, a :: 0 <= s < |st0| && m[s] != -1 && HasSym(st0[s].edges, a) ==>
          st[m[s]].edges[FirstEdge(st[m[s]].edges, a)].to == m[st0[s].edges[FirstEdge(st0[s].edges, a)].to])
  }

  /** In a deterministic edge list the edge labelled a is the first one labelled a. */
  lemma OnlyEdge(edges: seq<Trans>, e: int)
    requires Deterministic(edges) && 0 <= e < |edges|
    ensures FirstEdge(edges, edges[e].sym) == e
  {
  }

  /** In a stable partition, any edge between reachable states lifts to an edge between their groups. */
  lemma StableLift(st0: seq<DfaState>, reach: seq<bool>, groups: seq<Group>, m: seq<int>, i: int, e: int)
    requires Refinable(groups, m, st0, reach) && Stable(st0, reach, m, |groups|) && AllDeterministic(st0)
    requires ReachClosed(st0, reach) && 0 <= i < |st0| && reach[i] && 0 <= e < |st0[i].edges|
    ensures Lifted(st0, m, m[i], Trans(st0[i].edges[e].sym, m[st0[i].edges[e].to]))
  {
    var a := st0[i].edges[e].sym;
    var q := st0[i].edges[e].to;
    var h := m[q];
    assert 0 <= h < |groups|;
    assert q in Class(m, h);
    assert i in Pre(st0, reach, a, Class(m, h));
    forall s | 0 <= s < |st0| && m[s] == m[i]
      ensures HasSym(st0[s].edges, a) && m[st0[s].edges[FirstEdge(st0[s].edges, a)].to] == h
    {
      assert s in Pre(st0, reach, a, Class(m, h));
      var f :| 0 <= f < |st0[s].edges| && st0[s].edges[f].sym == a && st0[s].edges[f].to in Class(m, h);
      OnlyEdge(st0[s].edges, f);
    }
  }

  /** `add_edge` on a lifted edge keeps the rebuilt states lifted. */
  lemma AddLifted(st0: seq<DfaState>, m: seq<int>, st: seq<DfaState>, g: int, a: int, h: int)
    requires |m| == |st0| && DfaEdgesInRange(st0) && EdgesLifted(st0, m, st)
    requires 0 <= g < |st| && 0 <= h < |st| && Lifted(st0, m, g, Trans(a, h))
    ensures EdgesLifted(st0, m, st[g := st[g].(edges := WithEdge(st[g].edges, a, h))])
    ensures forall s, b :: 0 <= s < |st| && HasSym(st[s].edges, b) ==>
              HasSym(st[g := st[g].(edges := WithEdge(st[g].edges, a, h))][s].edges, b)
    ensures HasSym(WithEdge(st[g].edges, a, h), a)
  {
    WithEdgeSpec(st[g].edges, a, h);
    WithEdgeMembers(st[g].edges, a, h);
    var st' := st[g := st[g].(edges := WithEdge(st[g].edges, a, h))];
    forall s, e | 0 <= s < |st'| && 0 <= e < |st'[s].edges| ensures 0 <= st'[s].edges[e].to < |st'| {
      assert st'[s].edges[e] in st'[s].edges;
      if s != g {
        assert st'[s].edges[e] == st[s].edges[e];
      } else if st'[s].edges[e] != Trans(a, h) {
        assert st'[s].edges[e] in st[s].edges;
        var e' :| 0 <= e' < |st[s].edges| && st[s].edges[e'] == st'[s].edges[e];
      }
    }
  }

  /** The edges of one reachable state i, each lifted to its group: `add_edge(find(i), find(to), sym)`. */
  method LinkState(minDfa: Dfa, st0: seq<DfaState>, reach: seq<bool>, p: Partition, i: int)
    requires Refinable(p.groups, p.stateToGroup, st0, reach) && Stable(st0, reach, p.stateToGroup, |p.groups|)
    requires AllDeterministic(st0) && ReachClosed(st0, reach) && 0 <= i < |st0| && reach[i]
    requires |minDfa.st| == |p.groups| && EdgesLifted(st0, p.stateToGroup, minDfa.st)
    modifies minDfa`st
    ensures |minDfa.st| == |p.groups| && EdgesLifted(st0, p.stateToGroup, minDfa.st)
    ensures forall g :: 0 <= g < |p.groups| ==>
              minDfa.st[g].token == old(minDfa.st[g].token) && minDfa.st[g].priority == old(minDfa.st[g].priority)
    ensures forall s, b :: 0 <= s < |p.groups| && HasSym(old(minDfa.st[s].edges), b) ==> HasSym(minDfa.st[s].edges, b)
    ensures forall e :: 0 <= e < |st0[i].edges| ==> HasSym(minDfa.st[p.stateToGroup[i]].edges, st0[i].edges[e].sym)
  {
    ghost var m := p.stateToGroup;
    var fromGid := p.Find(i);
    var edges := st0[i].edges;
    for e := 0 to |edges|
      invariant |minDfa.st| == |p.groups| && EdgesLifted(st0, m, minDfa.st)
      invariant forall g :: 0 <= g < |p.groups| ==>
                  minDfa.st[g].token == old(minDfa.st[g].token) && minDfa.st[g].priority == old(minDfa.st[g].priority)
      invariant forall s, b :: 0 <= s < |p.groups| && HasSym(old(minDfa.st[s].edges), b) ==> HasSym(minDfa.st[s].edges, b)
      invariant forall e' :: 0 <= e' < e ==> HasSym(minDfa.st[fromGid].edges, edges[e'].sym)
    {
      var to := edges[e].to;
      if reach[to] {
        var toGid := p.Find(to);
        StableLift(st0, reach, p.groups, m, i, e);
        AddLifted(st0, m, minDfa.st, fromGid, edges[e].sym, toGid);
        minDfa.AddEdge(fromGid, toGid, edges[e].sym);
      }
    }
  }

  /** With every reachable state linked, the rebuilt states form the quotient. */
  lemma QuotientEnd(st0: seq<DfaState>, reach: seq<bool>, groups: seq<Group>, m: seq<int>, st: seq<DfaState>)
    requires Refinable(groups, m, st0, reach) && ReachClosed(st0, reach)
    requires |st| == |groups| && EdgesLifted(st0, m, st)
    requires forall g :: 0 <= g < |groups| ==> st[g].token == groups[g].token && st[g].priority == groups[g].priority
    requires forall s, e :: 0 <= s < |st0| && reach[s] && 0 <= e < |st0[s].edges| ==> HasSym(st[m[s]].edges, st0[s].edges[e].sym)
    ensures QuotientOf(st0, reach, m, st)
  {
    forall s | 0 <= s < |st0| && m[s] != -1
      ensures 0 <= m[s] < |st| && st[m[s]].token == ClassToken(st0[s]) && st[m[s]].priority == ClassPriority(st0[s])
    {
      assert s in groups[m[s]].states;
    }
    forall g | 0 <= g < |st| ensures Class(m, g) != {} {
      assert groups[g].states[0] in groups[g].states;
      assert groups[g].states[0] in Class(m, g);
    }
    forall s, a | 0 <= s < |st0| && m[s] != -1 ensures HasSym(st[m[s]].edges, a) <==> HasSym(st0[s].edges, a) {
      if HasSym(st[m[s]].edges, a) {
        var k := FirstEdge(st[m[s]].edges, a);
        assert st[m[s]].edges[k] in st[m[s]].edges;
      }
      if HasSym(st0[s].edges, a) {
        var e := FirstEdge(st0[s].edges, a);
        assert HasSym(st[m[s]].edges, st0[s].edges[e].sym);
      }
    }
    forall s, a | 0 <= s < |st0| && m[s] != -1 && HasSym(st0[s].edges, a)
      ensures st[m[s]].edges[FirstEdge(st[m[s]].edges, a)].to == m[st0[s].edges[FirstEdge(st0[s].edges, a)].to]
    {
      var e := FirstEdge(st0[s].edges, a);
      assert HasSym(st[m[s]].edges, st0[s].edges[e].sym);
      var k := FirstEdge(st[m[s]].edges, a);
      assert st[m[s]].edges[k] in st[m[s]].edges;
    }
  }

  /**
   * The last phase: one state per valid group (all of them are), with the
   * group's token and priority; the start state's group as start; every
   * edge between reachable states lifted to `add_edge(find(i), find(to),
   * sym)`; then the automaton is replaced by the new one.
   */
  method Rebuild(dfa: Dfa, p: Partition, reach: seq<bool>)
    requires Refinable(p.groups, p.stateToGroup, dfa.st, reach) && Stable(dfa.st, reach, p.stateToGroup, |p.groups|)
    requires AllDeterministic(dfa.st) && ReachClosed(dfa.st, reach) && 0 <= dfa.start < |dfa.st| && reach[dfa.start]
    modifies dfa
    ensures QuotientOf(old(dfa.st), reach, p.stateToGroup, dfa.st) && dfa.start == p.stateToGroup[old(dfa.start)]
  {
    var st0, start0 := dfa.st, dfa.start;
    ghost var groups, m := p.groups, p.stateToGroup;
    var minDfa := new Dfa();
    for k := 0 to |p.groups|
      invariant |minDfa.st| == k
      invariant forall g :: 0 <= g < k ==> minDfa.st[g] == DfaState([], groups[g].token, groups[g].priority)
    {
      if p.groups[k].valid {
        var id := minDfa.NewState();
        minDfa.st := minDfa.st[id := minDfa.st[id].(token := p.groups[k].token, priority := p.groups[k].priority)];
      }
    }
    minDfa.start := p.Find(start0);
    for i := 0 to |st0|
      invariant |minDfa.st| == |groups| && EdgesLifted(st0, m, minDfa.st) && minDfa.start == m[start0]
      invariant forall g :: 0 <= g < |groups| ==>
                  minDfa.st[g].token == groups[g].token && minDfa.st[g].priority == groups[g].priority
      invariant forall s, e :: 0 <= s < i && reach[s] && 0 <= e < |st0[s].edges| ==>
                  HasSym(minDfa.st[m[s]].edges, st0[s].edges[e].sym)
    {
      if reach[i] {
        LinkState(minDfa, st0, reach, p, i);
      }
    }
    QuotientEnd(st0, reach, groups, m, minDfa.st);
    dfa.st, dfa.start := minDfa.st, minDfa.start;
  }

  // ---------------------------------------------------------------------
  // minimalize
  // ---------------------------------------------------------------------

  /** Which states are reachable from u. */
  ghost function ReachVector(st: seq<DfaState>, u: int): seq<bool>
  {
    seq(|st|, s requires 0 <= s < |st| => Reachable(st, u, s))
  }

  /** After `dfs(u, reachable)` from an all-false vector, the marks are exactly the states reachable from u. */
  lemma DfsResult(st: seq<DfaState>, u: int, marked: set<int>, reach: seq<bool>)
    requires DfaEdgesInRange(st) && 0 <= u < |st| && u in marked && Grown(st, u, {}, marked)
    requires forall s :: s in marked ==> SuccMarked(st, s, marked)
    requires |reach| == |st| && forall s :: 0 <= s < |st| ==> (reach[s] <==> s in marked)
    ensures reach == ReachVector(st, u) && ReachClosed(st, reach)
  {
    assert Closed(st, marked);
    MarkedIsReachSet(st, u, marked);
  }

  /**
   * `minimalize`: afterwards the automaton is the quotient of the old one
   * by a grouping m of exactly its reachable states, and its start is the
   * start state's group. The old automaton must be deterministic (as
   * `add_edge` keeps it) and have the start state (`dfs(start_)` indexes
   * it).
   */
  method Minimalize(dfa: Dfa)
    requires dfa.WellFormed() && AllDeterministic(dfa.st) && 0 <= dfa.start < |dfa.st|
    modifies dfa
    ensures exists m :: QuotientOf(old(dfa.st), ReachVector(old(dfa.st), old(dfa.start)), m, dfa.st) &&
                        dfa.start == m[old(dfa.start)]
  {
    var n := |dfa.st|;
    var p := new Partition(n);
    var reachable := new bool[n](_ => false);
    assert Marked(reachable) == {};
    dfa.Dfs(dfa.start, reachable);
    var reach := reachable[..];
    DfsResult(dfa.st, dfa.start, Marked(reachable), reach);
    var rev := dfa.BuildReverseEdges(reach);
    var alphabet := dfa.CollectAlphabet();
    var workList := InitialPartition(dfa.st, reach, p);
    Refine(dfa, p, workList, alphabet, rev, reach);
    assert reach[dfa.start];
    Rebuild(dfa, p, reach);
  }
}
