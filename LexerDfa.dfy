// The legacy lexer automaton, src/lexer/dfa.cpp. Its states, `add_edge`,
// `transition`, `dfs`, `collect_alphabet` and the partition are textually
// those of the current revision and are shared with module FrontDfa; what
// differs is `find_predecessors`, which scans the forward edges of every
// state instead of a reverse graph, and the `minimalize` that calls it.
module LexerDfa {
  import opened Common
  import opened FrontDfa
  import opened DfaMinimize

  /**
   * `find_predecessors` of the legacy revision: every state, reachable or
   * not, that has a `sym`-edge into the group, in ascending order and once
   * each (the scan of a state stops at its first such edge).
   */
  method FindPredecessors(dfa: Dfa, group: Group, sym: int) returns (preds: seq<int>)
    ensures StrictlySorted(preds)
    ensures forall x :: x in preds <==> 0 <= x < |dfa.st| && EdgeInto(dfa.st[x].edges, sym, Elems(group.states))
  {
    var inGroup := Elems(group.states);
    preds := [];
    for i := 0 to |dfa.st|
      invariant StrictlySorted(preds) && forall k :: 0 <= k < |preds| ==> preds[k] < i
      invariant forall x :: x in preds <==> 0 <= x < i && EdgeInto(dfa.st[x].edges, sym, inGroup)
    {
      var edges := dfa.st[i].edges;
      var j := 0;
      while j < |edges|
        invariant 0 <= j <= |edges|
        invariant forall e :: 0 <= e < j ==> !(edges[e].sym == sym && edges[e].to in inGroup)
      {
        if edges[j].sym == sym && edges[j].to in inGroup {
          preds := preds + [i];
          break;
        }
        j := j + 1;
      }
    }
  }

  /** On reachable states the forward scan finds exactly the a-predecessors of group i. */
  lemma ScanIsPre(st: seq<DfaState>, reach: seq<bool>, groups: seq<Group>, m: seq<int>, i: int, a: int, x: seq<int>)
    requires Refinable(groups, m, st, reach) && 0 <= i < |groups|
    requires forall y :: y in x <==> 0 <= y < |st| && EdgeInto(st[y].edges, a, Elems(groups[i].states))
    ensures forall y :: 0 <= y < |st| && reach[y] ==> (y in Elems(x) <==> y in Pre(st, reach, a, Class(m, i)))
  {
    assert Elems(groups[i].states) == Class(m, i) by {
      forall s | s in groups[i].states ensures s in Class(m, i) {
      }
    }
  }

  /** One round of the outer loop of the legacy `minimalize`, splitting by the forward scan. */
  method RefineBy(dfa: Dfa, p: Partition, i: int, workList0: seq<int>, alphabet: set<int>,
                  ghost reach: seq<bool>, ghost span0: map<int, seq<set<int>>>)
    returns (workList: seq<int>, ghost span: map<int, seq<set<int>>>)
    requires AllDeterministic(dfa.st)
    requires Refinable(p.groups, p.stateToGroup, dfa.st, reach) && Counting(workList0, |p.groups|)
    requires 0 <= i < |p.groups| && Spans(dfa.st, reach, p.stateToGroup, span0, alphabet, i, {})
    modifies p
    ensures Refinable(p.groups, p.stateToGroup, dfa.st, reach) && Counting(workList, |p.groups|)
    ensures i < |p.groups| && Spans(dfa.st, reach, p.stateToGroup, span, alphabet, i + 1, {})
  {
    workList, span := workList0, span0;
    var syms := alphabet;
    ghost var done: set<int> := {};
    while syms != {}
      invariant syms <= alphabet && done == alphabet - syms
      invariant Refinable(p.groups, p.stateToGroup, dfa.st, reach) && Counting(workList, |p.groups|)
      invariant i < |p.groups| && Spans(dfa.st, reach, p.stateToGroup, span, alphabet, i, done)
      decreases syms
    {
      ghost var some := Pick(syms);
      var sym :| sym in syms;
      syms := syms - {sym};
      ghost var m0 := p.stateToGroup;
      var x := FindPredecessors(dfa, p.groups[workList[i]], sym);
      ScanIsPre(dfa.st, reach, p.groups, m0, i, sym, x);
      if x != [] {
        workList := SplitAll(dfa.st, reach, p, x, workList);
        RespectsOnReach(p.stateToGroup, reach, Elems(x), Pre(dfa.st, reach, sym, Class(m0, i)));
      } else {
        RespectsOnReach(p.stateToGroup, reach, {}, Pre(dfa.st, reach, sym, Class(m0, i)));
      }
      SpansHandle(dfa.st, reach, m0, p.stateToGroup, span, alphabet, i, done, sym);
      span := span[sym := Carve(span[sym], Class(m0, i))];
      done := done + {sym};
    }
  }

  /** The outer loop of the legacy `minimalize`; it too ends with a stable partition. */
  method Refine(dfa: Dfa, p: Partition, workList0: seq<int>, alphabet: set<int>, ghost reach: seq<bool>)
    requires |reach| == |dfa.st| && AllDeterministic(dfa.st) && alphabet == AllLabels(dfa.st)
    requires Refinable(p.groups, p.stateToGroup, dfa.st, reach) && Counting(workList0, |p.groups|)
    modifies p
    ensures Refinable(p.groups, p.stateToGroup, dfa.st, reach)
    ensures Stable(dfa.st, reach, p.stateToGroup, |p.groups|)
  {
    var workList := workList0;
    ghost var span: map<int, seq<set<int>>> := map a | a in alphabet :: [];
    SpansInit(dfa.st, reach, p.stateToGroup, alphabet);
    var i := 0;
    while i < |workList|
      invariant Refinable(p.groups, p.stateToGroup, dfa.st, reach) && Counting(workList, |p.groups|)
      invariant 0 <= i <= |workList| && Spans(dfa.st, reach, p.stateToGroup, span, alphabet, i, {})
      decreases |dfa.st| - i
    {
      GroupBound(p.groups, p.stateToGroup);
      workList, span := RefineBy(dfa, p, i, workList, alphabet, reach, span);
      i := i + 1;
    }
    SpansEnd(dfa.st, reach, p.groups, p.stateToGroup, span, alphabet);
  }

  /**
   * The legacy `minimalize`: the same promise as the current revision's,
   * the quotient of the old automaton by a grouping of its reachable
   * states, with the start state's group as start.
   */
  method Minimalize(dfa: Dfa)
    requires dfa.WellFormed() && AllDeterministic(dfa.st) && 0 <= dfa.start < |dfa.st|
    modifies dfa
    ensures exists m :: QuotientOf(old(dfa.st), ReachVector(old(dfa.st), old(dfa.start)), m, dfa.st) &&
                        dfa.start == m[old(dfa.start)]
  {
    var n := |dfa.st|;
    var p := new Partition(n);
    var reachable := new bool[n](_ => false);
    assert Marked(reachable) == {};
    dfa.Dfs(dfa.start, reachable);
    var reach := reachable[..];
    DfsResult(dfa.st, dfa.start, Marked(reachable), reach);
    var alphabet := dfa.CollectAlphabet();
    var workList := InitialPartition(dfa.st, reach, p);
    Refine(dfa, p, workList, alphabet, reach);
    assert reach[dfa.start];
    Rebuild(dfa, p, reach);
  }
}
