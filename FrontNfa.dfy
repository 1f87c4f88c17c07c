// The lexer's nondeterministic automaton (the `front::NFA<Symbol>` template
// instantiated for `int` symbols): a vector of states, each holding its
// outgoing labelled edges and an optional accepted rule with its priority.
module FrontNfa {
  import opened Common

  /** Lexer symbols are character codes; two negative codes are reserved. */
  const EPS: int := -1
  const ANY: int := -2

  datatype Trans = Trans(sym: int, to: int)

  /** A state; `token` -1 means non-accepting, a lower `priority` wins. */
  datatype NfaState = NfaState(edges: seq<Trans>, token: int, priority: int)

  /** The state `new_state` appends. */
  const FreshState: NfaState := NfaState([], -1, INT_MAX)

  /** The states and start of one sub-automaton handed to `union_many`. */
  datatype Sub = Sub(states: seq<NfaState>, start: int)

  /** Every edge of every state points at an existing state. */
  predicate EdgesInRange(st: seq<NfaState>)
  {
    forall s, e :: 0 <= s < |st| && 0 <= e < |st[s].edges| ==> 0 <= st[s].edges[e].to < |st|
  }

  /** A state whose edge targets are all moved up by `base`. */
  function ShiftState(s: NfaState, base: int): (r: NfaState)
    ensures |r.edges| == |s.edges| && r.token == s.token && r.priority == s.priority
    ensures forall e :: 0 <= e < |s.edges| ==>
              r.edges[e] == Trans(s.edges[e].sym, s.edges[e].to + base)
  {
    s.(edges := seq(|s.edges|, e requires 0 <= e < |s.edges| => Trans(s.edges[e].sym, s.edges[e].to + base)))
  }

  function ShiftAll(states: seq<NfaState>, base: int): (r: seq<NfaState>)
    ensures |r| == |states| && forall i :: 0 <= i < |states| ==> r[i] == ShiftState(states[i], base)
  {
    seq(|states|, i requires 0 <= i < |states| => ShiftState(states[i], base))
  }

  /** `union_many` ignores a sub with no states or without a start. */
  predicate Skipped(sub: Sub) { |sub.states| == 0 || sub.start < 0 }

  /** One round of the `union_many` loop: append the sub shifted and link the start to it. */
  function UnionStep(acc: seq<NfaState>, sub: Sub): seq<NfaState>
    requires |acc| > 0
  {
    if Skipped(sub) then acc
    else
      var base := |acc|;
      var a := acc + ShiftAll(sub.states, base);
      a[0 := a[0].(edges := a[0].edges + [Trans(EPS, base + sub.start)])]
  }

  /** The states `union_many` produces from a non-empty list of subs. */
  function UnionOf(subs: seq<Sub>): (r: seq<NfaState>)
    ensures |r| > 0
  {
    if subs == [] then [FreshState]
    else UnionStep(UnionOf(subs[..|subs| - 1]), subs[|subs| - 1])
  }

  /** Where sub k starts in the union: one past the start state and every earlier kept sub. */
  function Base(subs: seq<Sub>, k: nat): nat
    requires k <= |subs|
  {
    if k == 0 then 1
    else Base(subs, k - 1) + (if Skipped(subs[k - 1]) then 0 else |subs[k - 1].states|)
  }

  /** The ε-edges out of the start state, one per kept sub, in list order. */
  function StartEdges(subs: seq<Sub>): seq<Trans>
  {
    if subs == [] then []
    else
      var k := |subs| - 1;
      StartEdges(subs[..k]) +
        (if Skipped(subs[k]) then [] else [Trans(EPS, Base(subs, k) + subs[k].start)])
  }

  lemma BasePrefix(subs: seq<Sub>, n: nat, k: nat)
    requires k <= n <= |subs|
    ensures Base(subs[..n], k) == Base(subs, k)
  {
    if k > 0 {
      BasePrefix(subs, n, k - 1);
      assert subs[..n][k - 1] == subs[k - 1];
    }
  }

  /** `union_many` produces one start state plus the states of every kept sub. */
  lemma {:induction false} UnionSize(subs: seq<Sub>)
    ensures |UnionOf(subs)| == Base(subs, |subs|)
  {
    if subs != [] {
      var n := |subs| - 1;
      UnionSize(subs[..n]);
      BasePrefix(subs, n, n);
    }
  }

  /** The start state of the union is fresh apart from one ε-edge per kept sub, in list order. */
  lemma {:induction false} UnionStart(subs: seq<Sub>)
    ensures UnionOf(subs)[0] == FreshState.(edges := StartEdges(subs))
  {
    if subs != [] {
      var n := |subs| - 1;
      UnionStart(subs[..n]);
      UnionSize(subs[..n]);
      BasePrefix(subs, n, n);
    }
  }

  /** State j of kept sub k lands at index Base(k) + j with its edge targets shifted by Base(k). */
  lemma {:induction false} UnionPlacement(subs: seq<Sub>, k: nat, j: nat)
    requires k < |subs| && !Skipped(subs[k]) && j < |subs[k].states|
    ensures Base(subs, k) + j < |UnionOf(subs)|
    ensures UnionOf(subs)[Base(subs, k) + j] == ShiftState(subs[k].states[j], Base(subs, k))
  {
    var n := |subs| - 1;
    var init := subs[..n];
    var acc := UnionOf(init);
    UnionSize(init);
    UnionSize(subs);
    BasePrefix(subs, n, n);
    BaseMonotone(subs, k + 1, |subs|);
    BaseMonotone(subs, 0, k);
    var idx := Base(subs, k) + j;
    if k < n {
      BasePrefix(subs, n, k);
      BaseMonotone(subs, k + 1, n);
      UnionPlacement(init, k, j);
      assert UnionOf(subs)[idx] == acc[idx];
    }
  }

  lemma BaseMonotone(subs: seq<Sub>, i: nat, j: nat)
    requires i <= j <= |subs|
    ensures Base(subs, i) <= Base(subs, j)
  {
    if i < j {
      BaseMonotone(subs, i, j - 1);
    }
  }

  /** The union of well-formed subs is well-formed: every edge still lands on a state. */
  lemma {:induction false} UnionInRange(subs: seq<Sub>)
    requires forall k :: 0 <= k < |subs| ==> EdgesInRange(subs[k].states)
    requires forall k :: 0 <= k < |subs| && !Skipped(subs[k]) ==> subs[k].start < |subs[k].states|
    ensures EdgesInRange(UnionOf(subs))
  {
    if subs != [] {
      var n := |subs| - 1;
      var init := subs[..n];
      UnionInRange(init);
      var acc := UnionOf(init);
      var sub := subs[n];
      if !Skipped(sub) {
        var base := |acc|;
        var a := acc + ShiftAll(sub.states, base);
        var r := a[0 := a[0].(edges := a[0].edges + [Trans(EPS, base + sub.start)])];
        assert UnionOf(subs) == r;
        forall s, e | 0 <= s < |r| && 0 <= e < |r[s].edges| ensures 0 <= r[s].edges[e].to < |r|
        {
          if s >= base {
            var t := sub.states[s - base];
            assert r[s] == ShiftState(t, base);
            assert 0 <= t.edges[e].to < |sub.states|;
          } else if s == 0 && e == |acc[0].edges| {
          } else {
            assert r[s].edges[e] == acc[s].edges[e];
          }
        }
      }
    }
  }

  /** The targets of the edges in `edges` labelled exactly `sym`. */
  function SymTargets(edges: seq<Trans>, sym: int): set<int>
  {
    if edges == [] then {}
    else
      var last := edges[|edges| - 1];
      SymTargets(edges[..|edges| - 1], sym) + (if last.sym == sym then {last.to} else {})
  }

  lemma SymTargetsSnoc(scanned: seq<Trans>, t: Trans, sym: int)
    ensures SymTargets(scanned + [t], sym) == SymTargets(scanned, sym) + (if t.sym == sym then {t.to} else {})
  {
    assert (scanned + [t])[..|scanned|] == scanned;
  }

  /** The states pushed in one pass are exactly the newly seen ones, each once. */
  ghost predicate AddedInv(seen: set<int>, seen': set<int>, added: seq<int>)
  {
    Elems(added) == seen' - seen && NoDup(added) && |seen'| == |seen| + |added|
  }

  /** The loop invariant of the pass over the edges of one state, after the edges `scanned`. */
  ghost predicate PushInv(n: nat, sym: int, seen: set<int>, scanned: seq<Trans>, seen': set<int>, added: seq<int>)
  {
    && seen' == seen + SymTargets(scanned, sym) && (seen <= IntRange(n) ==> seen' <= IntRange(n))
    && AddedInv(seen, seen', added)
  }

  lemma AddedStep(seen: set<int>, seen': set<int>, added: seq<int>, x: int)
    requires AddedInv(seen, seen', added) && seen <= seen' && x !in seen'
    ensures AddedInv(seen, seen' + {x}, added + [x])
  {
    ElemsSnoc(added, x);
    assert Elems([x]) == {x};
    NoDupAppend(added, [x]);
  }

  lemma PushAdd(n: nat, sym: int, seen: set<int>, scanned: seq<Trans>, seen': set<int>, added: seq<int>, t: Trans)
    requires PushInv(n, sym, seen, scanned, seen', added)
    requires t.sym == sym && t.to !in seen' && 0 <= t.to < n
    ensures PushInv(n, sym, seen, scanned + [t], seen' + {t.to}, added + [t.to])
  {
    SymTargetsSnoc(scanned, t, sym);
    AddedStep(seen, seen', added, t.to);
  }

  lemma PushSkip(n: nat, sym: int, seen: set<int>, scanned: seq<Trans>, seen': set<int>, added: seq<int>, t: Trans)
    requires PushInv(n, sym, seen, scanned, seen', added)
    requires !(t.sym == sym && t.to !in seen')
    ensures PushInv(n, sym, seen, scanned + [t], seen', added)
  {
    SymTargetsSnoc(scanned, t, sym);
  }

  /** Set bookkeeping of one stack pop: the states seen are those done plus those stacked. */
  lemma CoverStep(seen: set<int>, seen': set<int>, done: set<int>, s: int,
                  stacked: set<int>, rest: set<int>, added: set<int>, stacked': set<int>)
    requires seen == done + stacked && stacked == rest + {s} && seen <= seen'
    requires stacked' == rest + added && added == seen' - seen
    ensures seen' == (done + {s}) + stacked'
  {
  }

  /** The recorded states grow by exactly the newly seen ones. */
  lemma SeenStep(seen: set<int>, seen': set<int>, recorded: set<int>, added: set<int>, recorded': set<int>)
    requires seen == recorded && recorded' == recorded + added && added == seen' - seen && seen <= seen'
    ensures seen' == recorded'
  {
  }

  class Nfa {
    var st: seq<NfaState>
    var start: int

    /** An automaton with no states and start -1. */
    constructor ()
      ensures st == [] && start == -1
    {
      st := [];
      start := -1;
    }

    predicate WellFormed()
      reads this
    {
      EdgesInRange(st)
    }

    predicate InRange(states: seq<int>)
      reads this
    {
      forall i :: 0 <= i < |states| ==> 0 <= states[i] < |st|
    }

    method SetStart(s: int)
      modifies this
      ensures st == old(st) && start == s
    {
      start := s;
    }

    /** Appends a non-accepting state and returns its index, the old state count. */
    method NewState() returns (id: int)
      modifies this
      ensures st == old(st) + [FreshState] && start == old(start)
      ensures id == |old(st)| && 0 <= id < |st|
    {
      st := st + [FreshState];
      id := |st| - 1;
    }

    /** Appends one edge to state `from`; no other state changes. */
    method AddEdge(from: int, to: int, sym: int)
      requires 0 <= from < |st|
      modifies this
      ensures |st| == |old(st)| && start == old(start)
      ensures st[from] == old(st[from]).(edges := old(st[from]).edges + [Trans(sym, to)])
      ensures forall s :: 0 <= s < |st| && s != from ==> st[s] == old(st[s])
    {
      st := st[from := st[from].(edges := st[from].edges + [Trans(sym, to)])];
    }

    /** Marks `state` as accepting `token` only when `priority` beats the current one. */
    method SetAccept(state: int, token: int, priority: int)
      requires 0 <= state < |st|
      modifies this
      ensures |st| == |old(st)| && start == old(start)
      ensures st[state].edges == old(st[state]).edges
      ensures old(st[state]).priority > priority ==>
                st[state].token == token && st[state].priority == priority
      ensures old(st[state]).priority <= priority ==> st[state] == old(st[state])
      ensures st[state].priority <= old(st[state]).priority
      ensures forall s :: 0 <= s < |st| && s != state ==> st[s] == old(st[s])
    {
      if st[state].priority > priority {
        st := st[state := st[state].(token := token, priority := priority)];
      }
    }

    /** The targets of the ε-edges leaving `s`. */
    function EpsSucc(s: int): set<int>
      requires 0 <= s < |st|
      reads this
    {
      SymTargets(st[s].edges, EPS)
    }

    /** `c` holds every ε-successor of each of its states. */
    predicate EpsClosed(c: set<int>)
      reads this
    {
      forall s :: s in c && 0 <= s < |st| ==> EpsSucc(s) <= c
    }

    /**
     * The ε-closure of `states`, sorted: it contains every input state, is
     * closed under ε-edges and lies within every ε-closed superset of the
     * input, so it is the least such set.
     */
    method EpsilonClosure(states: seq<int>) returns (res: seq<int>)
      requires WellFormed() && InRange(states)
      ensures Sorted(res) && InRange(res)
      ensures Elems(states) <= Elems(res) && EpsClosed(Elems(res))
      ensures forall c: set<int> :: Elems(states) <= c && EpsClosed(c) ==> Elems(res) <= c
      ensures NoDup(states) ==> StrictlySorted(res)
    {
      var reached := EpsilonReach(states);
      ClosureSorted(states, reached);
      res := Sort(reached);
    }

    /** `seen` lies inside every ε-closed set that contains `states`. */
    ghost predicate WithinEveryClosure(states: seq<int>, seen: set<int>)
      reads this
    {
      forall c: set<int> :: Elems(states) <= c && EpsClosed(c) ==> seen <= c
    }

    lemma WithinEveryClosureStep(states: seq<int>, seen: set<int>, s: int)
      requires WithinEveryClosure(states, seen) && s in seen && 0 <= s < |st|
      ensures WithinEveryClosure(states, seen + EpsSucc(s))
    {
      forall c: set<int> | Elems(states) <= c && EpsClosed(c) ensures seen + EpsSucc(s) <= c {
        assert s in c;
      }
    }

    /** The stack loop of `epsilon_closure`, before the final sort. */
    method EpsilonReach(states: seq<int>) returns (res: seq<int>)
      requires WellFormed() && InRange(states)
      ensures Elems(res) <= IntRange(|st|)
      ensures Elems(states) <= Elems(res) && EpsClosed(Elems(res))
      ensures WithinEveryClosure(states, Elems(res))
      ensures NoDup(states) ==> NoDup(res)
    {
      var stack := states;
      var seen := Elems(states);
      res := states;
      ghost var done: set<int> := {};
      ReachStart(states);
      while stack != []
        invariant ReachInv(states, seen, res, stack, done)
        invariant WithinEveryClosure(states, seen)
        invariant NoDup(states) ==> NoDup(res)
        decreases |st| - |seen|, |stack|
      {
        var s := stack[|stack| - 1];
        ghost var oldStack, oldSeen, oldRes := stack, seen, res;
        stack := stack[..|stack| - 1];
        ReachPop(states, seen, res, oldStack, done);
        var added;
        seen, added := PushTargets(s, EPS, seen);
        res, stack := res + added, stack + added;
        ReachStep(states, oldSeen, seen, oldRes, res, oldStack, stack, done, added);
        WithinEveryClosureStep(states, oldSeen, s);
        if NoDup(states) {
          NoDupAppend(oldRes, added);
        }
        done := done + {s};
      }
      ReachEnd(states, seen, res, done);
    }

    /** The loop invariant of `epsilon_closure`'s stack loop. */
    ghost predicate ReachInv(states: seq<int>, seen: set<int>, res: seq<int>, stack: seq<int>, done: set<int>)
      reads this
    {
      && WellFormed()
      && seen == Elems(res) && seen <= IntRange(|st|) && |seen| <= |st|
      && Elems(states) <= seen && seen == done + Elems(stack)
      && (forall x :: x in done && 0 <= x < |st| ==> EpsSucc(x) <= seen)
    }

    lemma ReachStart(states: seq<int>)
      requires WellFormed() && InRange(states)
      ensures ReachInv(states, Elems(states), states, states, {})
    {
      var seen := Elems(states);
      assert seen <= IntRange(|st|) by {
        forall x | x in seen ensures 0 <= x < |st| {
          var i :| 0 <= i < |states| && states[i] == x;
        }
      }
      SubsetSize(seen, IntRange(|st|));
    }

    lemma ReachPop(states: seq<int>, seen: set<int>, res: seq<int>, stack: seq<int>, done: set<int>)
      requires ReachInv(states, seen, res, stack, done) && stack != []
      ensures 0 <= stack[|stack| - 1] < |st|
      ensures Elems(stack) == Elems(stack[..|stack| - 1]) + {stack[|stack| - 1]}
    {
      var rest, x := stack[..|stack| - 1], stack[|stack| - 1];
      PopElems(stack, rest, x);
      assert x in seen;
    }

    /** The elements of a non-empty stack: those below the top, and the top. */
    static lemma PopElems(stack: seq<int>, rest: seq<int>, x: int)
      requires stack != [] && rest == stack[..|stack| - 1] && x == stack[|stack| - 1]
      ensures Elems(stack) == Elems(rest) + {x} && x in Elems(stack)
    {
      assert stack == rest + [x];
      ElemsSnoc(rest, x);
    }

    lemma ReachStep(states: seq<int>, seen: set<int>, seen': set<int>, res: seq<int>, res': seq<int>,
                    stack: seq<int>, stack': seq<int>, done: set<int>, added: seq<int>)
      requires ReachInv(states, seen, res, stack, done)
      requires stack != [] && 0 <= stack[|stack| - 1] < |st|
      requires Elems(stack) == Elems(stack[..|stack| - 1]) + {stack[|stack| - 1]}
      requires seen' == seen + EpsSucc(stack[|stack| - 1]) && seen' <= IntRange(|st|)
      requires res' == res + added && stack' == stack[..|stack| - 1] + added
      requires Elems(added) == seen' - seen && NoDup(added) && |seen'| == |seen| + |added|
      ensures ReachInv(states, seen', res', stack', done + {stack[|stack| - 1]})
      ensures |seen'| > |seen| || |stack'| < |stack|
    {
      var s := stack[|stack| - 1];
      var rest := stack[..|stack| - 1];
      SubsetSize(seen', IntRange(|st|));
      ElemsAppend(res, added);
      ElemsAppend(rest, added);
      CoverStep(seen, seen', done, s, Elems(stack), Elems(rest), Elems(added), Elems(stack'));
      SeenStep(seen, seen', Elems(res), Elems(added), Elems(res'));
      DoneStep(seen, seen', done, s);
    }

    lemma DoneStep(seen: set<int>, seen': set<int>, done: set<int>, s: int)
      requires 0 <= s < |st| && seen <= seen' && EpsSucc(s) <= seen'
      requires forall x :: x in done && 0 <= x < |st| ==> EpsSucc(x) <= seen
      ensures forall x :: x in done + {s} && 0 <= x < |st| ==> EpsSucc(x) <= seen'
    {
    }

    lemma ReachEnd(states: seq<int>, seen: set<int>, res: seq<int>, done: set<int>)
      requires ReachInv(states, seen, res, [], done)
      ensures Elems(res) <= IntRange(|st|)
      ensures Elems(states) <= Elems(res) && EpsClosed(Elems(res))
    {
      assert Elems<int>([]) == {};
    }

    lemma ClosureSorted(states: seq<int>, res: seq<int>)
      requires Elems(res) <= IntRange(|st|)
      ensures Sorted(Sort(res)) && InRange(Sort(res)) && Elems(Sort(res)) == Elems(res)
      ensures NoDup(res) ==> StrictlySorted(Sort(res))
    {
      if NoDup(res) {
        SortStrict(res);
      }
      MultisetElems(res, Sort(res));
      var r := Sort(res);
      forall i | 0 <= i < |r| ensures 0 <= r[i] < |st| {
        assert r[i] in Elems(res);
      }
    }

    /**
     * One pass over the edges of `s`, as in `epsilon_closure` and `move`:
     * every target of a `sym`-edge not yet in `seen` is added to `seen` and
     * listed in `added`, once, in edge order.
     */
    method PushTargets(s: int, sym: int, seen: set<int>) returns (seen': set<int>, added: seq<int>)
      requires WellFormed() && 0 <= s < |st| && seen <= IntRange(|st|)
      ensures seen' == seen + SymTargets(st[s].edges, sym) && seen' <= IntRange(|st|)
      ensures AddedInv(seen, seen', added)
    {
      seen', added := seen, [];
      var edges := st[s].edges;
      assert edges[..0] == [];
      for j := 0 to |edges|
        invariant PushInv(|st|, sym, seen, edges[..j], seen', added)
      {
        var t := edges[j];
        assert 0 <= t.to < |st|;
        assert edges[..j + 1] == edges[..j] + [t];
        if t.sym == sym && t.to !in seen' {
          PushAdd(|st|, sym, seen, edges[..j], seen', added, t);
          seen', added := seen' + {t.to}, added + [t.to];
        } else {
          PushSkip(|st|, sym, seen, edges[..j], seen', added, t);
        }
      }
      assert edges[..|edges|] == edges;
    }

    /** The targets of the `sym`-edges leaving any of `states`. */
    function TargetsFrom(states: seq<int>, sym: int): set<int>
      requires InRange(states)
      reads this
    {
      if states == [] then {}
      else TargetsFrom(states[..|states| - 1], sym) + SymTargets(st[states[|states| - 1]].edges, sym)
    }

    /**
     * `move`: the targets of the edges labelled exactly `sym` out of
     * `states`, ascending and each listed once.
     */
    method Move(states: seq<int>, sym: int) returns (res: seq<int>)
      requires WellFormed() && InRange(states)
      ensures StrictlySorted(res) && InRange(res)
      ensures Elems(res) == TargetsFrom(states, sym)
    {
      var seen: set<int> := {};
      res := [];
      for i := 0 to |states|
        invariant seen == TargetsFrom(states[..i], sym) && seen <= IntRange(|st|)
        invariant seen == Elems(res) && NoDup(res)
      {
        seen, res := MoveRound(states, sym, i, seen, res);
      }
      assert states[..|states|] == states;
      ClosureSorted(res, res);
      SortStrict(res);
      res := Sort(res);
    }

    /** One state of `move`: its new targets are appended, in edge order. */
    method MoveRound(states: seq<int>, sym: int, i: nat, seen: set<int>, res: seq<int>) returns (seen': set<int>, res': seq<int>)
      requires WellFormed() && InRange(states) && i < |states|
      requires seen == TargetsFrom(states[..i], sym) && seen <= IntRange(|st|)
      requires seen == Elems(res) && NoDup(res)
      ensures seen' == TargetsFrom(states[..i + 1], sym) && seen' <= IntRange(|st|)
      ensures seen' == Elems(res') && NoDup(res')
    {
      assert states[..i + 1][..i] == states[..i];
      var added;
      seen', added := PushTargets(states[i], sym, seen);
      res' := res + added;
      SeenStep(seen, seen', Elems(res), Elems(added), Elems(res')) by {
        ElemsAppend(res, added);
      }
      NoDupAppend(res, added);
    }

    /** The labels other than ε on the edges `edges`. */
    static function Labels(edges: seq<Trans>): set<int>
    {
      if edges == [] then {}
      else
        var last := edges[|edges| - 1];
        Labels(edges[..|edges| - 1]) + (if last.sym != EPS then {last.sym} else {})
    }

    /** The labels other than ε on the edges leaving any of `states`. */
    function LabelsFrom(states: seq<int>): set<int>
      requires InRange(states)
      reads this
    {
      if states == [] then {}
      else LabelsFrom(states[..|states| - 1]) + Labels(st[states[|states| - 1]].edges)
    }

    /** `collect_symbols`: every non-ε label on an edge leaving `states`, as an unordered set. */
    method CollectSymbols(states: seq<int>) returns (symbols: set<int>)
      requires InRange(states)
      ensures symbols == LabelsFrom(states)
    {
      symbols := {};
      for i := 0 to |states|
        invariant symbols == LabelsFrom(states[..i])
      {
        assert states[..i + 1][..i] == states[..i];
        var edges := st[states[i]].edges;
        ghost var before := symbols;
        assert edges[..0] == [];
        for j := 0 to |edges|
          invariant symbols == before + Labels(edges[..j])
        {
          assert edges[..j + 1][..j] == edges[..j];
          if edges[j].sym != EPS {
            symbols := symbols + {edges[j].sym};
          }
        }
        assert edges[..|edges|] == edges;
      }
      assert states[..|states|] == states;
    }

    /** A symbol is collected exactly when it labels some edge of some given state and is not ε. */
    lemma {:induction false} LabelsFromSpec(states: seq<int>, x: int)
      requires InRange(states)
      ensures x in LabelsFrom(states) <==>
                x != EPS && exists i, e :: 0 <= i < |states| && 0 <= e < |st[states[i]].edges| &&
                                           st[states[i]].edges[e].sym == x
    {
      if states != [] {
        var n := |states| - 1;
        LabelsFromSpec(states[..n], x);
        LabelsSpec(st[states[n]].edges, x);
        if x in LabelsFrom(states) && x !in LabelsFrom(states[..n]) {
          var e :| 0 <= e < |st[states[n]].edges| && st[states[n]].edges[e].sym == x;
          assert 0 <= n < |states| && 0 <= e < |st[states[n]].edges| && st[states[n]].edges[e].sym == x;
        }
        if x != EPS && x !in LabelsFrom(states[..n]) &&
           exists i, e :: 0 <= i < |states| && 0 <= e < |st[states[i]].edges| && st[states[i]].edges[e].sym == x {
          var i, e :| 0 <= i < |states| && 0 <= e < |st[states[i]].edges| && st[states[i]].edges[e].sym == x;
          if i < n {
            assert states[..n][i] == states[i];
          }
        }
      }
    }

    static lemma {:induction false} LabelsSpec(edges: seq<Trans>, x: int)
      ensures x in Labels(edges) <==> x != EPS && exists e :: 0 <= e < |edges| && edges[e].sym == x
    {
      if edges != [] {
        var n := |edges| - 1;
        LabelsSpec(edges[..n], x);
        if x != EPS && x !in Labels(edges[..n]) && exists e :: 0 <= e < |edges| && edges[e].sym == x {
          var e :| 0 <= e < |edges| && edges[e].sym == x;
        }
        if x in Labels(edges[..n]) {
          var e :| 0 <= e < n && edges[..n][e].sym == x;
          assert edges[e].sym == x;
        }
      }
    }

    /** State `s` accepts with a priority strictly below `p`. */
    predicate Beats(s: int, p: int)
      requires 0 <= s < |st|
      reads this
    {
      st[s].token >= 0 && st[s].priority < p
    }

    /** Index i holds the first accepting state of least priority among `states`. */
    predicate FirstBest(states: seq<int>, i: int)
      requires InRange(states)
      reads this
    {
      && 0 <= i < |states| && Beats(states[i], INT_MAX)
      && (forall j :: 0 <= j < i ==> !Beats(states[j], st[states[i]].priority + 1))
      && (forall j :: i < j < |states| ==> !Beats(states[j], st[states[i]].priority))
    }

    /**
     * (token, priority) is what a set of states accepts: that of its first
     * accepting state of least priority, or (-1, INT_MAX) when none accepts
     * below INT_MAX.
     */
    predicate IsAcceptOf(states: seq<int>, token: int, priority: int)
      requires InRange(states)
      reads this
    {
      if token == -1 then
        priority == INT_MAX && forall j :: 0 <= j < |states| ==> !Beats(states[j], INT_MAX)
      else
        exists i :: 0 <= i < |states| && FirstBest(states, i) && token == st[states[i]].token && priority == st[states[i]].priority
    }

    /** `c` lists the ε-closure of `base`: the least ε-closed set containing it. */
    ghost predicate IsClosureOf(c: seq<int>, base: set<int>)
      reads this
    {
      && base <= Elems(c) && EpsClosed(Elems(c))
      && forall c': set<int> :: base <= c' && EpsClosed(c') ==> Elems(c) <= c'
    }

    /**
     * `computing_accept`: the (token, priority) of the first accepting state
     * of least priority, or (-1, INT_MAX) when no state accepts below INT_MAX.
     */
    method ComputingAccept(states: seq<int>) returns (token: int, priority: int)
      requires InRange(states)
      ensures IsAcceptOf(states, token, priority)
    {
      token, priority := -1, INT_MAX;
      ghost var best := -1;
      for i := 0 to |states|
        invariant best == -1 ==> token == -1 && priority == INT_MAX &&
                                 forall j :: 0 <= j < i ==> !Beats(states[j], INT_MAX)
        invariant best != -1 ==> 0 <= best < i && Beats(states[best], INT_MAX) &&
                                 token == st[states[best]].token && priority == st[states[best]].priority &&
                                 (forall j :: 0 <= j < best ==> !Beats(states[j], priority + 1)) &&
                                 (forall j :: best < j < i ==> !Beats(states[j], priority))
      {
        var s := states[i];
        if st[s].token >= 0 && st[s].priority < priority {
          priority := st[s].priority;
          token := st[s].token;
          best := i;
        }
      }
      if best != -1 {
        assert FirstBest(states, best);
      }
    }

    /** The targets of `sym`-edges from the given states are exactly the `to` fields of such edges. */
    lemma {:induction false} TargetsFromSpec(states: seq<int>, sym: int, x: int)
      requires InRange(states)
      ensures x in TargetsFrom(states, sym) <==>
                exists i, e :: 0 <= i < |states| && 0 <= e < |st[states[i]].edges| &&
                               st[states[i]].edges[e] == Trans(sym, x)
    {
      if states != [] {
        var n := |states| - 1;
        TargetsFromSpec(states[..n], sym, x);
        SymTargetsSpec(st[states[n]].edges, sym, x);
        if x in TargetsFrom(states, sym) && x !in TargetsFrom(states[..n], sym) {
          var e :| 0 <= e < |st[states[n]].edges| && st[states[n]].edges[e] == Trans(sym, x);
          assert 0 <= n < |states| && 0 <= e < |st[states[n]].edges| && st[states[n]].edges[e] == Trans(sym, x);
        }
        if x !in TargetsFrom(states[..n], sym) &&
           exists i, e :: 0 <= i < |states| && 0 <= e < |st[states[i]].edges| && st[states[i]].edges[e] == Trans(sym, x) {
          var i, e :| 0 <= i < |states| && 0 <= e < |st[states[i]].edges| && st[states[i]].edges[e] == Trans(sym, x);
          if i < n {
            assert states[..n][i] == states[i];
          }
        }
      }
    }

    static lemma {:induction false} SymTargetsSpec(edges: seq<Trans>, sym: int, x: int)
      ensures x in SymTargets(edges, sym) <==> exists e :: 0 <= e < |edges| && edges[e] == Trans(sym, x)
    {
      if edges != [] {
        var n := |edges| - 1;
        SymTargetsSpec(edges[..n], sym, x);
        if x !in SymTargets(edges[..n], sym) && exists e :: 0 <= e < |edges| && edges[e] == Trans(sym, x) {
          var e :| 0 <= e < |edges| && edges[e] == Trans(sym, x);
        }
        if x in SymTargets(edges[..n], sym) {
          var e :| 0 <= e < n && edges[..n][e] == Trans(sym, x);
          assert edges[e] == Trans(sym, x);
        }
      }
    }

    /** The state lists and starts of `subs`, read as values. */
    static function Views(subs: seq<Nfa>): (r: seq<Sub>)
      reads subs
      ensures |r| == |subs| && forall k :: 0 <= k < |subs| ==> r[k] == Sub(subs[k].st, subs[k].start)
    {
      seq(|subs|, k requires 0 <= k < |subs| reads subs => Sub(subs[k].st, subs[k].start))
    }

    /**
     * `union_many`: a fresh automaton whose state 0 is a new start with one
     * ε-edge into every kept sub, each sub appended with its edge targets
     * shifted; `UnionOf` and its lemmas describe the layout.
     */
    static method UnionMany(subs: seq<Nfa>) returns (out: Nfa)
      ensures fresh(out) && out.start == 0
      ensures out.st == UnionOf(Views(subs))
    {
      out := new Nfa();
      var id := out.NewState();
      out.SetStart(id);
      ghost var views := Views(subs);
      assert views[..0] == [];
      for k := 0 to |subs|
        invariant out.start == 0 && out.st == UnionOf(views[..k])
        invariant Views(subs) == views
      {
        assert views[..k + 1][..k] == views[..k];
        var sub := subs[k];
        if |sub.st| == 0 || sub.start < 0 {
          continue;
        }
        out.AppendSub(sub.st, sub.start);
      }
      assert views[..|subs|] == views;
    }

    /** One kept sub in `union_many`: append its states, shift their edges, link the start to it. */
    method AppendSub(states: seq<NfaState>, subStart: int)
      requires |st| > 0 && start == 0 && !Skipped(Sub(states, subStart))
      modifies this
      ensures start == 0 && st == UnionStep(old(st), Sub(states, subStart))
    {
      var base := |st|;
      st := st + states;
      ShiftFrom(base);
      assert st == old(st) + ShiftAll(states, base);
      AddEdge(0, base + subStart, EPS);
    }

    /** The edge re-mapping of `union_many`: every edge of the states from `base` on moves up by `base`. */
    method ShiftFrom(base: nat)
      requires base <= |st|
      modifies this
      ensures start == old(start)
      ensures st == old(st[..base]) + ShiftAll(old(st[base..]), base)
    {
      ghost var moved := st[base..];
      for s := base to |st|
        invariant |st| == |old(st)| && start == old(start) && st[..base] == old(st[..base])
        invariant forall i :: base <= i < s ==> st[i] == ShiftState(moved[i - base], base)
        invariant forall i :: s <= i < |st| ==> st[i] == moved[i - base]
      {
        st := st[s := ShiftState(st[s], base)];
      }
      assert st == old(st[..base]) + ShiftAll(moved, base);
    }
  }
}
