// The older, non-template `lexer::NFA`: the same state vector as the
// utility automaton, an `add_eps` shorthand, and a `union_many` whose loop
// never creates the start state it links from.
module LexerNfa {
  import opened Common
  import opened FrontNfa

  /**
   * `add_edge` on a value, with the vector bound made explicit: `st_[from]`
   * with `from` outside the vector is an out-of-range access.
   */
  function AddEdgeChecked(st: seq<NfaState>, from: int, to: int, sym: int): (r: Result<seq<NfaState>>)
    ensures r.Ok? <==> 0 <= from < |st|
    ensures r.Ok? ==> |r.value| == |st| && r.value[from].edges == st[from].edges + [Trans(sym, to)]
  {
    if 0 <= from < |st| then Ok(st[from := st[from].(edges := st[from].edges + [Trans(sym, to)])])
    else Err("state index out of range")
  }

  /**
   * The `union_many` loop as written, from the states gathered so far; the
   * start stays at its default -1 throughout because nothing sets it.
   */
  function UnionLoopAsWritten(acc: seq<NfaState>, start: int, subs: seq<Sub>): Result<Sub>
    decreases subs
  {
    if subs == [] then Ok(Sub(acc, start))
    else if Skipped(subs[0]) then UnionLoopAsWritten(acc, start, subs[1..])
    else
      var base := |acc|;
      var moved := acc + ShiftAll(subs[0].states, base);
      match AddEdgeChecked(moved, start, base + subs[0].start, EPS)
      case Err(msg) => Err(msg)
      case Ok(linked) => UnionLoopAsWritten(linked, start, subs[1..])
  }

  /** `union_many` as written: a lone fresh start for no subs, otherwise the loop above. */
  function UnionAsWritten(subs: seq<Sub>): Result<Sub>
  {
    if subs == [] then Ok(Sub([FreshState], 0)) else UnionLoopAsWritten([], -1, subs)
  }

  /**
   * As written, any kept sub makes the loop link from state -1; with only
   * skipped subs the result has no states at all and start -1.
   */
  lemma {:induction false} UnionLoopAsWrittenFails(acc: seq<NfaState>, subs: seq<Sub>)
    ensures (exists k :: 0 <= k < |subs| && !Skipped(subs[k])) <==> UnionLoopAsWritten(acc, -1, subs).Err?
    ensures UnionLoopAsWritten(acc, -1, subs).Ok? ==> UnionLoopAsWritten(acc, -1, subs) == Ok(Sub(acc, -1))
  {
    if subs != [] {
      UnionLoopAsWrittenFails(acc, subs[1..]);
      if Skipped(subs[0]) {
        if exists k :: 0 <= k < |subs| && !Skipped(subs[k]) {
          var k :| 0 <= k < |subs| && !Skipped(subs[k]);
          assert subs[1..][k - 1] == subs[k];
        }
        if exists k :: 0 <= k < |subs[1..]| && !Skipped(subs[1..][k]) {
          var k :| 0 <= k < |subs[1..]| && !Skipped(subs[1..][k]);
          assert !Skipped(subs[k + 1]);
        }
      } else {
        assert !Skipped(subs[0]);
      }
    }
  }

  /** The concrete input that exposes it: one one-state sub starting at 0. */
  lemma UnionAsWrittenCounterexample()
    ensures UnionAsWritten([Sub([FreshState], 0)]).Err?
  {
    UnionLoopAsWrittenFails([], [Sub([FreshState], 0)]);
  }

  class Nfa {
    var st: seq<NfaState>
    var start: int

    constructor ()
      ensures st == [] && start == -1
    {
      st := [];
      start := -1;
    }

    method SetStart(s: int)
      modifies this
      ensures st == old(st) && start == s
    {
      start := s;
    }

    /** Appends a non-accepting state and returns its index. */
    method NewState() returns (id: int)
      modifies this
      ensures st == old(st) + [FreshState] && start == old(start)
      ensures id == |old(st)| && 0 <= id < |st|
    {
      st := st + [FreshState];
      id := |st| - 1;
    }

    /** Appends one edge to state `from`; nothing else changes. */
    method AddEdge(from: int, to: int, sym: int)
      requires 0 <= from < |st|
      modifies this
      ensures |st| == |old(st)| && start == old(start)
      ensures st[from] == old(st[from]).(edges := old(st[from]).edges + [Trans(sym, to)])
      ensures forall s :: 0 <= s < |st| && s != from ==> st[s] == old(st[s])
    {
      st := st[from := st[from].(edges := st[from].edges + [Trans(sym, to)])];
    }

    /** `add_eps`: an ε-labelled `add_edge`. */
    method AddEps(from: int, to: int)
      requires 0 <= from < |st|
      modifies this
      ensures |st| == |old(st)| && start == old(start)
      ensures st[from] == old(st[from]).(edges := old(st[from]).edges + [Trans(EPS, to)])
      ensures forall s :: 0 <= s < |st| && s != from ==> st[s] == old(st[s])
    {
      AddEdge(from, to, EPS);
    }

    /** Lowers the priority of `state` to `priority`, taking `token` with it, when that is an improvement. */
    method SetAccept(state: int, token: int, priority: int)
      requires 0 <= state < |st|
      modifies this
      ensures |st| == |old(st)| && start == old(start)
      ensures st[state].edges == old(st[state]).edges
      ensures old(st[state]).priority > priority ==>
                st[state].token == token && st[state].priority == priority
      ensures old(st[state]).priority <= priority ==> st[state] == old(st[state])
      ensures st[state].priority <= old(st[state]).priority
      ensures forall s :: 0 <= s < |st| && s != state ==> st[s] == old(st[s])
    {
      if st[state].priority > priority {
        st := st[state := st[state].(token := token, priority := priority)];
      }
    }

    static function Views(subs: seq<Nfa>): (r: seq<Sub>)
      reads subs
      ensures |r| == |subs| && forall k :: 0 <= k < |subs| ==> r[k] == Sub(subs[k].st, subs[k].start)
    {
      seq(|subs|, k requires 0 <= k < |subs| reads subs => Sub(subs[k].st, subs[k].start))
    }

    /**
     * `union_many` with the start state created before the loop, so that
     * every `add_eps` links from an existing state: the result is the one
     * `UnionOf` describes, the same layout as the utility automaton's.
     */
    static method UnionManyFixed(subs: seq<Nfa>) returns (out: Nfa)
      ensures fresh(out) && out.start == 0
      ensures out.st == UnionOf(Views(subs))
    {
      out := new Nfa();
      var id := out.NewState();
      out.SetStart(id);
      ghost var views := Views(subs);
      assert views[..0] == [];
      for k := 0 to |subs|
        invariant out.start == 0 && out.st == UnionOf(views[..k])
        invariant Views(subs) == views
      {
        assert views[..k + 1][..k] == views[..k];
        var sub := subs[k];
        if |sub.st| == 0 || sub.start < 0 {
          continue;
        }
        out.AppendSub(sub.st, sub.start);
      }
      assert views[..|subs|] == views;
    }

    /** One kept sub in `union_many`: append its states, shift their edges, link the start to it. */
    method AppendSub(states: seq<NfaState>, subStart: int)
      requires |st| > 0 && start == 0 && !Skipped(Sub(states, subStart))
      modifies this
      ensures start == 0 && st == UnionStep(old(st), Sub(states, subStart))
    {
      var base := |st|;
      st := st + states;
      ShiftFrom(base);
      assert st == old(st) + ShiftAll(states, base);
      AddEps(0, base + subStart);
    }

    /** The re-mapping loop: every edge of the states from `base` on moves up by `base`. */
    method ShiftFrom(base: nat)
      requires base <= |st|
      modifies this
      ensures start == old(start)
      ensures st == old(st[..base]) + ShiftAll(old(st[base..]), base)
    {
      ghost var moved := st[base..];
      for s := base to |st|
        invariant |st| == |old(st)| && start == old(start) && st[..base] == old(st[..base])
        invariant forall i :: base <= i < s ==> st[i] == ShiftState(moved[i - base], base)
        invariant forall i :: s <= i < |st| ==> st[i] == moved[i - base]
      {
        st := st[s := ShiftState(st[s], base)];
      }
      assert st == old(st[..base]) + ShiftAll(moved, base);
    }
  }
}
