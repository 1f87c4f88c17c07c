// The Thompson-style regular-expression compiler of the lexer: a
// recursive-descent parser over the pattern that adds states and edges to
// one shared automaton as it goes and returns fragments (start, accept).
//
//   regex  := alt
//   alt    := concat ('|' concat)*
//   concat := repeat+
//   repeat := atom ('*' | '+')*
//   atom   := '(' alt ')' | '.' | '\' escape | literal
module Regex {
  import opened Common
  import opened FrontNfa

  /** A sub-automaton by its entry and exit states. */
  datatype Frag = Frag(start: int, accept: int)
  {
    predicate IsInvalid() { start < 0 || accept < 0 }
  }

  /** `NFAFrag::invalid()`. */
  const InvalidFrag: Frag := Frag(-1, 1)

  /**
   * The character at `i`, reading the terminating '\0' of a C++ string at
   * and past the end.
   */
  function At(p: string, i: nat): char
  {
    if i < |p| then p[i] else '\0'
  }

  // ---------------------------------------------------------------------
  // How far each parsing routine reads, and whether it yields a fragment
  // ---------------------------------------------------------------------

  /** The outcome of one parsing routine: a valid fragment or not, and the position it stops at. */
  datatype Parse = Parse(ok: bool, pos: nat)

  function AltShape(p: string, i: nat): (r: Parse)
    requires i <= |p| + 1
    ensures i <= r.pos <= |p| + 1
    decreases |p| + 2 - i, 3, 1
  {
    var c := ConcatShape(p, i);
    AltLoop(p, c.pos, c.ok)
  }

  /** The `'|' concat` loop of `parse_alt`, after a branch that was valid iff `ok`. */
  function AltLoop(p: string, j: nat, ok: bool): (r: Parse)
    requires j <= |p| + 1
    ensures j <= r.pos <= |p| + 1
    decreases |p| + 2 - j, 3, 0
  {
    if At(p, j) == '|' then
      var n := ConcatShape(p, j + 1);
      if !ok || !n.ok then Parse(false, n.pos) else AltLoop(p, n.pos, true)
    else Parse(ok, j)
  }

  function ConcatShape(p: string, i: nat): (r: Parse)
    requires i <= |p| + 1
    ensures i <= r.pos <= |p| + 1
    decreases |p| + 2 - i, 2, 1
  {
    ConcatLoop(p, i, 0)
  }

  /** The loop of `parse_concat` after `n` fragments: it stops at the first invalid repeat. */
  function ConcatLoop(p: string, i: nat, n: nat): (r: Parse)
    requires i <= |p| + 1
    ensures i <= r.pos <= |p| + 1
    decreases |p| + 2 - i, 2, 0
  {
    var f := RepeatShape(p, i);
    if !f.ok then Parse(n > 0, f.pos) else ConcatLoop(p, f.pos, n + 1)
  }

  function RepeatShape(p: string, i: nat): (r: Parse)
    requires i <= |p| + 1
    ensures i <= r.pos <= |p| + 1
    ensures r.ok ==> i < r.pos
    decreases |p| + 2 - i, 1
  {
    var a := AtomShape(p, i);
    if !a.ok then a else Parse(true, StarsEnd(p, a.pos))
  }

  /** The first position from `j` on that is not a '*' or '+'. */
  function StarsEnd(p: string, j: nat): (r: nat)
    requires j <= |p| + 1
    ensures j <= r <= |p| + 1 && At(p, r) != '*' && At(p, r) != '+'
    ensures forall k :: j <= k < r ==> At(p, k) == '*' || At(p, k) == '+'
    decreases |p| + 1 - j
  {
    if At(p, j) == '*' || At(p, j) == '+' then StarsEnd(p, j + 1) else j
  }

  function AtomShape(p: string, i: nat): (r: Parse)
    requires i <= |p| + 1
    ensures i <= r.pos <= |p| + 1
    ensures r.ok ==> i < r.pos
    decreases |p| + 2 - i, 0
  {
    var c := At(p, i);
    if c == '\0' || c == '|' || c == ')' then Parse(false, i)
    else if c == '(' then
      var a := AltShape(p, i + 1);
      if At(p, a.pos) != ')' then Parse(false, a.pos) else Parse(a.ok, a.pos + 1)
    else if c == '\\' then Parse(true, i + 2)
    else Parse(true, i + 1)
  }

  /** `parse_atom` gives up without reading anything exactly on '\0', '|' and ')'. */
  lemma AtomRefusesWithoutReading(p: string, i: nat)
    requires i <= |p| + 1
    ensures AtomShape(p, i) == Parse(false, i) <==> At(p, i) in {'\0', '|', ')'}
  {
    if At(p, i) == '(' {
      assert AltShape(p, i + 1).pos >= i + 1;
    }
  }

  /** Where `compile` starts parsing: after a "?i:" prefix, which turns on case-insensitive mode. */
  function PrefixEnd(p: string): (r: nat)
    ensures r == 3 <==> At(p, 0) == '?' && At(p, 1) == 'i' && At(p, 2) == ':'
    ensures r == 0 || r == 3
  {
    if At(p, 0) == '?' && At(p, 1) == 'i' && At(p, 2) == ':' then 3 else 0
  }

  /** `compile` succeeds iff the alternation from the start is valid and reaches the terminator. */
  predicate Accepts(p: string)
  {
    var s := PrefixEnd(p);
    assert s <= |p| + 1 by { assert s == 3 ==> At(p, 2) == ':'; }
    var a := AltShape(p, s);
    a.ok && At(p, a.pos) == '\0'
  }

  /**
   * A group left open at the end of the pattern: `parse_atom` reports the
   * group invalid after reading "(b", `parse_concat` takes that as the end
   * of the concatenation "a", and `compile` then finds itself at the
   * terminator and accepts.
   */
  lemma UnclosedGroupAccepted()
    ensures Accepts("a(b")
  {
    var p := "a(b";
    assert At(p, 3) == '\0' && At(p, 2) == 'b' && At(p, 1) == '(' && At(p, 0) == 'a';
    assert PrefixEnd(p) == 0;
    assert RepeatShape(p, 3) == Parse(false, 3);
    assert ConcatLoop(p, 3, 1) == Parse(true, 3);
    assert RepeatShape(p, 2) == Parse(true, 3);
    assert ConcatShape(p, 2) == Parse(true, 3);
    assert AltShape(p, 2) == Parse(true, 3);
    assert AtomShape(p, 1) == Parse(false, 3);
    assert ConcatLoop(p, 1, 1) == Parse(true, 3);
    assert RepeatShape(p, 0) == Parse(true, 1);
    assert AltShape(p, 0) == Parse(true, 3);
  }

  // ---------------------------------------------------------------------
  // Labels of a literal
  // ---------------------------------------------------------------------

  predicate IsAlpha(c: char) { 'a' <= c <= 'z' || 'A' <= c <= 'Z' }

  function ToLower(c: char): char { if 'A' <= c <= 'Z' then (c as int + 32) as char else c }

  function ToUpper(c: char): char { if 'a' <= c <= 'z' then (c as int - 32) as char else c }

  /** The edges from a literal's start to its accept `acc`: both cases of a letter in case-insensitive mode. */
  function LiteralEdges(c: char, insensitive: bool, acc: int): (r: seq<Trans>)
    ensures insensitive && IsAlpha(c) ==> |r| == 2 && r[0].sym != r[1].sym
    ensures !(insensitive && IsAlpha(c)) ==> r == [Trans(CharCode(c), acc)]
    ensures forall e :: 0 <= e < |r| ==> r[e].to == acc
  {
    if insensitive && IsAlpha(c) then [Trans(CharCode(ToLower(c)), acc), Trans(CharCode(ToUpper(c)), acc)]
    else [Trans(CharCode(c), acc)]
  }

  /** A letter's two labels are its lower- and upper-case forms, whichever case it was written in. */
  lemma LiteralCaseFree(c: char, acc: int)
    requires IsAlpha(c)
    ensures LiteralEdges(c, true, acc) == LiteralEdges(ToLower(c), true, acc) == LiteralEdges(ToUpper(c), true, acc)
    ensures LiteralEdges(c, true, acc)[0].sym == ToLower(c) as int && LiteralEdges(c, true, acc)[1].sym == ToUpper(c) as int
  {
  }

  predicate NoneAccepting(st: seq<NfaState>)
  {
    forall s :: 0 <= s < |st| ==> st[s].token == -1 && st[s].priority == INT_MAX
  }

  /** The ε-edges `parse_concat` adds from state `s` while linking the first `k` fragments. */
  function Links(frags: seq<Frag>, k: nat, s: int): seq<Trans>
    requires k <= |frags|
  {
    if k <= 1 then []
    else Links(frags, k - 1, s) + (if frags[k - 2].accept == s then [Trans(EPS, frags[k - 1].start)] else [])
  }

  /** One round of the linking loop keeps every state equal to its original plus the links so far. */
  lemma LinkStep(orig: seq<NfaState>, before: seq<NfaState>, after: seq<NfaState>, frags: seq<Frag>, i: nat)
    requires 1 <= i < |frags| && |orig| == |before| == |after| && 0 <= frags[i - 1].accept < |before|
    requires forall s :: 0 <= s < |before| ==> before[s] == orig[s].(edges := orig[s].edges + Links(frags, i, s))
    requires after == before[frags[i - 1].accept := before[frags[i - 1].accept].(edges :=
               before[frags[i - 1].accept].edges + [Trans(EPS, frags[i].start)])]
    ensures forall s :: 0 <= s < |after| ==> after[s] == orig[s].(edges := orig[s].edges + Links(frags, i + 1, s))
  {
    forall s | 0 <= s < |after|
      ensures after[s] == orig[s].(edges := orig[s].edges + Links(frags, i + 1, s))
    {
      if s == frags[i - 1].accept {
        assert orig[s].edges + Links(frags, i + 1, s) == orig[s].edges + Links(frags, i, s) + [Trans(EPS, frags[i].start)];
      }
    }
  }

  /** The ε-edges `parse_alt` adds from state `s` into the new accept `acc` for the first `k` branches. */
  function Joins(branches: seq<Frag>, k: nat, s: int, acc: int): seq<Trans>
    requires k <= |branches|
  {
    if k == 0 then []
    else Joins(branches, k - 1, s, acc) + (if branches[k - 1].accept == s then [Trans(EPS, acc)] else [])
  }

  /** Adding an edge to an existing state keeps the targets in range and every state non-accepting. */
  lemma EdgeKeepsShape(before: seq<NfaState>, after: seq<NfaState>, from: int, t: Trans)
    requires EdgesInRange(before) && NoneAccepting(before) && 0 <= from < |before| == |after| && 0 <= t.to < |before|
    requires after[from] == before[from].(edges := before[from].edges + [t])
    requires forall s :: 0 <= s < |after| && s != from ==> after[s] == before[s]
    ensures EdgesInRange(after) && NoneAccepting(after)
  {
  }

  /** One round of the joining loop of `parse_alt` adds exactly the next branch's ε-edge to the new accept. */
  lemma JoinStep(orig: seq<NfaState>, before: seq<NfaState>, after: seq<NfaState>, branches: seq<Frag>, b: nat, acc: int)
    requires b < |branches| && |orig| <= |before| == |after| && 0 <= branches[b].accept < |before|
    requires forall s :: 0 <= s < |orig| ==> before[s] == orig[s].(edges := orig[s].edges + Joins(branches, b, s, acc))
    requires forall s :: 0 <= s < |before| && s != branches[b].accept ==> after[s] == before[s]
    requires after[branches[b].accept] == before[branches[b].accept].(edges := before[branches[b].accept].edges + [Trans(EPS, acc)])
    ensures forall s :: 0 <= s < |orig| ==> after[s] == orig[s].(edges := orig[s].edges + Joins(branches, b + 1, s, acc))
  {
  }

  /** The ε-edges from the new start of `parse_alt` into every branch, in order. */
  function Entries(branches: seq<Frag>): (r: seq<Trans>)
    ensures |r| == |branches| && forall b :: 0 <= b < |branches| ==> r[b] == Trans(EPS, branches[b].start)
  {
    seq(|branches|, b requires 0 <= b < |branches| => Trans(EPS, branches[b].start))
  }

  /** `after` keeps every state of `before` as it was, and may add states after them. */
  predicate Extends(before: seq<NfaState>, after: seq<NfaState>)
  {
    |before| <= |after| && forall s :: 0 <= s < |before| ==> after[s] == before[s]
  }

  /** `after` keeps the first `n` states of `before` as they were, and has at least as many states. */
  predicate Keeps(before: seq<NfaState>, after: seq<NfaState>, n: nat)
  {
    n <= |before| <= |after| && forall s :: 0 <= s < n ==> after[s] == before[s]
  }

  /**
   * A fragment on two distinct states added after the first `n`, whose
   * accept has no edge leaving it yet.
   */
  predicate Built(st: seq<NfaState>, n: nat, f: Frag)
  {
    n <= f.start < |st| && n <= f.accept < |st| && f.start != f.accept && st[f.accept].edges == []
  }

  /** Concatenation: `f` spans `frags` in order, each accept joined to the next start by its one ε-edge. */
  predicate Chained(st: seq<NfaState>, f: Frag, frags: seq<Frag>)
  {
    |frags| >= 1 && f == Frag(frags[0].start, frags[|frags| - 1].accept)
    && forall i :: 0 <= i < |frags| - 1 ==>
         0 <= frags[i].accept < |st| && st[frags[i].accept].edges == [Trans(EPS, frags[i + 1].start)]
  }

  /**
   * Alternation: `f` is the last two states; its start has an ε-edge into
   * every branch in order, and each branch accept has one ε-edge, into f's
   * accept.
   */
  predicate Branched(st: seq<NfaState>, f: Frag, branches: seq<Frag>)
  {
    |branches| >= 2 && |st| >= 2 && f == Frag(|st| - 2, |st| - 1)
    && st[f.start].edges == Entries(branches)
    && forall b :: 0 <= b < |branches| ==>
         0 <= branches[b].accept < |st| && st[branches[b].accept].edges == [Trans(EPS, f.accept)]
  }

  /**
   * Repetition by the operator `op`: `f`'s start enters `inner`, whose
   * accept leaves to f's accept and loops back to its own start; only '*'
   * adds the bypass from f's start to f's accept.
   */
  predicate Wraps(st: seq<NfaState>, f: Frag, inner: Frag, op: char)
  {
    0 <= f.start < |st| && 0 <= inner.accept < |st|
    && st[f.start].edges == [Trans(EPS, inner.start)] + (if op == '*' then [Trans(EPS, f.accept)] else [])
    && st[inner.accept].edges == [Trans(EPS, f.accept), Trans(EPS, inner.start)]
  }

  /** `f` wraps some fragment for the operator `op`. */
  ghost predicate WrappedBy(st: seq<NfaState>, f: Frag, op: char)
  {
    exists inner :: Wraps(st, f, inner, op)
  }

  /** The fragments' states are ordered: every state of an earlier fragment precedes every state of a later one. */
  predicate Ordered(frags: seq<Frag>)
  {
    forall i, j :: 0 <= i < j < |frags| ==>
      frags[i].start < frags[j].start && frags[i].start < frags[j].accept
      && frags[i].accept < frags[j].start && frags[i].accept < frags[j].accept
  }

  lemma {:induction false} LinksNone(frags: seq<Frag>, k: nat, s: int)
    requires k <= |frags|
    requires forall i :: 0 <= i < k - 1 ==> frags[i].accept != s
    ensures Links(frags, k, s) == []
  {
    if k > 1 {
      LinksNone(frags, k - 1, s);
    }
  }

  lemma {:induction false} LinksOne(frags: seq<Frag>, k: nat, i: nat)
    requires i + 1 < k <= |frags|
    requires forall j :: 0 <= j < k - 1 && j != i ==> frags[j].accept != frags[i].accept
    ensures Links(frags, k, frags[i].accept) == [Trans(EPS, frags[i + 1].start)]
  {
    if k - 2 == i {
      LinksNone(frags, k - 1, frags[i].accept);
    } else {
      LinksOne(frags, k - 1, i);
    }
  }

  /** After the linking loop, each fragment's accept but the last has exactly the one ε-edge into the next fragment. */
  lemma ChainLinkAt(orig: seq<NfaState>, st: seq<NfaState>, frags: seq<Frag>, n: nat, i: nat)
    requires i + 1 < |frags| && |orig| == |st| && Ordered(frags)
    requires forall j :: 0 <= j < |frags| ==> Built(orig, n, frags[j])
    requires forall s :: 0 <= s < |st| ==> st[s] == orig[s].(edges := orig[s].edges + Links(frags, |frags|, s))
    ensures 0 <= frags[i].accept < |st| && st[frags[i].accept].edges == [Trans(EPS, frags[i + 1].start)]
  {
    LinksOne(frags, |frags|, i);
  }

  /** What the linking loop leaves: each accept but the last joined to the next fragment's start. */
  lemma ChainEffect(orig: seq<NfaState>, st: seq<NfaState>, frags: seq<Frag>, n: nat)
    requires |frags| >= 1 && |orig| == |st| && Ordered(frags)
    requires forall i :: 0 <= i < |frags| ==> Built(orig, n, frags[i])
    requires forall s :: 0 <= s < |st| ==> st[s] == orig[s].(edges := orig[s].edges + Links(frags, |frags|, s))
    ensures Chained(st, Frag(frags[0].start, frags[|frags| - 1].accept), frags)
  {
    forall i | 0 <= i < |frags| - 1
      ensures 0 <= frags[i].accept < |st| && st[frags[i].accept].edges == [Trans(EPS, frags[i + 1].start)]
    {
      ChainLinkAt(orig, st, frags, n, i);
    }
  }

  /** The linking loop leaves the last accept without edges, so the chain is itself a built fragment. */
  lemma ChainBuilt(orig: seq<NfaState>, st: seq<NfaState>, frags: seq<Frag>, n: nat)
    requires |frags| >= 1 && |orig| == |st| && Ordered(frags)
    requires forall i :: 0 <= i < |frags| ==> Built(orig, n, frags[i])
    requires forall s :: 0 <= s < |st| ==> st[s] == orig[s].(edges := orig[s].edges + Links(frags, |frags|, s))
    ensures Built(st, n, Frag(frags[0].start, frags[|frags| - 1].accept))
  {
    LinksNone(frags, |frags|, frags[|frags| - 1].accept);
  }

  /** The linking loop changes no state below `n`. */
  lemma ChainBelow(orig: seq<NfaState>, st: seq<NfaState>, frags: seq<Frag>, n: nat)
    requires |frags| >= 1 && |orig| == |st| && Ordered(frags)
    requires forall i :: 0 <= i < |frags| ==> Built(orig, n, frags[i])
    requires forall s :: 0 <= s < |st| ==> st[s] == orig[s].(edges := orig[s].edges + Links(frags, |frags|, s))
    ensures forall s :: 0 <= s < n && s < |st| ==> st[s] == orig[s]
  {
    forall s | 0 <= s < n && s < |st|
      ensures st[s] == orig[s]
    {
      LinksNone(frags, |frags|, s);
    }
  }

  lemma {:induction false} JoinsNone(branches: seq<Frag>, k: nat, s: int, acc: int)
    requires k <= |branches|
    requires forall b :: 0 <= b < k ==> branches[b].accept != s
    ensures Joins(branches, k, s, acc) == []
  {
    if k > 0 {
      JoinsNone(branches, k - 1, s, acc);
    }
  }

  lemma {:induction false} JoinsOne(branches: seq<Frag>, k: nat, b: nat, acc: int)
    requires b < k <= |branches|
    requires forall c :: 0 <= c < k && c != b ==> branches[c].accept != branches[b].accept
    ensures Joins(branches, k, branches[b].accept, acc) == [Trans(EPS, acc)]
  {
    if k - 1 == b {
      JoinsNone(branches, k - 1, branches[b].accept, acc);
    } else {
      JoinsOne(branches, k - 1, b, acc);
    }
  }

  /** What the branching loop leaves: each branch accept joined to the new accept, and nothing changed below `n`. */
  lemma BranchEffect(orig: seq<NfaState>, st: seq<NfaState>, branches: seq<Frag>, acc: int, n: nat)
    requires Ordered(branches) && n <= |orig| <= |st|
    requires forall b :: 0 <= b < |branches| ==> Built(orig, n, branches[b])
    requires forall s :: 0 <= s < |orig| ==> st[s] == orig[s].(edges := orig[s].edges + Joins(branches, |branches|, s, acc))
    ensures forall b :: 0 <= b < |branches| ==> 0 <= branches[b].accept < |st| && st[branches[b].accept].edges == [Trans(EPS, acc)]
    ensures forall s :: 0 <= s < n ==> st[s] == orig[s]
  {
    var k := |branches|;
    forall b | 0 <= b < k
      ensures st[branches[b].accept].edges == [Trans(EPS, acc)]
    {
      JoinsOne(branches, k, b, acc);
    }
    forall s | 0 <= s < n
      ensures st[s] == orig[s]
    {
      JoinsNone(branches, k, s, acc);
    }
  }

  /** The character a literal atom at `i` stands for: the one after a backslash, or itself. */
  function Literal(p: string, i: nat): char
  {
    if At(p, i) == '\\' then At(p, i + 1) else At(p, i)
  }

  /** Appending a fragment built on states from `m` on keeps the fragments ordered. */
  /** The first `k` fragments of `frags` are built on states from `n` on. */
  predicate AllBuilt(st: seq<NfaState>, n: nat, frags: seq<Frag>, k: nat)
  {
    k <= |frags| && forall b :: 0 <= b < k ==> Built(st, n, frags[b])
  }

  /** Adding states after the built fragments keeps them built. */
  lemma AllBuiltExtends(st: seq<NfaState>, st2: seq<NfaState>, n: nat, frags: seq<Frag>, k: nat)
    requires Extends(st, st2) && AllBuilt(st, n, frags, k)
    ensures AllBuilt(st2, n, frags, k)
  {
    forall b | 0 <= b < k
      ensures Built(st2, n, frags[b])
    {
      assert st2[frags[b].accept] == st[frags[b].accept];
    }
  }

  /** A built fragment appended after built ones. */
  lemma AllBuiltSnoc(st: seq<NfaState>, n: nat, frags: seq<Frag>, next: Frag)
    requires |frags| >= 1 && AllBuilt(st, n, frags, |frags|) && Built(st, n, next)
    ensures AllBuilt(st, n, frags + [next], |frags| + 1)
  {
  }

  lemma OrderedSnoc(frags: seq<Frag>, next: Frag, m: int)
    requires Ordered(frags)
    requires forall i :: 0 <= i < |frags| ==> frags[i].start < m && frags[i].accept < m
    requires m <= next.start && m <= next.accept
    ensures Ordered(frags + [next])
  {
  }

  class RegexParser {
    const pattern: string
    var pos: nat
    var insensitive: bool
    const nfa: Nfa

    /** A parser at position 0, case-sensitive, over an empty automaton. */
    constructor (pattern: string)
      ensures this.pattern == pattern && pos == 0 && !insensitive
      ensures fresh(nfa) && nfa.st == [] && nfa.start == -1
    {
      this.pattern := pattern;
      pos := 0;
      insensitive := false;
      nfa := new Nfa();
    }

    /** The cursor is at most one past the terminator; no state of the automaton accepts yet. */
    predicate Valid()
      reads this, nfa
    {
      pos <= |pattern| + 1 && nfa.WellFormed() && NoneAccepting(nfa.st)
    }

    /** A fragment usable for linking: both ends are states of the automaton. */
    predicate InNfa(f: Frag)
      reads nfa
    {
      0 <= f.start < |nfa.st| && 0 <= f.accept < |nfa.st|
    }

    /** `curr`: the character under the cursor; at the end, the terminator. */
    function Curr(): char
      reads this
    {
      At(pattern, pos)
    }

    /** `at_end`. */
    predicate AtEnd()
      reads this
    {
      Curr() == '\0'
    }

    /** `consume`: the character under the cursor, moving past it. */
    method Consume() returns (c: char)
      requires pos <= |pattern|
      modifies this`pos
      ensures c == At(pattern, old(pos)) && pos == old(pos) + 1
    {
      c := At(pattern, pos);
      pos := pos + 1;
    }

    /** `empty_fragment`: two new states, start then accept. */
    method EmptyFragment() returns (f: Frag)
      modifies nfa
      ensures nfa.st == old(nfa.st) + [FreshState, FreshState] && nfa.start == old(nfa.start)
      ensures f == Frag(|old(nfa.st)|, |old(nfa.st)| + 1)
    {
      var s := nfa.NewState();
      var a := nfa.NewState();
      f := Frag(s, a);
    }

    /** A literal (escaped or not): two new states joined by the character's edge, or both cases of a letter. */
    method LiteralFragment(c: char) returns (f: Frag)
      modifies nfa
      ensures f == Frag(|old(nfa.st)|, |old(nfa.st)| + 1) && nfa.start == old(nfa.start)
      ensures nfa.st == old(nfa.st) + [FreshState.(edges := LiteralEdges(c, insensitive, f.accept)), FreshState]
    {
      f := EmptyFragment();
      if insensitive && IsAlpha(c) {
        nfa.AddEdge(f.start, f.accept, CharCode(ToLower(c)));
        nfa.AddEdge(f.start, f.accept, CharCode(ToUpper(c)));
      } else {
        nfa.AddEdge(f.start, f.accept, CharCode(c));
      }
      assert nfa.st[f.start].edges == LiteralEdges(c, insensitive, f.accept);
      assert nfa.st == old(nfa.st) + [FreshState.(edges := LiteralEdges(c, insensitive, f.accept)), FreshState];
    }

    /** '.': two new states joined by one ANY edge. */
    method AnyFragment() returns (f: Frag)
      modifies nfa
      ensures f == Frag(|old(nfa.st)|, |old(nfa.st)| + 1) && nfa.start == old(nfa.start)
      ensures nfa.st == old(nfa.st) + [FreshState.(edges := [Trans(ANY, f.accept)]), FreshState]
    {
      f := EmptyFragment();
      nfa.AddEdge(f.start, f.accept, ANY);
      assert nfa.st[f.start] == FreshState.(edges := [Trans(ANY, f.accept)]);
      assert nfa.st[f.accept] == FreshState;
      assert |nfa.st| == |old(nfa.st)| + 2;
      assert nfa.st[..|old(nfa.st)|] == old(nfa.st);
      assert nfa.st == old(nfa.st) + [FreshState.(edges := [Trans(ANY, f.accept)]), FreshState];
    }

    /**
     * '*' or '+' after fragment `f`: a new start entering `f`, `f`'s accept
     * looping back to its start and leaving to a new accept; only '*' adds
     * the bypass from the new start to the new accept.
     */
    method RepeatFragment(f: Frag, star: bool) returns (res: Frag)
      requires InNfa(f) && nfa.WellFormed() && NoneAccepting(nfa.st)
      modifies nfa
      ensures res == Frag(|old(nfa.st)|, |old(nfa.st)| + 1) && nfa.start == old(nfa.start)
      ensures nfa.WellFormed() && NoneAccepting(nfa.st)
      ensures nfa.st ==
                old(nfa.st)[f.accept := old(nfa.st)[f.accept].(edges := old(nfa.st)[f.accept].edges +
                                                            [Trans(EPS, res.accept), Trans(EPS, f.start)])] +
                [FreshState.(edges := [Trans(EPS, f.start)] + (if star then [Trans(EPS, res.accept)] else [])),
                 FreshState]
    {
      res := EmptyFragment();
      RepeatEdges(f, res, star);
    }

    /** The ε-edges of a repeat around `f`, from the new start `res.start` and from `f`'s accept. */
    method RepeatEdges(f: Frag, res: Frag, star: bool)
      requires InNfa(f) && nfa.WellFormed() && NoneAccepting(nfa.st)
      requires f.accept < res.start < res.accept < |nfa.st| && nfa.st[res.start].edges == []
      modifies nfa
      ensures |nfa.st| == |old(nfa.st)| && nfa.start == old(nfa.start)
      ensures nfa.WellFormed() && NoneAccepting(nfa.st)
      ensures nfa.st[f.accept] == old(nfa.st[f.accept]).(edges := old(nfa.st[f.accept]).edges +
                                                            [Trans(EPS, res.accept), Trans(EPS, f.start)])
      ensures nfa.st[res.start] ==
                old(nfa.st[res.start]).(edges := [Trans(EPS, f.start)] + (if star then [Trans(EPS, res.accept)] else []))
      ensures forall s :: 0 <= s < |nfa.st| && s != f.accept && s != res.start ==> nfa.st[s] == old(nfa.st[s])
    {
      ghost var st0 := nfa.st;
      nfa.AddEdge(res.start, f.start, EPS);
      EdgeKeepsShape(st0, nfa.st, res.start, Trans(EPS, f.start));
      st0 := nfa.st;
      nfa.AddEdge(f.accept, res.accept, EPS);
      EdgeKeepsShape(st0, nfa.st, f.accept, Trans(EPS, res.accept));
      st0 := nfa.st;
      nfa.AddEdge(f.accept, f.start, EPS);
      EdgeKeepsShape(st0, nfa.st, f.accept, Trans(EPS, f.start));
      if star {
        st0 := nfa.st;
        nfa.AddEdge(res.start, res.accept, EPS);
        EdgeKeepsShape(st0, nfa.st, res.start, Trans(EPS, res.accept));
      }
    }

    /** The linking loop of `parse_concat`: fragment i's accept gets an ε-edge to fragment i+1's start. */
    method ChainFragments(frags: seq<Frag>)
      requires |frags| >= 1 && nfa.WellFormed() && NoneAccepting(nfa.st)
      requires forall i :: 0 <= i < |frags| ==> InNfa(frags[i])
      modifies nfa
      ensures |nfa.st| == |old(nfa.st)| && nfa.start == old(nfa.start)
      ensures nfa.WellFormed() && NoneAccepting(nfa.st)
      ensures forall s :: 0 <= s < |nfa.st| ==>
                nfa.st[s] == old(nfa.st[s]).(edges := old(nfa.st[s]).edges + Links(frags, |frags|, s))
    {
      for i := 1 to |frags|
        invariant |nfa.st| == |old(nfa.st)| && nfa.start == old(nfa.start)
        invariant nfa.WellFormed() && NoneAccepting(nfa.st)
        invariant forall s :: 0 <= s < |nfa.st| ==>
                    nfa.st[s] == old(nfa.st[s]).(edges := old(nfa.st[s]).edges + Links(frags, i, s))
      {
        ghost var before := nfa.st;
        nfa.AddEdge(frags[i - 1].accept, frags[i].start, EPS);
        LinkStep(old(nfa.st), before, nfa.st, frags, i);
      }
    }

    /** The several-branch case of `parse_alt`: a new start with an ε-edge into every branch, and out of every branch accept into a new accept. */
    method BranchFragment(branches: seq<Frag>) returns (out: Frag)
      requires nfa.WellFormed() && NoneAccepting(nfa.st)
      requires forall b :: 0 <= b < |branches| ==> InNfa(branches[b])
      modifies nfa
      ensures out == Frag(|old(nfa.st)|, |old(nfa.st)| + 1) && nfa.start == old(nfa.start)
      ensures nfa.WellFormed() && NoneAccepting(nfa.st)
      ensures |nfa.st| == |old(nfa.st)| + 2
      ensures nfa.st[out.start] == FreshState.(edges := Entries(branches)) && nfa.st[out.accept] == FreshState
      ensures forall s :: 0 <= s < |old(nfa.st)| ==>
                nfa.st[s] == old(nfa.st[s]).(edges := old(nfa.st[s]).edges + Joins(branches, |branches|, s, out.accept))
    {
      out := EmptyFragment();
      for b := 0 to |branches|
        invariant |nfa.st| == |old(nfa.st)| + 2 && nfa.start == old(nfa.start)
        invariant nfa.WellFormed() && NoneAccepting(nfa.st)
        invariant nfa.st[out.start] == FreshState.(edges := Entries(branches[..b])) && nfa.st[out.accept] == FreshState
        invariant forall s :: 0 <= s < |old(nfa.st)| ==>
                    nfa.st[s] == old(nfa.st[s]).(edges := old(nfa.st[s]).edges + Joins(branches, b, s, out.accept))
      {
        assert Entries(branches[..b + 1]) == Entries(branches[..b]) + [Trans(EPS, branches[b].start)];
        ghost var st0 := nfa.st;
        nfa.AddEdge(out.start, branches[b].start, EPS);
        EdgeKeepsShape(st0, nfa.st, out.start, Trans(EPS, branches[b].start));
        ghost var before := nfa.st;
        nfa.AddEdge(branches[b].accept, out.accept, EPS);
        EdgeKeepsShape(before, nfa.st, branches[b].accept, Trans(EPS, out.accept));
        JoinStep(old(nfa.st), before, nfa.st, branches, b, out.accept);
      }
      assert branches[..|branches|] == branches;
    }

    /**
     * `parse_regex` / `parse_alt`: reads as far as `AltShape` says, builds a
     * valid fragment on new states exactly when it says so, and leaves the
     * existing states alone. When a '|' follows the first branch the
     * fragment is a new start and accept around all the branches.
     */
    method ParseAlt() returns (f: Frag)
      requires Valid()
      modifies this`pos, nfa
      ensures Valid() && Extends(old(nfa.st), nfa.st) && nfa.start == old(nfa.start)
      ensures pos == AltShape(pattern, old(pos)).pos
      ensures AltShape(pattern, old(pos)).ok ==> InNfa(f) && Built(nfa.st, old(|nfa.st|), f)
      ensures !AltShape(pattern, old(pos)).ok ==> f.IsInvalid()
      ensures AltShape(pattern, old(pos)).ok && At(pattern, ConcatShape(pattern, old(pos)).pos) == '|' ==>
                exists branches :: Branched(nfa.st, f, branches)
      decreases |pattern| + 2 - pos, 3, 1
    {
      ghost var n0 := |nfa.st|;
      var branches, failed := CollectBranches();
      if failed {
        return InvalidFrag;
      }
      if |branches| == 1 {
        return branches[0];
      }
      ghost var orig := nfa.st;
      f := BranchFragment(branches);
      BranchEffect(orig, nfa.st, branches, f.accept, n0);
      assert Branched(nfa.st, f, branches);
    }

    /**
     * The branch loop of `parse_alt`: one concatenation, then one more after
     * each '|'; `failed` when an invalid branch meets a '|'. All but the
     * last branch are valid, each on new states after the ones before.
     */
    method CollectBranches() returns (branches: seq<Frag>, failed: bool)
      requires Valid()
      modifies this`pos, nfa
      ensures Valid() && Extends(old(nfa.st), nfa.st) && nfa.start == old(nfa.start)
      ensures failed ==> pos == AltShape(pattern, old(pos)).pos && !AltShape(pattern, old(pos)).ok
      ensures !failed ==> |branches| >= 1 && Ordered(branches)
      ensures !failed ==> AltShape(pattern, old(pos)) == Parse(!branches[|branches| - 1].IsInvalid(), pos)
      ensures !failed ==> AllBuilt(nfa.st, old(|nfa.st|), branches, |branches| - 1)
      ensures !failed && !branches[|branches| - 1].IsInvalid() ==> Built(nfa.st, old(|nfa.st|), branches[|branches| - 1])
      ensures !failed && |branches| > 1 ==> !branches[|branches| - 1].IsInvalid()
      ensures !failed && |branches| == 1 ==> At(pattern, ConcatShape(pattern, old(pos)).pos) != '|'
      decreases |pattern| + 2 - pos, 3, 0
    {
      ghost var p0 := pos;
      ghost var n0 := |nfa.st|;
      var first := ParseConcat();
      branches := [first];
      while Curr() == '|'
        invariant Valid() && Extends(old(nfa.st), nfa.st) && nfa.start == old(nfa.start) && p0 <= pos
        invariant |branches| >= 1 && Ordered(branches)
        invariant AltLoop(pattern, pos, !branches[|branches| - 1].IsInvalid()) == AltShape(pattern, p0)
        invariant AllBuilt(nfa.st, n0, branches, |branches| - 1)
        invariant !branches[|branches| - 1].IsInvalid() ==> Built(nfa.st, n0, branches[|branches| - 1])
        invariant |branches| > 1 ==> !branches[|branches| - 1].IsInvalid()
        invariant |branches| == 1 ==> pos == ConcatShape(pattern, p0).pos
        decreases |pattern| + 2 - pos
      {
        var more, stop := NextBranch(n0, branches);
        if stop {
          return branches, true;
        }
        branches := more;
      }
      failed := false;
    }

    /**
     * One round of the `'|' concat` loop: consumes the '|' and parses the
     * next branch; `stop` when it or the branch before it is invalid.
     */
    method NextBranch(ghost n0: nat, branches: seq<Frag>) returns (more: seq<Frag>, stop: bool)
      requires Valid() && Curr() == '|' && |branches| >= 1 && Ordered(branches)
      requires AllBuilt(nfa.st, n0, branches, |branches| - 1)
      requires !branches[|branches| - 1].IsInvalid() ==> Built(nfa.st, n0, branches[|branches| - 1])
      modifies this`pos, nfa
      ensures Valid() && Extends(old(nfa.st), nfa.st) && nfa.start == old(nfa.start) && old(pos) < pos
      ensures stop ==> Parse(false, pos) == AltLoop(pattern, old(pos), !branches[|branches| - 1].IsInvalid())
      ensures !stop ==> AltLoop(pattern, pos, true) == AltLoop(pattern, old(pos), !branches[|branches| - 1].IsInvalid())
      ensures !stop ==> |more| == |branches| + 1 && Ordered(more) && AllBuilt(nfa.st, n0, more, |more| - 1)
      ensures !stop ==> !more[|more| - 1].IsInvalid() && Built(nfa.st, n0, more[|more| - 1])
      decreases |pattern| + 2 - pos, 2, 9
    {
      more := branches;
      var _ := Consume();
      ghost var before := nfa.st;
      var next := ParseConcat();
      if branches[|branches| - 1].IsInvalid() || next.IsInvalid() {
        return branches, true;
      }
      stop := false;
      OrderedSnoc(branches, next, |before|);
      AllBuiltExtends(before, nfa.st, n0, branches, |branches|);
      AllBuiltSnoc(nfa.st, n0, branches, next);
      more := branches + [next];
    }

    /**
     * `parse_concat`: the repeats up to the first invalid one, linked in
     * order on new states; none gives invalid.
     */
    method ParseConcat() returns (f: Frag)
      requires Valid()
      modifies this`pos, nfa
      ensures Valid() && Extends(old(nfa.st), nfa.st) && nfa.start == old(nfa.start)
      ensures pos == ConcatShape(pattern, old(pos)).pos
      ensures ConcatShape(pattern, old(pos)).ok ==>
                InNfa(f) && Built(nfa.st, old(|nfa.st|), f) && exists frags :: Chained(nfa.st, f, frags)
      ensures !ConcatShape(pattern, old(pos)).ok ==> f.IsInvalid()
      decreases |pattern| + 2 - pos, 2, 1
    {
      ghost var n0 := |nfa.st|;
      var frags := CollectRepeats();
      if frags == [] {
        return InvalidFrag;
      }
      ghost var orig := nfa.st;
      ChainFragments(frags);
      ChainEffect(orig, nfa.st, frags, n0);
      ChainBuilt(orig, nfa.st, frags, n0);
      ChainBelow(orig, nfa.st, frags, n0);
      f := Frag(frags[0].start, frags[|frags| - 1].accept);
    }

    /** The loop of `parse_concat`: the repeats read up to the first invalid one, each on new states after the ones before. */
    method CollectRepeats() returns (frags: seq<Frag>)
      requires Valid()
      modifies this`pos, nfa
      ensures Valid() && Extends(old(nfa.st), nfa.st) && nfa.start == old(nfa.start)
      ensures ConcatShape(pattern, old(pos)) == Parse(|frags| > 0, pos)
      ensures forall i :: 0 <= i < |frags| ==> InNfa(frags[i]) && Built(nfa.st, old(|nfa.st|), frags[i])
      ensures Ordered(frags)
      decreases |pattern| + 2 - pos, 2, 0
    {
      ghost var p0 := pos;
      ghost var n0 := |nfa.st|;
      frags := [];
      while true
        invariant Valid() && Extends(old(nfa.st), nfa.st) && nfa.start == old(nfa.start) && p0 <= pos
        invariant ConcatLoop(pattern, pos, |frags|) == ConcatShape(pattern, p0)
        invariant forall i :: 0 <= i < |frags| ==> InNfa(frags[i]) && Built(nfa.st, n0, frags[i])
        invariant Ordered(frags)
        decreases |pattern| + 2 - pos
      {
        ghost var m := |nfa.st|;
        var next := ParseRepeat();
        if next.IsInvalid() {
          return;
        }
        OrderedSnoc(frags, next, m);
        frags := frags + [next];
      }
    }

    /**
     * `parse_repeat`: an atom followed by any run of '*' and '+', each
     * wrapping the fragment so far; the result wraps the one before it for
     * the last operator read.
     */
    method ParseRepeat() returns (f: Frag)
      requires Valid()
      modifies this`pos, nfa
      ensures Valid() && Extends(old(nfa.st), nfa.st) && nfa.start == old(nfa.start)
      ensures pos == RepeatShape(pattern, old(pos)).pos
      ensures RepeatShape(pattern, old(pos)).ok ==> InNfa(f) && Built(nfa.st, old(|nfa.st|), f)
      ensures !RepeatShape(pattern, old(pos)).ok ==> f.IsInvalid()
      ensures RepeatShape(pattern, old(pos)).ok && pos > AtomShape(pattern, old(pos)).pos ==>
                WrappedBy(nfa.st, f, At(pattern, pos - 1))
      decreases |pattern| + 2 - pos, 1
    {
      ghost var n0 := |nfa.st|;
      f := ParseAtom();
      if f.IsInvalid() {
        return;
      }
      f := WrapRepeats(f, n0);
    }

    /** The operator loop of `parse_repeat`: wraps `f` once for each '*' or '+' under the cursor. */
    method WrapRepeats(f0: Frag, ghost n0: nat) returns (f: Frag)
      requires Valid() && InNfa(f0) && Built(nfa.st, n0, f0)
      modifies this`pos, nfa
      ensures Valid() && Keeps(old(nfa.st), nfa.st, n0) && nfa.start == old(nfa.start)
      ensures pos == StarsEnd(pattern, old(pos))
      ensures InNfa(f) && Built(nfa.st, n0, f)
      ensures pos > old(pos) ==> WrappedBy(nfa.st, f, At(pattern, pos - 1))
    {
      f := f0;
      ghost var inner := f;
      while true
        invariant Valid() && Keeps(old(nfa.st), nfa.st, n0) && nfa.start == old(nfa.start)
        invariant old(pos) <= pos && StarsEnd(pattern, pos) == StarsEnd(pattern, old(pos)) && InNfa(f) && Built(nfa.st, n0, f)
        invariant pos > old(pos) ==> Wraps(nfa.st, f, inner, At(pattern, pos - 1))
        decreases |pattern| + 1 - pos
      {
        var c := Curr();
        if c == '*' || c == '+' {
          var _ := Consume();
          ghost var g := f;
          f := RepeatFragment(f, c == '*');
          inner := g;
        } else {
          break;
        }
      }
    }

    /**
     * `parse_atom`: a parenthesised alternation (invalid unless closed),
     * '.', an escaped character or a literal; nothing on '\0', '|' or ')'.
     * '.' and a literal are two new states joined by their edges.
     */
    method ParseAtom() returns (f: Frag)
      requires Valid()
      modifies this`pos, nfa
      ensures Valid() && Extends(old(nfa.st), nfa.st) && nfa.start == old(nfa.start)
      ensures pos == AtomShape(pattern, old(pos)).pos
      ensures AtomShape(pattern, old(pos)).ok ==> InNfa(f) && Built(nfa.st, old(|nfa.st|), f)
      ensures !AtomShape(pattern, old(pos)).ok ==> f.IsInvalid()
      ensures At(pattern, old(pos)) == '.' ==>
                f == Frag(old(|nfa.st|), old(|nfa.st|) + 1)
                && nfa.st == old(nfa.st) + [FreshState.(edges := [Trans(ANY, f.accept)]), FreshState]
      ensures At(pattern, old(pos)) !in {'\0', '|', ')', '(', '.'} ==>
                f == Frag(old(|nfa.st|), old(|nfa.st|) + 1)
                && nfa.st == old(nfa.st) + [FreshState.(edges := LiteralEdges(Literal(pattern, old(pos)), insensitive, f.accept)), FreshState]
      decreases |pattern| + 2 - pos, 0
    {
      var c := Curr();
      if c == '\0' || c == '|' || c == ')' {
        return InvalidFrag;
      }
      if c == '(' {
        var _ := Consume();
        f := ParseAlt();
        if Curr() != ')' {
          return InvalidFrag;
        }
        var _ := Consume();
        return;
      }
      if c == '.' {
        var _ := Consume();
        f := AnyFragment();
        return;
      }
      if c == '\\' {
        var _ := Consume();
        c := Consume();
      } else {
        var _ := Consume();
      }
      f := LiteralFragment(c);
    }
  }

  /**
   * `a` is the one state that can accept: it is not the start, no edge
   * leaves it, and it carries (token, priority) when that priority is below
   * INT_MAX; every other state is non-accepting.
   */
  predicate SoleAccept(st: seq<NfaState>, start: int, a: int, token: int, priority: int)
  {
    0 <= a < |st| && a != start && st[a].edges == []
    && (forall s :: 0 <= s < |st| && s != a ==> st[s].token == -1 && st[s].priority == INT_MAX)
    && (priority < INT_MAX ==> st[a].token == token && st[a].priority == priority)
    && (priority >= INT_MAX ==> st[a].token == -1 && st[a].priority == INT_MAX)
  }

  class Regex {
    const pattern: string

    constructor (pattern: string)
      ensures this.pattern == pattern
    {
      this.pattern := pattern;
    }

    /**
     * `compile`: the automaton of the pattern, started at the fragment's
     * start with its accept marked (token, priority); an error when the
     * pattern does not parse or input is left over.
     */
    method Compile(token: int, priority: int) returns (r: Result<Nfa>)
      ensures r.Err? <==> !Accepts(pattern)
      ensures r.Err? ==> r.msg == "Invalid regex pattern: " + pattern
      ensures r.Ok? ==> fresh(r.value) && r.value.WellFormed() && 0 <= r.value.start < |r.value.st|
      ensures r.Ok? ==> forall s :: 0 <= s < |r.value.st| && r.value.st[s].token != -1 ==>
                          r.value.st[s].token == token && r.value.st[s].priority == priority
      ensures r.Ok? && priority < INT_MAX ==>
                exists s :: 0 <= s < |r.value.st| && r.value.st[s].token == token && r.value.st[s].priority == priority
      ensures r.Ok? ==> exists a :: SoleAccept(r.value.st, r.value.start, a, token, priority)
    {
      var parser := new RegexParser(pattern);
      if At(pattern, 0) == '?' && At(pattern, 1) == 'i' && At(pattern, 2) == ':' {
        parser.insensitive := true;
        parser.pos := 3;
      }
      assert parser.pos == PrefixEnd(pattern);
      var frag := parser.ParseAlt();
      if frag.IsInvalid() || !parser.AtEnd() {
        return Err("Invalid regex pattern: " + pattern);
      }
      parser.nfa.SetStart(frag.start);
      parser.nfa.SetAccept(frag.accept, token, priority);
      assert SoleAccept(parser.nfa.st, parser.nfa.start, frag.accept, token, priority);
      r := Ok(parser.nfa);
    }
  }
}
