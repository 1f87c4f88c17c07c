// Shared vocabulary of the front end model: error wrappers, the C++ `int`
// limits, duplicate-free and sorted sequences, and the finiteness facts
// that the work-list loops of the automata constructions terminate by.
module Common {

  /** The limits of a 32-bit C++ `int`. */
  const INT_MAX: int := 0x7fff_ffff
  const INT_MIN: int := -0x8000_0000

  predicate IsInt32(x: int) { INT_MIN <= x <= INT_MAX }

  /**
   * The value of a (signed, 8-bit) C++ `char` holding character `c`: text
   * is modelled as strings of byte-valued characters, so bytes 128 .. 255
   * read as -128 .. -1.
   */
  function CharCode(c: char): (r: int)
    ensures -128 <= r < 128
    ensures c as int < 128 ==> r == c as int
  {
    (c as int + 128) % 256 - 128
  }

  datatype Option<+T> = None | Some(value: T)

  /** A value, or the message of the exception the source throws instead. */
  datatype Result<+T> = Ok(value: T) | Err(msg: string)

  function Elems<T>(s: seq<T>): set<T> { set x | x in s }

  lemma ElemsSnoc<T>(s: seq<T>, x: T)
    ensures Elems(s + [x]) == Elems(s) + {x}
  {
  }

  lemma ElemsAppend<T>(a: seq<T>, b: seq<T>)
    ensures Elems(a + b) == Elems(a) + Elems(b)
  {
  }

  predicate NoDup<T(==)>(s: seq<T>) {
    forall i, j :: 0 <= i < j < |s| ==> s[i] != s[j]
  }

  lemma NoDupAppend<T>(a: seq<T>, b: seq<T>)
    requires NoDup(a) && NoDup(b) && Elems(a) * Elems(b) == {}
    ensures NoDup(a + b)
  {
    forall i, j | 0 <= i < j < |a + b| ensures (a + b)[i] != (a + b)[j] {
      if j < |a| {
        assert (a + b)[i] == a[i] && (a + b)[j] == a[j];
      } else if i >= |a| {
        assert (a + b)[i] == b[i - |a|] && (a + b)[j] == b[j - |a|];
      } else {
        assert (a + b)[i] == a[i] && (a + b)[j] == b[j - |a|];
        assert a[i] in Elems(a) && b[j - |a|] in Elems(b);
        assert a[i] !in Elems(a) * Elems(b) ==> a[i] != b[j - |a|];
      }
    }
  }

  predicate Sorted(s: seq<int>) {
    forall i, j :: 0 <= i < j < |s| ==> s[i] <= s[j]
  }

  predicate StrictlySorted(s: seq<int>) {
    forall i, j :: 0 <= i < j < |s| ==> s[i] < s[j]
  }

  /** The state numbers 0 .. n - 1 of an n-state automaton. */
  function IntRange(n: nat): (r: set<int>)
    ensures forall i :: i in r <==> 0 <= i < n
    ensures |r| == n
  {
    if n == 0 then {} else IntRange(n - 1) + {n - 1}
  }

  // ---------------------------------------------------------------------
  // Sorting (std::ranges::sort on a vector<int>)
  // ---------------------------------------------------------------------

  function Insert(x: int, s: seq<int>): (r: seq<int>)
    requires Sorted(s)
    ensures Sorted(r) && multiset(r) == multiset(s) + multiset{x}
  {
    if s == [] then [x]
    else if x <= s[0] then [x] + s
    else
      var rest := Insert(x, s[1..]);
      InsertStep(x, s, rest);
      [s[0]] + rest
  }

  lemma InsertStep(x: int, s: seq<int>, rest: seq<int>)
    requires Sorted(s) && s != [] && s[0] < x
    requires Sorted(rest) && multiset(rest) == multiset(s[1..]) + multiset{x}
    ensures Sorted([s[0]] + rest) && multiset([s[0]] + rest) == multiset(s) + multiset{x}
  {
    assert s == [s[0]] + s[1..];
    assert multiset(rest) == multiset(s[1..] + [x]);
    LowerBound(s[0], s[1..] + [x], rest);
  }

  lemma LowerBound(lo: int, t: seq<int>, r: seq<int>)
    requires multiset(r) == multiset(t) && forall k :: 0 <= k < |t| ==> lo <= t[k]
    ensures forall k :: 0 <= k < |r| ==> lo <= r[k]
  {
    forall k | 0 <= k < |r| ensures lo <= r[k] {
      assert r[k] in multiset(t);
    }
  }

  /** The ascending arrangement of `s`, as std::ranges::sort leaves a vector. */
  function Sort(s: seq<int>): (r: seq<int>)
    ensures Sorted(r) && multiset(r) == multiset(s)
  {
    if s == [] then []
    else
      assert s == [s[0]] + s[1..];
      Insert(s[0], Sort(s[1..]))
  }

  lemma MultisetElems(a: seq<int>, b: seq<int>)
    requires multiset(a) == multiset(b)
    ensures Elems(a) == Elems(b)
  {
    forall x ensures x in a <==> x in b {
      assert x in a <==> x in multiset(a);
      assert x in b <==> x in multiset(b);
    }
  }

  lemma NoDupMultiset(a: seq<int>, b: seq<int>)
    requires multiset(a) == multiset(b) && NoDup(a)
    ensures NoDup(b)
  {
    forall i, j | 0 <= i < j < |b| ensures b[i] != b[j] {
      if b[i] == b[j] {
        var k := b[i];
        assert multiset(b[..j])[k] >= 1 by { assert b[..j][i] == k; }
        assert b == b[..j] + [b[j]] + b[j + 1..];
        assert multiset(b)[k] >= 2;
        NoDupCount(a, k);
        assert false;
      }
    }
  }

  lemma {:induction false} NoDupCount(a: seq<int>, k: int)
    requires NoDup(a)
    ensures multiset(a)[k] <= 1
  {
    if a != [] {
      assert a == [a[0]] + a[1..];
      NoDupCount(a[1..], k);
      if a[0] == k {
        assert k !in a[1..];
      }
    }
  }

  /** Sorting a duplicate-free sequence yields a strictly increasing one with the same elements. */
  lemma SortStrict(s: seq<int>)
    requires NoDup(s)
    ensures StrictlySorted(Sort(s)) && Elems(Sort(s)) == Elems(s) && NoDup(Sort(s))
  {
    var r := Sort(s);
    NoDupMultiset(s, r);
    MultisetElems(s, r);
  }

  /** Sorting a sequence that is already ascending changes nothing. */
  lemma {:induction false} SortSortedIdentity(s: seq<int>)
    requires Sorted(s)
    ensures Sort(s) == s
  {
    if s != [] {
      assert s == [s[0]] + s[1..];
      SortSortedIdentity(s[1..]);
      assert Sort(s[1..]) == s[1..];
      assert Sort(s) == Insert(s[0], s[1..]);
      if s[1..] != [] {
        assert s[0] <= s[1..][0];
      }
    }
  }

  lemma ElemsEmpty<T>(s: seq<T>)
    ensures Elems(s) == {} <==> s == []
  {
    if s != [] {
      assert s[0] in Elems(s);
    }
  }

  /** Two strictly increasing sequences with the same elements are equal. */
  lemma {:induction false} StrictlySortedUnique(a: seq<int>, b: seq<int>)
    requires StrictlySorted(a) && StrictlySorted(b) && Elems(a) == Elems(b)
    ensures a == b
  {
    ElemsEmpty(a);
    ElemsEmpty(b);
    if a != [] && b != [] {
      assert a[0] in Elems(b) && b[0] in Elems(a);
      var j :| 0 <= j < |b| && b[j] == a[0];
      assert b[0] <= a[0];
      var i :| 0 <= i < |a| && a[i] == b[0];
      assert a[0] <= b[0];
      assert Elems(a[1..]) == Elems(a) - {a[0]} by {
        assert a == [a[0]] + a[1..];
      }
      assert Elems(b[1..]) == Elems(b) - {b[0]} by {
        assert b == [b[0]] + b[1..];
      }
      StrictlySortedUnique(a[1..], b[1..]);
      assert a == [a[0]] + a[1..] && b == [b[0]] + b[1..];
    }
  }

  lemma StrictlySortedInjective(a: seq<int>, b: seq<int>)
    requires StrictlySorted(a) && StrictlySorted(b)
    ensures Elems(a) == Elems(b) ==> a == b
  {
    if Elems(a) == Elems(b) {
      StrictlySortedUnique(a, b);
    }
  }

  // ---------------------------------------------------------------------
  // Finiteness arguments for the work-list loops
  // ---------------------------------------------------------------------

  /** Every set of state numbers below n: the possible subsets of an n-state automaton. */
  ghost function Subsets(n: nat): set<set<int>>
  {
    set a: set<int> | a <= IntRange(n)
  }

  /** A growing collection of distinct subsets of the n states is bounded. */
  lemma SubsetsBound(seen: set<set<int>>, n: nat)
    requires seen <= Subsets(n)
    ensures |seen| <= |Subsets(n)|
  {
    SubsetSize(seen, Subsets(n));
  }

  function UnionAll(gs: seq<set<int>>): set<int>
  {
    if gs == [] then {} else UnionAll(gs[..|gs| - 1]) + gs[|gs| - 1]
  }

  lemma {:induction false} UnionAllSize(gs: seq<set<int>>)
    requires forall g :: 0 <= g < |gs| ==> gs[g] != {}
    requires forall g1, g2 :: 0 <= g1 < g2 < |gs| ==> gs[g1] * gs[g2] == {}
    ensures |UnionAll(gs)| >= |gs|
    ensures forall g :: 0 <= g < |gs| ==> gs[g] <= UnionAll(gs)
  {
    if gs != [] {
      var init := gs[..|gs| - 1];
      var last := gs[|gs| - 1];
      UnionAllSize(init);
      assert UnionAll(init) * last == {} by {
        forall x | x in UnionAll(init) ensures x !in last {
          UnionAllMember(init, x);
          var g :| 0 <= g < |init| && x in init[g];
          assert x in gs[g];
          assert gs[g] * gs[|gs| - 1] == {};
          assert x !in gs[g] * gs[|gs| - 1];
        }
      }
      assert |UnionAll(gs)| == |UnionAll(init)| + |last|;
    }
  }

  lemma {:induction false} UnionAllMember(gs: seq<set<int>>, x: int)
    requires x in UnionAll(gs)
    ensures exists g :: 0 <= g < |gs| && x in gs[g]
  {
    var init := gs[..|gs| - 1];
    if x !in gs[|gs| - 1] {
      UnionAllMember(init, x);
      var g :| 0 <= g < |init| && x in init[g];
      assert x in gs[g];
    }
  }

  /**
   * Pairwise disjoint, non-empty sets of states below n number at most n:
   * a partition of the states of an n-state automaton has at most n groups.
   */
  lemma DisjointGroupsBound(gs: seq<set<int>>, n: nat)
    requires forall g :: 0 <= g < |gs| ==> gs[g] != {} && gs[g] <= IntRange(n)
    requires forall g1, g2 :: 0 <= g1 < g2 < |gs| ==> gs[g1] * gs[g2] == {}
    ensures |gs| <= n
  {
    UnionAllSize(gs);
    assert UnionAll(gs) <= IntRange(n) by {
      forall x | x in UnionAll(gs) ensures x in IntRange(n) {
        UnionAllMember(gs, x);
      }
    }
    assert |UnionAll(gs)| <= |IntRange(n)| by {
      SubsetSize(UnionAll(gs), IntRange(n));
    }
  }

  lemma Pick(s: set<int>) returns (x: int)
    requires s != {}
    ensures x in s
  {
    if forall y :: y !in s {
      assert false;
    }
    x :| x in s;
  }

  lemma SubsetSize<T>(a: set<T>, b: set<T>)
    requires a <= b
    ensures |a| <= |b|
  {
    assert b == a + (b - a);
  }

  lemma ProperSubsetSize<T>(a: set<T>, b: set<T>, x: T)
    requires a <= b && x in b && x !in a
    ensures |a| < |b|
  {
    assert b == a + (b - a);
    assert x in b - a;
  }
}
