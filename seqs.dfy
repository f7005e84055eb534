/** Sequence helpers shared by the components: occurrence counts, the
    first-seen de-duplication that `[...new Set(xs)]` performs, and
    flattening of nested lists. */
module Seqs {

  /** No element occurs twice. */
  predicate NoDup<T(==)>(s: seq<T>) {
    forall i, j :: 0 <= i < j < |s| ==> s[i] != s[j]
  }

  /** Number of occurrences of `x` in `s`. */
  function Count<T(==)>(s: seq<T>, x: T): (n: nat)
    ensures n <= |s|
    ensures n > 0 <==> x in s
  {
    if |s| == 0 then 0
    else
      assert s == s[..|s| - 1] + [s[|s| - 1]];
      Count(s[..|s| - 1], x) + (if s[|s| - 1] == x then 1 else 0)
  }

  /** Appending `x` adds one occurrence of `x` and none of anything else. */
  lemma CountSnoc<T>(s: seq<T>, x: T, y: T)
    ensures Count(s + [x], y) == Count(s, y) + (if x == y then 1 else 0)
  {
    assert (s + [x])[..|s|] == s;
  }

  /** Position of the first occurrence of `x` in `s`. */
  function IndexOf<T(==)>(s: seq<T>, x: T): (i: nat)
    requires x in s
    ensures i < |s| && s[i] == x
    ensures forall k :: 0 <= k < i ==> s[k] != x
  {
    if s[0] == x then 0 else 1 + IndexOf(s[1..], x)
  }

  /** The distinct elements of `s` in order of first occurrence: what
      `[...new Set(s)]` yields in JavaScript. */
  function Dedup<T(==)>(s: seq<T>): (r: seq<T>)
    ensures NoDup(r)
    ensures forall k :: 0 <= k < |r| ==> r[k] in s
    ensures forall k :: 0 <= k < |s| ==> s[k] in r
    ensures |r| <= |s|
  {
    if |s| == 0 then []
    else
      var d := Dedup(s[..|s| - 1]);
      var x := s[|s| - 1];
      assert forall k :: 0 <= k < |s| - 1 ==> s[k] == s[..|s| - 1][k];
      if x in d then d else d + [x]
  }

  /** Appending `x` appends it to the de-duplication when it is new. */
  lemma DedupSnoc<T>(s: seq<T>, x: T)
    ensures Dedup(s + [x]) == if x in Dedup(s) then Dedup(s) else Dedup(s) + [x]
  {
    assert (s + [x])[..|s|] == s;
  }

  /** De-duplication keeps elements in the order of their first occurrence. */
  lemma {:induction false} DedupFirstSeenOrder<T>(s: seq<T>, i: nat, j: nat)
    requires i < j < |Dedup(s)|
    ensures IndexOf(s, Dedup(s)[i]) < IndexOf(s, Dedup(s)[j])
  {
    var n := |s| - 1;
    var p := s[..n];
    var d := Dedup(p);
    assert s == p + [s[n]];
    if s[n] in d {
      DedupFirstSeenOrder(p, i, j);
      IndexOfPrefix(p, s, Dedup(s)[i]);
      IndexOfPrefix(p, s, Dedup(s)[j]);
    } else {
      IndexOfPrefix(p, s, Dedup(s)[i]);
      if j < |d| {
        DedupFirstSeenOrder(p, i, j);
        IndexOfPrefix(p, s, Dedup(s)[j]);
      } else {
        assert Dedup(s)[j] == s[n];
        assert s[n] !in p;
        assert IndexOf(s, s[n]) == n by {
          forall k | 0 <= k < n ensures s[k] != s[n] { assert s[k] == p[k]; }
        }
      }
    }
  }

  /** The first occurrence in a prefix is the first occurrence overall. */
  lemma IndexOfPrefix<T>(p: seq<T>, s: seq<T>, x: T)
    requires p <= s && x in p
    ensures x in s && IndexOf(s, x) == IndexOf(p, x)
  {
    var k := IndexOf(p, x);
    assert s[k] == x;
  }

  /** A sequence without duplicates is its own de-duplication. */
  lemma {:induction false} DedupOfDistinct<T>(s: seq<T>)
    requires NoDup(s)
    ensures Dedup(s) == s
  {
    if |s| > 0 {
      var p := s[..|s| - 1];
      assert NoDup(p);
      DedupOfDistinct(p);
      assert s[|s| - 1] !in p;
    }
  }

  /** An element is in the de-duplication exactly when it is in the list. */
  lemma DedupMembership<T>(s: seq<T>, x: T)
    ensures x in Dedup(s) <==> x in s
  {
    if x in Dedup(s) {
      var k :| 0 <= k < |Dedup(s)| && Dedup(s)[k] == x;
    }
    if x in s {
      var k :| 0 <= k < |s| && s[k] == x;
    }
  }

  /** An element occurs at most once in a duplicate-free list. */
  lemma {:induction false} NoDupMultiplicity<T>(s: seq<T>, x: T)
    requires NoDup(s)
    ensures multiset(s)[x] <= 1
  {
    if |s| > 0 {
      assert s == [s[0]] + s[1..];
      assert NoDup(s[1..]);
      NoDupMultiplicity(s[1..], x);
      if x == s[0] { assert x !in s[1..]; }
    }
  }

  /** A rearrangement of a duplicate-free list is duplicate-free. */
  lemma PermutationNoDup<T>(s: seq<T>, t: seq<T>)
    requires multiset(s) == multiset(t) && NoDup(t)
    ensures NoDup(s)
  {
    forall i, j | 0 <= i < j < |s| ensures s[i] != s[j] {
      if s[i] == s[j] {
        assert s == s[..i] + [s[i]] + s[i + 1..j] + [s[j]] + s[j + 1..];
        assert multiset(s)[s[i]] >= 2;
        NoDupMultiplicity(t, s[i]);
      }
    }
  }

  /** Concatenation of a list of lists, built front to back. */
  function Flatten<T>(gs: seq<seq<T>>): (r: seq<T>)
    ensures |r| == TotalLength(gs)
  {
    if |gs| == 0 then [] else Flatten(gs[..|gs| - 1]) + gs[|gs| - 1]
  }

  /** Sum of the lengths of the inner lists. */
  function TotalLength<T>(gs: seq<seq<T>>): nat {
    if |gs| == 0 then 0 else TotalLength(gs[..|gs| - 1]) + |gs[|gs| - 1]|
  }

  /** Flattening keeps every inner element, in order. */
  lemma {:induction false} FlattenMembership<T>(gs: seq<seq<T>>, x: T)
    ensures x in Flatten(gs) <==> exists g :: g in gs && x in g
  {
    if |gs| > 0 {
      var p := gs[..|gs| - 1];
      FlattenMembership(p, x);
      assert gs == p + [gs[|gs| - 1]];
      assert forall g :: g in gs <==> g in p || g == gs[|gs| - 1];
    }
  }
}
