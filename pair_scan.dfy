/** The pairwise scan shared by the drink network graphs: for every pair
    of positions `i < j`, the elements of list `i` that also occur in list
    `j`, and a link when there is at least one. */
module PairScan {

  /** `a.filter(x => b.includes(x))`. */
  function Common<T(==)>(a: seq<T>, b: seq<T>): (r: seq<T>)
    ensures |r| <= |a|
  {
    if |a| == 0 then [] else (if a[0] in b then [a[0]] else []) + Common(a[1..], b)
  }

  /** The common elements are exactly the elements of `a` found in `b`. */
  lemma {:induction false} CommonMembers<T>(a: seq<T>, b: seq<T>)
    ensures forall k :: 0 <= k < |Common(a, b)| ==> Common(a, b)[k] in a && Common(a, b)[k] in b
    ensures forall k :: 0 <= k < |a| && a[k] in b ==> a[k] in Common(a, b)
  {
    if |a| > 0 {
      CommonMembers(a[1..], b);
      assert forall k :: 0 < k < |a| ==> a[k] == a[1..][k - 1];
    }
  }

  /** The filter keeps list `a`'s order: it distributes over concatenation. */
  lemma {:induction false} CommonAppend<T>(a1: seq<T>, a2: seq<T>, b: seq<T>)
    ensures Common(a1 + a2, b) == Common(a1, b) + Common(a2, b)
  {
    if |a1| > 0 {
      CommonAppend(a1[1..], a2, b);
      assert (a1 + a2)[1..] == a1[1..] + a2;
    } else {
      assert a1 + a2 == a2;
    }
  }

  /** Two lists have common elements exactly when they share an element. */
  lemma CommonNonEmpty<T>(a: seq<T>, b: seq<T>)
    ensures |Common(a, b)| > 0 <==> exists k :: 0 <= k < |a| && a[k] in b
  {
    CommonMembers(a, b);
    if |Common(a, b)| > 0 {
      var x := Common(a, b)[0];
      var k :| 0 <= k < |a| && a[k] == x;
    }
  }

  datatype Pair<T> = Pair(i: nat, j: nat, common: seq<T>)

  /** The link for positions `i` and `j`, if their lists share elements. */
  function LinkFor<T(==)>(lists: seq<seq<T>>, i: nat, j: nat): seq<Pair<T>>
    requires i < |lists| && j < |lists|
  {
    var common := Common(lists[i], lists[j]);
    if |common| > 0 then [Pair(i, j, common)] else []
  }

  /** The links `(i, j')` for `i < j' < j`, in order of `j'`. */
  function Row<T(==)>(lists: seq<seq<T>>, i: nat, j: nat): seq<Pair<T>>
    requires i < j <= |lists|
    decreases j
  {
    if j == i + 1 then [] else Row(lists, i, j - 1) + LinkFor(lists, i, j - 1)
  }

  /** The links of the rows before row `i`. */
  function Rows<T(==)>(lists: seq<seq<T>>, i: nat): seq<Pair<T>>
    requires i <= |lists|
  {
    if i == 0 then [] else Rows(lists, i - 1) + Row(lists, i - 1, |lists|)
  }

  /** Link `p` joins two positions `i < j` and carries the common
      elements of their lists, which are never empty. */
  predicate Linked<T(==)>(lists: seq<seq<T>>, p: Pair<T>) {
    p.i < p.j < |lists| && p.common == Common(lists[p.i], lists[p.j]) && |p.common| > 0
  }

  /** The lexicographic order of links by `(i, j)`. */
  predicate LexLess<T>(p: Pair<T>, q: Pair<T>) {
    p.i < q.i || (p.i == q.i && p.j < q.j)
  }

  /** All the links of the scan. */
  function Pairs<T(==)>(lists: seq<seq<T>>): seq<Pair<T>> {
    Rows(lists, |lists|)
  }

  /** The nested `for` loops that push into `links`. */
  method Scan<T(==)>(lists: seq<seq<T>>) returns (links: seq<Pair<T>>)
    ensures links == Pairs(lists)
  {
    links := [];
    for i := 0 to |lists|
      invariant links == Rows(lists, i)
    {
      var row := ScanRow(lists, i);
      links := links + row;
    }
  }

  /** The inner loop: the links from position `i` to every later one. */
  method ScanRow<T(==)>(lists: seq<seq<T>>, i: nat) returns (row: seq<Pair<T>>)
    requires i < |lists|
    ensures row == Row(lists, i, |lists|)
  {
    row := [];
    for j := i + 1 to |lists|
      invariant row == Row(lists, i, j)
    {
      var common := Common(lists[i], lists[j]);
      if |common| > 0 {
        row := row + [Pair(i, j, common)];
      }
    }
  }

  /** A row holds at most one link per later position. */
  lemma {:induction false} RowLength<T>(lists: seq<seq<T>>, i: nat, j: nat)
    requires i < j <= |lists|
    ensures |Row(lists, i, j)| <= j - i - 1
  {
    if j > i + 1 { RowLength(lists, i, j - 1); }
  }

  /** Every link of row `i` starts at `i` and ends after `i`, before `j`. */
  lemma {:induction false} RowIndices<T>(lists: seq<seq<T>>, i: nat, j: nat)
    requires i < j <= |lists|
    ensures forall k :: 0 <= k < |Row(lists, i, j)| ==> Row(lists, i, j)[k].i == i && i < Row(lists, i, j)[k].j < j
  {
    if j > i + 1 {
      RowIndices(lists, i, j - 1);
      assert Row(lists, i, j) == Row(lists, i, j - 1) + LinkFor(lists, i, j - 1);
    }
  }

  /** Every link of a row carries the common elements of its two lists,
      which are never empty. */
  lemma {:induction false} RowLinked<T>(lists: seq<seq<T>>, i: nat, j: nat)
    requires i < j <= |lists|
    ensures forall k :: 0 <= k < |Row(lists, i, j)| ==> Linked(lists, Row(lists, i, j)[k])
  {
    if j > i + 1 {
      RowLinked(lists, i, j - 1);
      RowIndices(lists, i, j - 1);
      assert Row(lists, i, j) == Row(lists, i, j - 1) + LinkFor(lists, i, j - 1);
    }
  }

  /** A row lists its links in increasing order of the later position. */
  lemma {:induction false} RowOrdered<T>(lists: seq<seq<T>>, i: nat, j: nat)
    requires i < j <= |lists|
    ensures forall a, b :: 0 <= a < b < |Row(lists, i, j)| ==> Row(lists, i, j)[a].j < Row(lists, i, j)[b].j
  {
    if j > i + 1 {
      RowOrdered(lists, i, j - 1);
      RowIndices(lists, i, j - 1);
      var prev := Row(lists, i, j - 1);
      var row := prev + LinkFor(lists, i, j - 1);
      assert Row(lists, i, j) == row;
      forall a, b | 0 <= a < b < |row|
        ensures row[a].j < row[b].j
      {
        if b >= |prev| {
          assert a < |prev| && row[a] == prev[a] && row[b].j == j - 1;
        } else {
          assert row[a] == prev[a] && row[b] == prev[b];
        }
      }
    }
  }

  /** The links of the rows before row `i` start before `i`. */
  lemma {:induction false} RowsIndices<T>(lists: seq<seq<T>>, i: nat)
    requires i <= |lists|
    ensures forall k :: 0 <= k < |Rows(lists, i)| ==> Rows(lists, i)[k].i < i
  {
    if i > 0 {
      RowsIndices(lists, i - 1);
      RowIndices(lists, i - 1, |lists|);
      var prev: seq<Pair<T>> := Rows(lists, i - 1);
      var row: seq<Pair<T>> := Row(lists, i - 1, |lists|);
      assert Rows(lists, i) == prev + row;
      forall k | 0 <= k < |prev + row|
        ensures (prev + row)[k].i < i
      {
        if k < |prev| { assert (prev + row)[k] == prev[k]; } else { assert (prev + row)[k] == row[k - |prev|]; }
      }
    }
  }

  /** Every link carries the common elements of its two lists, which are
      never empty. */
  lemma {:induction false} RowsLinked<T>(lists: seq<seq<T>>, i: nat)
    requires i <= |lists|
    ensures forall k :: 0 <= k < |Rows(lists, i)| ==> Linked(lists, Rows(lists, i)[k])
  {
    if i > 0 {
      RowsLinked(lists, i - 1);
      RowLinked(lists, i - 1, |lists|);
      var prev: seq<Pair<T>> := Rows(lists, i - 1);
      var row: seq<Pair<T>> := Row(lists, i - 1, |lists|);
      assert Rows(lists, i) == prev + row;
      forall k | 0 <= k < |prev + row|
        ensures Linked(lists, (prev + row)[k])
      {
        if k < |prev| { assert (prev + row)[k] == prev[k]; } else { assert (prev + row)[k] == row[k - |prev|]; }
      }
    }
  }

  /** Links come out in strictly increasing lexicographic `(i, j)` order. */
  lemma {:induction false} RowsOrdered<T>(lists: seq<seq<T>>, i: nat)
    requires i <= |lists|
    ensures forall a, b :: 0 <= a < b < |Rows(lists, i)| ==> LexLess(Rows(lists, i)[a], Rows(lists, i)[b])
  {
    if i > 0 {
      RowsOrdered(lists, i - 1);
      RowsIndices(lists, i - 1);
      RowIndices(lists, i - 1, |lists|);
      RowOrdered(lists, i - 1, |lists|);
      var prev := Rows(lists, i - 1);
      var row := Row(lists, i - 1, |lists|);
      var ps := prev + row;
      assert Rows(lists, i) == ps;
      forall a, b | 0 <= a < b < |ps|
        ensures LexLess(ps[a], ps[b])
      {
        if b < |prev| {
          assert ps[a] == prev[a] && ps[b] == prev[b];
        } else if a < |prev| {
          assert ps[a] == prev[a] && ps[b] == row[b - |prev|];
        } else {
          assert ps[a] == row[a - |prev|] && ps[b] == row[b - |prev|];
        }
      }
    }
  }

  /** Every pair `i < j` whose lists share an element is linked. */
  lemma {:induction false} RowComplete<T>(lists: seq<seq<T>>, i: nat, j: nat, k: nat)
    requires i < k < j <= |lists| && |Common(lists[i], lists[k])| > 0
    ensures Pair(i, k, Common(lists[i], lists[k])) in Row(lists, i, j)
  {
    if k < j - 1 {
      RowComplete(lists, i, j - 1, k);
    }
    assert Row(lists, i, j) == Row(lists, i, j - 1) + LinkFor(lists, i, j - 1);
  }

  lemma {:induction false} RowsComplete<T>(lists: seq<seq<T>>, n: nat, i: nat, j: nat)
    requires n <= |lists| && i < n && i < j < |lists| && |Common(lists[i], lists[j])| > 0
    ensures Pair(i, j, Common(lists[i], lists[j])) in Rows(lists, n)
  {
    var x := Pair(i, j, Common(lists[i], lists[j]));
    var prev: seq<Pair<T>> := Rows(lists, n - 1);
    var row: seq<Pair<T>> := Row(lists, n - 1, |lists|);
    assert Rows(lists, n) == prev + row;
    if i < n - 1 {
      RowsComplete(lists, n - 1, i, j);
      assert x in prev;
    } else {
      RowComplete(lists, i, |lists|, j);
      assert x in row;
    }
    assert x in prev + row;
  }

  /** Every link joins two positions `i < j` whose lists share elements
      and carries those common elements. */
  lemma PairsLinked<T>(lists: seq<seq<T>>)
    ensures forall p :: p in Pairs(lists) ==> Linked(lists, p)
  {
    RowsLinked(lists, |lists|);
  }

  /** The links come in increasing `(i, j)` order, so no pair of positions
      is linked twice. */
  lemma PairsOrdered<T>(lists: seq<seq<T>>)
    ensures forall a, b :: 0 <= a < b < |Pairs(lists)| ==> LexLess(Pairs(lists)[a], Pairs(lists)[b])
  {
    RowsOrdered(lists, |lists|);
  }

  /** A link exists for `i < j` exactly when the two lists share an
      element. */
  lemma PairsExactlyShared<T>(lists: seq<seq<T>>, i: nat, j: nat)
    requires i < j < |lists|
    ensures (exists p :: p in Pairs(lists) && p.i == i && p.j == j) <==> exists k :: 0 <= k < |lists[i]| && lists[i][k] in lists[j]
  {
    CommonNonEmpty(lists[i], lists[j]);
    PairsLinked(lists);
    if |Common(lists[i], lists[j])| > 0 {
      RowsComplete(lists, |lists|, i, j);
    }
  }

  /** At most one link per unordered pair: `n(n-1)/2` links for `n` lists. */
  lemma {:induction false} RowsBound<T>(lists: seq<seq<T>>, i: nat)
    requires i <= |lists|
    ensures 2 * |Rows(lists, i)| <= i * (2 * |lists| - i - 1)
  {
    if i > 0 {
      RowsBound(lists, i - 1);
      RowLength(lists, i - 1, |lists|);
      assert |Rows(lists, i)| == |Rows(lists, i - 1)| + |Row(lists, i - 1, |lists|)|;
      TriangleStep(|lists|, i);
    }
  }

  lemma TriangleStep(n: int, i: int)
    ensures i * (2 * n - i - 1) == (i - 1) * (2 * n - (i - 1) - 1) + 2 * (n - i)
  {
  }

  lemma PairsBound<T>(lists: seq<seq<T>>)
    ensures 2 * |Pairs(lists)| <= |lists| * (|lists| - 1)
  {
    RowsBound(lists, |lists|);
  }
}
