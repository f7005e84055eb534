/** Colour keys and their ordering.

    The charts colour a drink by its cluster id (a number), its category or
    a taste (strings). `Key` holds either kind. `KeyLess` is the order the
    sources sort by: numeric for cluster ids (`sort((a, b) => a - b)`) and
    the default `Array.prototype.sort` order, character by character, for
    strings. Putting every numeric key before every text key also makes it
    the order in which JavaScript enumerates the keys of a plain object
    whose integer keys are cluster ids. */
module Keys {
  import opened Seqs

  datatype Key = ClusterKey(id: nat) | TextKey(text: string)

  /** Lexicographic order on strings, comparing characters by code. */
  predicate StrLess(a: string, b: string) {
    if |a| == 0 then |b| > 0
    else if |b| == 0 then false
    else if a[0] < b[0] then true
    else a[0] == b[0] && StrLess(a[1..], b[1..])
  }

  lemma {:induction false} StrLessIrreflexive(a: string)
    ensures !StrLess(a, a)
  {
    if |a| > 0 { StrLessIrreflexive(a[1..]); }
  }

  lemma {:induction false} StrLessTransitive(a: string, b: string, c: string)
    requires StrLess(a, b) && StrLess(b, c)
    ensures StrLess(a, c)
  {
    if |a| > 0 && |b| > 0 && |c| > 0 && a[0] == b[0] == c[0] {
      StrLessTransitive(a[1..], b[1..], c[1..]);
    }
  }

  lemma {:induction false} StrLessTotal(a: string, b: string)
    requires a != b
    ensures StrLess(a, b) || StrLess(b, a)
  {
    if |a| > 0 && |b| > 0 && a[0] == b[0] {
      assert a == [a[0]] + a[1..] && b == [b[0]] + b[1..];
      StrLessTotal(a[1..], b[1..]);
    }
  }

  /** The sort order of colour keys. */
  predicate KeyLess(a: Key, b: Key) {
    match (a, b)
    case (ClusterKey(x), ClusterKey(y)) => x < y
    case (TextKey(s), TextKey(t)) => StrLess(s, t)
    case (ClusterKey(_), TextKey(_)) => true
    case (TextKey(_), ClusterKey(_)) => false
  }

  /** `KeyLess` is a strict total order. */
  lemma KeyLessIrreflexive(a: Key)
    ensures !KeyLess(a, a)
  {
    if a.TextKey? { StrLessIrreflexive(a.text); }
  }

  lemma KeyLessTransitive(a: Key, b: Key, c: Key)
    requires KeyLess(a, b) && KeyLess(b, c)
    ensures KeyLess(a, c)
  {
    if a.TextKey? && b.TextKey? && c.TextKey? { StrLessTransitive(a.text, b.text, c.text); }
  }

  lemma KeyLessTotal(a: Key, b: Key)
    requires a != b
    ensures KeyLess(a, b) || KeyLess(b, a)
  {
    if a.TextKey? && b.TextKey? { StrLessTotal(a.text, b.text); }
  }

  predicate StrictlySorted(s: seq<Key>) {
    forall i, j :: 0 <= i < j < |s| ==> KeyLess(s[i], s[j])
  }

  /** Inserts `x` into a strictly increasing sequence, once. */
  function InsertSorted(x: Key, s: seq<Key>): (r: seq<Key>)
    requires StrictlySorted(s)
    ensures StrictlySorted(r)
    ensures forall y :: y in r <==> y == x || y in s
    ensures |r| == if x in s then |s| else |s| + 1
  {
    if |s| == 0 then [x]
    else if x == s[0] then s
    else if KeyLess(x, s[0]) then
      forall y | y in s ensures KeyLess(x, y) {
        if y != s[0] {
          var j :| 0 <= j < |s| && s[j] == y;
          KeyLessTransitive(x, s[0], y);
        }
      }
      SortedCons(x, s);
      assert x !in s by { if x in s { KeyLessIrreflexive(x); } }
      [x] + s
    else
      KeyLessTotal(x, s[0]);
      var rest := InsertSorted(x, s[1..]);
      assert forall y :: y in rest ==> KeyLess(s[0], y) by {
        forall y | y in rest ensures KeyLess(s[0], y) {
          if y != x { var j :| 0 <= j < |s[1..]| && s[1..][j] == y; assert s[j + 1] == y; }
        }
      }
      SortedCons(s[0], rest);
      assert s == [s[0]] + s[1..];
      [s[0]] + rest
  }

  /** Prepending an element below every element keeps a sequence sorted. */
  lemma SortedCons(x: Key, s: seq<Key>)
    requires StrictlySorted(s)
    requires forall y :: y in s ==> KeyLess(x, y)
    ensures StrictlySorted([x] + s)
  {
    var r := [x] + s;
    forall i, j | 0 <= i < j < |r| ensures KeyLess(r[i], r[j]) {
      if i > 0 { assert r[i] == s[i - 1] && r[j] == s[j - 1]; }
      else { assert r[j] == s[j - 1]; assert r[j] in s; }
    }
  }

  /** The strictly increasing arrangement of the distinct elements of `s`:
      what a JavaScript sort yields on a de-duplicated list. */
  function SortKeys(s: seq<Key>): (r: seq<Key>)
    ensures StrictlySorted(r)
    ensures forall y :: y in r <==> y in s
  {
    if |s| == 0 then [] else
      var r := InsertSorted(s[0], SortKeys(s[1..]));
      assert forall y :: y in s <==> y == s[0] || y in s[1..] by {
        assert s == [s[0]] + s[1..];
      }
      r
  }

  /** Sorting a duplicate-free list keeps its length. */
  lemma {:induction false} SortKeysLength(s: seq<Key>)
    requires NoDup(s)
    ensures |SortKeys(s)| == |s|
  {
    if |s| > 0 {
      assert NoDup(s[1..]);
      SortKeysLength(s[1..]);
      assert s[0] !in s[1..];
    }
  }

  /** A strictly sorted sequence is determined by its elements: so any
      correct sort of a duplicate-free list gives `SortKeys` of it. */
  lemma {:induction false} SortedUnique(a: seq<Key>, b: seq<Key>)
    requires StrictlySorted(a) && StrictlySorted(b)
    requires forall y :: y in a <==> y in b
    ensures a == b
  {
    if |a| > 0 { assert a[0] in b; }
    if |b| > 0 { assert b[0] in a; }
    if |a| > 0 && |b| > 0 {
      if a[0] != b[0] {
        var i :| 0 <= i < |b| && b[i] == a[0];
        var j :| 0 <= j < |a| && a[j] == b[0];
        assert KeyLess(b[0], a[0]);
        assert KeyLess(a[0], b[0]);
        KeyLessTransitive(a[0], b[0], a[0]);
        KeyLessIrreflexive(a[0]);
      }
      assert a == [a[0]] + a[1..] && b == [b[0]] + b[1..];
      forall y ensures y in a[1..] <==> y in b[1..] {
        if y in a[1..] {
          var k :| 0 <= k < |a[1..]| && a[1..][k] == y;
          assert KeyLess(a[0], a[k + 1]);
          if y == a[0] { KeyLessIrreflexive(y); }
          assert y in b;
        }
        if y in b[1..] {
          var k :| 0 <= k < |b[1..]| && b[1..][k] == y;
          assert KeyLess(b[0], b[k + 1]);
          if y == b[0] { KeyLessIrreflexive(y); }
          assert y in a;
        }
      }
      SortedUnique(a[1..], b[1..]);
      assert a == [a[0]] + a[1..] && b == [b[0]] + b[1..];
    }
  }

  /** A strictly sorted sequence has no duplicates. */
  lemma SortedNoDup(s: seq<Key>)
    requires StrictlySorted(s)
    ensures NoDup(s)
  {
    forall i, j | 0 <= i < j < |s| ensures s[i] != s[j] {
      if s[i] == s[j] { KeyLessIrreflexive(s[i]); }
    }
  }

  predicate IsClusterKey(k: Key) { k.ClusterKey? }

  /** The keys of `s` that are cluster ids, in order. */
  function ClusterKeysOf(s: seq<Key>): (r: seq<Key>)
    ensures forall y :: y in r <==> y in s && y.ClusterKey?
    ensures (forall k :: k in s ==> k.TextKey?) ==> r == []
  {
    if |s| == 0 then []
    else
      assert s == [s[0]] + s[1..];
      (if s[0].ClusterKey? then [s[0]] else []) + ClusterKeysOf(s[1..])
  }

  /** The keys of `s` that are strings, in order. */
  function TextKeysOf(s: seq<Key>): (r: seq<Key>)
    ensures forall y :: y in r <==> y in s && y.TextKey?
    ensures |r| <= |s|
    ensures (forall k :: k in s ==> k.TextKey?) ==> r == s
    ensures (forall k :: k in s ==> k.ClusterKey?) ==> r == []
  {
    if |s| == 0 then []
    else
      assert s == [s[0]] + s[1..];
      (if s[0].TextKey? then [s[0]] else []) + TextKeysOf(s[1..])
  }

  /** The order in which `Object.keys`/`Object.entries` list the keys of a
      plain object whose keys were inserted in order `inserted`: integer
      keys (cluster ids) first, ascending, then string keys in insertion
      order. */
  function EnumerationOrder(inserted: seq<Key>): (r: seq<Key>)
    ensures forall y :: y in r <==> y in inserted
  {
    SortKeys(ClusterKeysOf(inserted)) + TextKeysOf(inserted)
  }

  /** For string keys the enumeration order is the insertion order. */
  lemma EnumerationOfTextKeys(s: seq<Key>)
    requires forall k :: k in s ==> k.TextKey?
    ensures EnumerationOrder(s) == s
  {
  }

  /** For cluster-id keys the enumeration order is ascending. */
  lemma EnumerationOfClusterKeys(s: seq<Key>)
    requires forall k :: k in s ==> k.ClusterKey?
    ensures EnumerationOrder(s) == SortKeys(s)
    ensures StrictlySorted(EnumerationOrder(s))
  {
    SortedUnique(SortKeys(ClusterKeysOf(s)), SortKeys(s));
  }
}
