/** Count dictionaries. Several components fill a plain object with
    `counts[k] = (counts[k] || 0) + 1` inside a `forEach`, read it back with
    `Object.entries`, and some sort the entries by count, descending, with
    the stable `Array.prototype.sort`. */
module Tally {
  import opened Seqs
  import opened Keys

  datatype Entry<K> = Entry(key: K, count: nat)

  /** `counts` holds, for each key, its number of occurrences in `s`, and
      no key that does not occur. */
  ghost predicate CountsOf<K(!new)>(counts: map<K, nat>, s: seq<K>) {
    (forall k :: k in counts ==> counts[k] == Count(s, k) > 0) &&
    (forall k :: k !in counts ==> Count(s, k) == 0)
  }

  /** `counts[k] = (counts[k] || 0) + 1`. */
  function Bump<K>(counts: map<K, nat>, k: K): map<K, nat> {
    counts[k := if k in counts then counts[k] + 1 else 1]
  }

  lemma BumpCounts<K(!new)>(counts: map<K, nat>, s: seq<K>, k: K)
    requires CountsOf(counts, s)
    ensures CountsOf(Bump(counts, k), s + [k])
  {
    forall y ensures Count(s + [k], y) == Count(s, y) + (if k == y then 1 else 0) {
      CountSnoc(s, k, y);
    }
  }

  /** The `forEach` that fills a count dictionary. `order` is the order
      in which keys were first inserted. */
  method CountKeys<K(==,!new)>(keys: seq<K>) returns (counts: map<K, nat>, order: seq<K>)
    ensures order == Dedup(keys)
    ensures forall k :: k in counts <==> k in keys
    ensures forall k :: k in counts ==> counts[k] == Count(keys, k)
  {
    counts, order := map[], [];
    for i := 0 to |keys|
      invariant order == Dedup(keys[..i])
      invariant CountsOf(counts, keys[..i])
    {
      var k := keys[i];
      assert keys[..i + 1] == keys[..i] + [k];
      DedupSnoc(keys[..i], k);
      DedupMembership(keys[..i], k);
      BumpCounts(counts, keys[..i], k);
      if k !in counts {
        order := order + [k];
      }
      counts := Bump(counts, k);
    }
    assert keys[..|keys|] == keys;
  }

  /** The entries of the dictionary over `keys`, listed in the order `ks`. */
  function EntriesOf<K(==)>(ks: seq<K>, keys: seq<K>): (r: seq<Entry<K>>)
    ensures |r| == |ks|
    ensures forall i :: 0 <= i < |ks| ==> r[i] == Entry(ks[i], Count(keys, ks[i]))
  {
    seq(|ks|, i requires 0 <= i < |ks| => Entry(ks[i], Count(keys, ks[i])))
  }

  /** `Object.entries(counts)`, listed in the order `ks`. */
  function EntriesFrom<K>(counts: map<K, nat>, ks: seq<K>): (r: seq<Entry<K>>)
    requires forall i :: 0 <= i < |ks| ==> ks[i] in counts
    ensures |r| == |ks|
    ensures forall i :: 0 <= i < |ks| ==> r[i] == Entry(ks[i], counts[ks[i]])
  {
    seq(|ks|, i requires 0 <= i < |ks| => Entry(ks[i], counts[ks[i]]))
  }

  /** Reading back a dictionary filled from `keys` gives the entries over
      `keys`. */
  lemma EntriesFromCounts<K>(counts: map<K, nat>, ks: seq<K>, keys: seq<K>)
    requires forall i :: 0 <= i < |ks| ==> ks[i] in counts
    requires forall k :: k in counts ==> counts[k] == Count(keys, k)
    ensures EntriesFrom(counts, ks) == EntriesOf(ks, keys)
  {
  }

  function SumCounts<K>(es: seq<Entry<K>>): nat {
    if |es| == 0 then 0 else es[0].count + SumCounts(es[1..])
  }

  lemma {:induction false} SumCountsAppend<K>(es: seq<Entry<K>>, e: Entry<K>)
    ensures SumCounts(es + [e]) == SumCounts(es) + e.count
  {
    if |es| > 0 {
      assert (es + [e])[1..] == es[1..] + [e];
      SumCountsAppend(es[1..], e);
    }
  }

  /** Adding one more key to the counted list adds, to the sum over `ks`,
      the number of times that key occurs in `ks`. */
  lemma {:induction false} SumShift<K>(ks: seq<K>, keys: seq<K>, x: K)
    ensures SumCounts(EntriesOf(ks, keys + [x])) == SumCounts(EntriesOf(ks, keys)) + Count(ks, x)
  {
    if |ks| > 0 {
      var n := |ks| - 1;
      var p := ks[..n];
      SumShift(p, keys, x);
      assert EntriesOf(ks, keys + [x]) == EntriesOf(p, keys + [x]) + [Entry(ks[n], Count(keys + [x], ks[n]))];
      assert EntriesOf(ks, keys) == EntriesOf(p, keys) + [Entry(ks[n], Count(keys, ks[n]))];
      SumCountsAppend(EntriesOf(p, keys + [x]), Entry(ks[n], Count(keys + [x], ks[n])));
      SumCountsAppend(EntriesOf(p, keys), Entry(ks[n], Count(keys, ks[n])));
      assert (keys + [x])[..|keys|] == keys;
      assert ks == p + [ks[n]];
    }
  }

  /** An element occurs once in a sequence without duplicates. */
  lemma {:induction false} CountInDistinct<K>(s: seq<K>, x: K)
    requires NoDup(s) && x in s
    ensures Count(s, x) == 1
  {
    var n := |s| - 1;
    var p := s[..n];
    assert NoDup(p);
    if s[n] == x {
      assert x !in p;
    } else {
      assert s == p + [s[n]];
      CountInDistinct(p, x);
    }
  }

  /** A dictionary over no keys counts nothing. */
  lemma {:induction false} SumCountsOfNothing<K>(ks: seq<K>)
    ensures SumCounts(EntriesOf(ks, [])) == 0
  {
    if |ks| > 0 {
      assert EntriesOf(ks, [])[1..] == EntriesOf(ks[1..], []);
      SumCountsOfNothing(ks[1..]);
    }
  }

  /** The counts of a dictionary filled from `keys` sum to `|keys|`,
      whichever duplicate-free order its entries are listed in. */
  lemma {:induction false} CountsSumToLength<K>(ks: seq<K>, keys: seq<K>)
    requires NoDup(ks)
    requires forall i :: 0 <= i < |keys| ==> keys[i] in ks
    ensures SumCounts(EntriesOf(ks, keys)) == |keys|
  {
    if |keys| == 0 {
      SumCountsOfNothing(ks);
    } else {
      var n := |keys| - 1;
      var p := keys[..n];
      assert keys == p + [keys[n]];
      CountsSumToLength(ks, p);
      SumShift(ks, p, keys[n]);
      CountInDistinct(ks, keys[n]);
    }
  }

  /** Any rearrangement of the entries over distinct keys lists each of
      those keys exactly once, with its count. */
  lemma RankedEntries<K>(ks: seq<K>, keys: seq<K>, r: seq<Entry<K>>)
    requires NoDup(ks) && multiset(r) == multiset(EntriesOf(ks, keys))
    ensures forall i :: 0 <= i < |r| ==> r[i].key in ks && r[i].count == Count(keys, r[i].key)
    ensures forall i, j :: 0 <= i < j < |r| ==> r[i].key != r[j].key
    ensures forall k :: k in ks ==> exists i :: 0 <= i < |r| && r[i].key == k
  {
    var es := EntriesOf(ks, keys);
    assert NoDup(es) by {
      forall i, j | 0 <= i < j < |es| ensures es[i] != es[j] {
        assert es[i].key == ks[i] && es[j].key == ks[j];
      }
    }
    PermutationNoDup(r, es);
    forall i | 0 <= i < |r| ensures r[i].key in ks && r[i].count == Count(keys, r[i].key) {
      assert r[i] in multiset(es);
    }
    forall k | k in ks ensures exists i :: 0 <= i < |r| && r[i].key == k {
      var j :| 0 <= j < |ks| && ks[j] == k;
      assert es[j] in multiset(r);
      var i :| 0 <= i < |r| && r[i] == es[j];
    }
  }

  predicate Descending<K>(es: seq<Entry<K>>) {
    forall i, j :: 0 <= i < j < |es| ==> es[i].count >= es[j].count
  }

  /** Inserts `e` in front of the first entry whose count does not exceed
      its own: the step of a stable insertion sort by descending count. */
  function InsertByCount<K>(e: Entry<K>, es: seq<Entry<K>>): (r: seq<Entry<K>>)
    ensures |r| == |es| + 1
    ensures multiset(r) == multiset(es) + multiset{e}
  {
    if |es| == 0 || es[0].count <= e.count then [e] + es
    else
      assert es == [es[0]] + es[1..];
      [es[0]] + InsertByCount(e, es[1..])
  }

  /** An element of the result is `e` or an element of `es`. */
  lemma InsertedElement<K>(e: Entry<K>, es: seq<Entry<K>>, j: nat)
    requires j < |InsertByCount(e, es)|
    ensures InsertByCount(e, es)[j] == e || InsertByCount(e, es)[j] in es
  {
    var r := InsertByCount(e, es);
    assert r[j] in multiset(r);
  }

  lemma {:induction false} InsertByCountDescending<K>(e: Entry<K>, es: seq<Entry<K>>)
    requires Descending(es)
    ensures Descending(InsertByCount(e, es))
  {
    if |es| > 0 && es[0].count > e.count {
      var rest := InsertByCount(e, es[1..]);
      InsertByCountDescending(e, es[1..]);
      forall j | 0 <= j < |rest| ensures rest[j].count <= es[0].count {
        InsertedElement(e, es[1..], j);
        if rest[j] != e {
          var k :| 0 <= k < |es[1..]| && es[1..][k] == rest[j];
          assert es[k + 1] == rest[j];
        }
      }
      var r := [es[0]] + rest;
      forall i, j | 0 <= i < j < |r| ensures r[i].count >= r[j].count {
        if i > 0 { assert r[i] == rest[i - 1] && r[j] == rest[j - 1]; }
        else { assert r[j] == rest[j - 1]; }
      }
    } else {
      var r := [e] + es;
      forall i, j | 0 <= i < j < |r| ensures r[i].count >= r[j].count {
        if i > 0 { assert r[i] == es[i - 1]; }
        assert r[j] == es[j - 1];
      }
    }
  }

  lemma {:induction false} InsertByCountSum<K>(e: Entry<K>, es: seq<Entry<K>>)
    ensures SumCounts(InsertByCount(e, es)) == SumCounts(es) + e.count
  {
    if |es| > 0 && es[0].count > e.count {
      InsertByCountSum(e, es[1..]);
      assert InsertByCount(e, es)[1..] == InsertByCount(e, es[1..]);
    } else {
      assert ([e] + es)[1..] == es;
    }
  }

  /** `entries.sort((a, b) => b.count - a.count)`: stable, descending by
      count. */
  function SortByCount<K>(es: seq<Entry<K>>): (r: seq<Entry<K>>)
    ensures Descending(r)
    ensures multiset(r) == multiset(es)
    ensures |r| == |es|
    ensures SumCounts(r) == SumCounts(es)
  {
    if |es| == 0 then []
    else
      assert es == [es[0]] + es[1..];
      var sorted := SortByCount(es[1..]);
      InsertByCountDescending(es[0], sorted);
      InsertByCountSum(es[0], sorted);
      InsertByCount(es[0], sorted)
  }

  /** Entries ordered by count, descending, and by key among equal counts. */
  predicate CountThenKeyOrdered(es: seq<Entry<Key>>) {
    forall i, j :: 0 <= i < j < |es| ==>
      es[i].count > es[j].count || (es[i].count == es[j].count && KeyLess(es[i].key, es[j].key))
  }

  predicate KeysIncreasing(es: seq<Entry<Key>>) {
    forall i, j :: 0 <= i < j < |es| ==> KeyLess(es[i].key, es[j].key)
  }

  lemma {:induction false} InsertByCountStable(e: Entry<Key>, es: seq<Entry<Key>>)
    requires CountThenKeyOrdered(es)
    requires forall x :: x in es ==> KeyLess(e.key, x.key)
    ensures CountThenKeyOrdered(InsertByCount(e, es))
  {
    if |es| == 0 || es[0].count <= e.count {
      var r := [e] + es;
      forall i, j | 0 <= i < j < |r|
        ensures r[i].count > r[j].count || (r[i].count == r[j].count && KeyLess(r[i].key, r[j].key))
      {
        if i > 0 { assert r[i] == es[i - 1] && r[j] == es[j - 1]; }
        else { assert r[j] == es[j - 1]; assert r[j] in es; }
      }
    } else {
      var rest := InsertByCount(e, es[1..]);
      InsertByCountStable(e, es[1..]);
      var r := [es[0]] + rest;
      forall i, j | 0 <= i < j < |r|
        ensures r[i].count > r[j].count || (r[i].count == r[j].count && KeyLess(r[i].key, r[j].key))
      {
        if i > 0 { assert r[i] == rest[i - 1] && r[j] == rest[j - 1]; }
        else {
          assert r[j] == rest[j - 1];
          InsertedElement(e, es[1..], j - 1);
          if r[j] != e {
            var k :| 0 <= k < |es[1..]| && es[1..][k] == r[j];
            assert es[k + 1] == r[j];
          }
        }
      }
    }
  }

  /** The stable sort applied to entries listed in increasing key order
      orders them by count, descending, and by key among equal counts. */
  lemma {:induction false} SortByCountStable(es: seq<Entry<Key>>)
    requires KeysIncreasing(es)
    ensures CountThenKeyOrdered(SortByCount(es))
  {
    if |es| > 0 {
      SortByCountStable(es[1..]);
      var s := SortByCount(es[1..]);
      forall x | x in s ensures KeyLess(es[0].key, x.key) {
        assert x in multiset(s);
        var k :| 0 <= k < |es[1..]| && es[1..][k] == x;
        assert es[k + 1] == x;
      }
      InsertByCountStable(es[0], s);
    }
  }
}
