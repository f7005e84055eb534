/** The honeycomb chart: per-record colour keys, the majority vote that
    colours a hexagonal bin, the statistics shown for a bin, the zoom rule
    that switches between bins and single points, and the legend order. */
module HoneycombChart {
  import opened Wrappers
  import opened Seqs
  import opened Keys
  import opened Text
  import opened Tally
  import opened Palette
  import opened Drinks
  import opened ClusterDescriptions

  /** The taste-mode key of a record: its first taste, or `"N/A"` when the
      record has no tastes. */
  function FirstTaste(d: Drink): (t: string)
    ensures |Tastes(d)| >= 1 ==> t == Tastes(d)[0]
    ensures |Tastes(d)| == 0 ==> t == "N/A"
  {
    if d.taste.Some? && |d.taste.value| >= 1 then d.taste.value[0] else "N/A"
  }

  /** The colour key of one record, used both for the colour domain, for
      the vote inside a bin and for a point drawn on its own. */
  function PointKey(d: Drink, mode: ColorBy): Key {
    match mode
    case ByCluster => ClusterKey(d.cluster)
    case ByCategory => TextKey(d.category)
    case ByTaste => TextKey(FirstTaste(d))
  }

  function ItemKeys(items: seq<Drink>, mode: ColorBy): (ks: seq<Key>)
    ensures |ks| == |items|
    ensures forall i :: 0 <= i < |items| ==> ks[i] == PointKey(items[i], mode)
  {
    seq(|items|, i requires 0 <= i < |items| => PointKey(items[i], mode))
  }

  /** `colorDomain`: the distinct keys in first-seen order, sorted
      numerically in cluster mode. */
  function ColorDomain(data: seq<Drink>, mode: ColorBy): (r: seq<Key>)
    ensures NoDup(r)
    ensures forall i :: 0 <= i < |data| ==> PointKey(data[i], mode) in r
    ensures forall k :: k in r ==> k in ItemKeys(data, mode)
    ensures mode == ByCluster ==> StrictlySorted(r)
    ensures mode != ByCluster ==> r == Dedup(ItemKeys(data, mode))
  {
    var ks := ItemKeys(data, mode);
    var d := Dedup(ks);
    assert forall k :: k in d <==> k in ks by {
      forall k ensures k in d <==> k in ks { DedupMembership(ks, k); }
    }
    if mode == ByCluster then
      var r := SortKeys(d);
      SortedNoDup(r);
      r
    else d
  }

  /** The dictionary of counts filled by `forEach` over the group. */
  function CountMap(ks: seq<Key>): (m: map<Key, nat>)
    ensures forall k :: k in m <==> k in ks
    ensures forall k :: k in m ==> m[k] == Count(ks, k)
  {
    map k | k in ks :: Count(ks, k)
  }

  /** `Object.keys(counts).reduce((a, b) => counts[a] > counts[b] ? a : b, acc)`. */
  function ReduceVote(ks: seq<Key>, counts: map<Key, nat>, acc: Key): (r: Key)
    requires forall k :: k in ks ==> k in counts
    requires acc in counts
    ensures r == acc || r in ks
  {
    if |ks| == 0 then acc
    else ReduceVote(ks[1..], counts, if counts[acc] > counts[ks[0]] then acc else ks[0])
  }

  /** The `for (const [cluster, count] of Object.entries(counts))` loop,
      from `(maxCluster, maxCount)` to their final values. */
  function LoopVote(ks: seq<Key>, counts: map<Key, nat>, best: Option<Key>, bestCount: nat): (Option<Key>, nat)
    requires forall k :: k in ks ==> k in counts
  {
    if |ks| == 0 then (best, bestCount)
    else if counts[ks[0]] > bestCount then LoopVote(ks[1..], counts, Some(ks[0]), counts[ks[0]])
    else LoopVote(ks[1..], counts, best, bestCount)
  }

  /** The key a bin is coloured by (`colorValueFunction(items)`); `None`
      stands for `undefined`/`null`, the value for an empty group. */
  function GroupKey(items: seq<Drink>, mode: ColorBy): Option<Key> {
    var ks := ItemKeys(items, mode);
    var counts := CountMap(ks);
    var order := EnumerationOrder(Dedup(ks));
    assert forall k :: k in order ==> k in counts by {
      forall k | k in order ensures k in counts { DedupMembership(ks, k); }
    }
    if mode == ByCluster then LoopVote(order, counts, None, 0).0
    else if |order| == 0 then None
    else Some(ReduceVote(order, counts, order[0]))
  }

  /** `colorValueFunction(items)`: fills the count dictionary, then runs
      the cluster loop or the category/taste reduce. */
  method ColorValue(items: seq<Drink>, mode: ColorBy) returns (v: Option<Key>)
    ensures v == GroupKey(items, mode)
  {
    var ks := ItemKeys(items, mode);
    var counts, inserted := CountKeys(ks);
    assert counts == CountMap(ks);
    var order := EnumerationOrder(inserted);
    assert forall k :: k in order ==> k in counts by {
      forall k | k in order ensures k in counts { DedupMembership(ks, k); }
    }
    if mode == ByCluster {
      v := MaxCountLoop(order, counts);
    } else if |order| == 0 {
      v := None;
    } else {
      v := Some(ReduceVote(order, counts, order[0]));
    }
  }

  /** The cluster mode's loop over `Object.entries(clusterCounts)`. */
  method MaxCountLoop(order: seq<Key>, counts: map<Key, nat>) returns (maxCluster: Option<Key>)
    requires forall k :: k in order ==> k in counts
    ensures maxCluster == LoopVote(order, counts, None, 0).0
  {
    maxCluster := None;
    var maxCount := 0;
    for i := 0 to |order|
      invariant LoopVote(order[i..], counts, maxCluster, maxCount) == LoopVote(order, counts, None, 0)
    {
      assert order[i..][1..] == order[i + 1..];
      if counts[order[i]] > maxCount {
        maxCount := counts[order[i]];
        maxCluster := Some(order[i]);
      }
    }
    assert order[|order|..] == [];
  }

  /** What the reduce returns: the accumulator or a listed key, with a
      count no listed key exceeds, and strictly above every key listed
      after it. */
  lemma {:induction false} ReduceVoteSpec(ks: seq<Key>, counts: map<Key, nat>, acc: Key)
    requires NoDup(ks)
    requires forall k :: k in ks ==> k in counts
    requires acc in counts
    ensures var r := ReduceVote(ks, counts, acc);
      (r == acc || r in ks) && r in counts && counts[acc] <= counts[r] &&
      (forall k :: k in ks ==> counts[k] <= counts[r]) &&
      (forall j, j' :: 0 <= j < j' < |ks| && ks[j] == r ==> counts[ks[j']] < counts[r]) &&
      (r == acc && acc !in ks ==> forall k :: k in ks ==> counts[k] < counts[acc])
  {
    if |ks| > 0 {
      var acc' := if counts[acc] > counts[ks[0]] then acc else ks[0];
      var tail := ks[1..];
      assert NoDup(tail);
      assert ks[0] !in tail;
      ReduceVoteSpec(tail, counts, acc');
      var r := ReduceVote(tail, counts, acc');
      assert r == ReduceVote(ks, counts, acc);
      assert forall k :: k in ks <==> k == ks[0] || k in tail by { assert ks == [ks[0]] + tail; }
      forall j, j' | 0 <= j < j' < |ks| && ks[j] == r ensures counts[ks[j']] < counts[r] {
        assert ks[j'] == tail[j' - 1];
        if j > 0 { assert ks[j] == tail[j - 1]; }
      }
    }
  }

  /** What the cluster loop returns: from `(None, 0)` it ends on a listed
      key whose count no listed key exceeds, and which is strictly above
      every key listed before it. */
  lemma {:induction false} LoopVoteSpec(ks: seq<Key>, counts: map<Key, nat>, best: Option<Key>, bestCount: nat)
    requires NoDup(ks)
    requires forall k :: k in ks ==> k in counts
    ensures var r := LoopVote(ks, counts, best, bestCount);
      r.1 >= bestCount &&
      (forall k :: k in ks ==> counts[k] <= r.1) &&
      ((r.0 == best && r.1 == bestCount) || (r.0.Some? && r.0.value in ks && counts[r.0.value] == r.1 > bestCount)) &&
      (forall j, j' :: 0 <= j' < j < |ks| && Some(ks[j]) == r.0 && r.1 > bestCount ==> counts[ks[j']] < r.1)
  {
    if |ks| > 0 {
      var tail := ks[1..];
      assert NoDup(tail);
      assert ks[0] !in tail;
      assert forall k :: k in ks <==> k == ks[0] || k in tail by { assert ks == [ks[0]] + tail; }
      var r := LoopVote(ks, counts, best, bestCount);
      if counts[ks[0]] > bestCount {
        LoopVoteSpec(tail, counts, Some(ks[0]), counts[ks[0]]);
        forall j, j' | 0 <= j' < j < |ks| && Some(ks[j]) == r.0 && r.1 > bestCount ensures counts[ks[j']] < r.1 {
          assert ks[j] == tail[j - 1];
          if j' > 0 { assert ks[j'] == tail[j' - 1]; }
        }
      } else {
        LoopVoteSpec(tail, counts, best, bestCount);
        forall j, j' | 0 <= j' < j < |ks| && Some(ks[j]) == r.0 && r.1 > bestCount ensures counts[ks[j']] < r.1 {
          assert ks[j] == tail[j - 1];
          if j' > 0 { assert ks[j'] == tail[j' - 1]; }
        }
      }
    }
  }

  /** The keys a group's vote runs over: each distinct key once, ascending
      in cluster mode and in first-seen order otherwise. */
  lemma {:induction false} GroupOrder(items: seq<Drink>, mode: ColorBy)
    ensures var ks := ItemKeys(items, mode); var order := EnumerationOrder(Dedup(ks));
      NoDup(order) && (forall k :: k in order <==> k in ks) &&
      (mode == ByCluster ==> StrictlySorted(order)) &&
      (mode != ByCluster ==> order == Dedup(ks))
  {
    var ks := ItemKeys(items, mode);
    var d := Dedup(ks);
    forall k ensures k in d <==> k in ks { DedupMembership(ks, k); }
    if mode == ByCluster {
      EnumerationOfClusterKeys(d);
      SortedNoDup(EnumerationOrder(d));
    } else {
      EnumerationOfTextKeys(d);
    }
  }

  /** A group gets a key exactly when it is not empty. */
  lemma {:induction false} GroupKeyDefined(items: seq<Drink>, mode: ColorBy)
    ensures GroupKey(items, mode).Some? <==> |items| > 0
  {
    GroupOrder(items, mode);
    var ks := ItemKeys(items, mode);
    var order := EnumerationOrder(Dedup(ks));
    if |items| > 0 {
      assert ks[0] in order;
      if mode == ByCluster {
        LoopVoteSpec(order, CountMap(ks), None, 0);
      }
    } else {
      assert order == [];
    }
  }

  /** The key of a non-empty group occurs in it, and no key of the group
      occurs more often. */
  lemma {:induction false} GroupKeyIsMode(items: seq<Drink>, mode: ColorBy)
    requires |items| > 0
    ensures GroupKey(items, mode).Some?
    ensures var k := GroupKey(items, mode).value; var ks := ItemKeys(items, mode);
      k in ks && forall i :: 0 <= i < |items| ==> Count(ks, ks[i]) <= Count(ks, k)
  {
    GroupOrder(items, mode);
    GroupKeyDefined(items, mode);
    var ks := ItemKeys(items, mode);
    var order := EnumerationOrder(Dedup(ks));
    if mode == ByCluster {
      LoopVoteSpec(order, CountMap(ks), None, 0);
    } else {
      ReduceVoteSpec(order, CountMap(ks), order[0]);
    }
  }

  /** Among keys whose count equals the reduce's result, the result is
      listed last. */
  lemma {:induction false} ReduceVoteTie(ks: seq<Key>, counts: map<Key, nat>, x: Key)
    requires NoDup(ks) && |ks| > 0
    requires forall k :: k in ks ==> k in counts
    requires x in ks && counts[x] == counts[ReduceVote(ks, counts, ks[0])]
    ensures ReduceVote(ks, counts, ks[0]) in ks
    ensures IndexOf(ks, x) <= IndexOf(ks, ReduceVote(ks, counts, ks[0]))
  {
    ReduceVoteSpec(ks, counts, ks[0]);
  }

  /** Category and taste modes: among keys of equal, maximal count the
      group takes the one whose first occurrence comes last. */
  lemma {:induction false} TextTieGoesToLaterKey(items: seq<Drink>, mode: ColorBy)
    requires mode != ByCluster && |items| > 0
    ensures GroupKey(items, mode).Some?
    ensures var k := GroupKey(items, mode).value; var ks := ItemKeys(items, mode);
      forall x :: x in ks && Count(ks, x) == Count(ks, k) ==> IndexOf(ks, x) <= IndexOf(ks, k)
  {
    GroupOrder(items, mode);
    var ks := ItemKeys(items, mode);
    var order := Dedup(ks);
    var counts := CountMap(ks);
    var k := ReduceVote(order, counts, order[0]);
    assert GroupKey(items, mode) == Some(k);
    TieInFirstSeenOrder(ks, k);
  }

  /** The reduce over the first-seen order of `ks`, in terms of `ks`. */
  lemma {:induction false} TieInFirstSeenOrder(ks: seq<Key>, k: Key)
    requires |ks| > 0
    requires k == ReduceVote(Dedup(ks), CountMap(ks), Dedup(ks)[0])
    ensures forall x :: x in ks && Count(ks, x) == Count(ks, k) ==> IndexOf(ks, x) <= IndexOf(ks, k)
  {
    forall x | x in ks && Count(ks, x) == Count(ks, k)
      ensures IndexOf(ks, x) <= IndexOf(ks, k)
    {
      TieAgainst(ks, k, x);
    }
  }

  /** One tied key of `TieInFirstSeenOrder`. */
  lemma {:induction false} TieAgainst(ks: seq<Key>, k: Key, x: Key)
    requires |ks| > 0
    requires k == ReduceVote(Dedup(ks), CountMap(ks), Dedup(ks)[0])
    requires x in ks && Count(ks, x) == Count(ks, k)
    ensures IndexOf(ks, x) <= IndexOf(ks, k)
  {
    var order := Dedup(ks);
    var counts := CountMap(ks);
    assert forall y :: y in order ==> y in counts by {
      forall y | y in order ensures y in counts { DedupMembership(ks, y); }
    }
    DedupMembership(ks, x);
    assert k in order;
    assert counts[x] == counts[k];
    ReduceVoteTie(order, counts, x);
    var j := IndexOf(order, k);
    var j' := IndexOf(order, x);
    assert j' <= j;
    if j' < j {
      DedupFirstSeenOrder(ks, j', j);
      assert order[j'] == x && order[j] == k;
    }
  }

  /** Among keys whose count equals the loop's final maximum, the loop
      ends on the one listed first. */
  lemma LoopVoteTie(ks: seq<Key>, counts: map<Key, nat>, x: Key)
    requires NoDup(ks)
    requires forall k :: k in ks ==> k in counts
    requires x in ks && 0 < counts[x] == LoopVote(ks, counts, None, 0).1
    ensures LoopVote(ks, counts, None, 0).0.Some?
    ensures LoopVote(ks, counts, None, 0).0.value in ks
    ensures IndexOf(ks, LoopVote(ks, counts, None, 0).0.value) <= IndexOf(ks, x)
  {
    LoopVoteSpec(ks, counts, None, 0);
    var r := LoopVote(ks, counts, None, 0);
    var j := IndexOf(ks, r.0.value);
    var j' := IndexOf(ks, x);
    assert Some(ks[j]) == r.0;
    assert !(j' < j);
  }

  /** The cluster loop over ascending ids, in terms of the group's keys:
      a tie goes to the smallest key. */
  lemma {:induction false} SmallestKeyWins(ks: seq<Key>, k: Key)
    requires forall x :: x in ks ==> x.ClusterKey?
    requires Some(k) == LoopVote(EnumerationOrder(Dedup(ks)), CountMap(ks), None, 0).0
    ensures forall x :: x in ks && Count(ks, x) == Count(ks, k) ==> k == x || KeyLess(k, x)
  {
    var d := Dedup(ks);
    forall x ensures x in d <==> x in ks { DedupMembership(ks, x); }
    EnumerationOfClusterKeys(d);
    var order := EnumerationOrder(d);
    SortedNoDup(order);
    forall x | x in ks && Count(ks, x) == Count(ks, k) ensures k == x || KeyLess(k, x) {
      SmallestAgainst(order, CountMap(ks), ks, k, x);
    }
  }

  /** One tied key of `SmallestKeyWins`, over the sorted enumeration. */
  lemma {:induction false} SmallestAgainst(order: seq<Key>, counts: map<Key, nat>, ks: seq<Key>, k: Key, x: Key)
    requires StrictlySorted(order) && NoDup(order)
    requires forall y :: y in order <==> y in ks
    requires counts == CountMap(ks)
    requires Some(k) == LoopVote(order, counts, None, 0).0
    requires x in ks && Count(ks, x) == Count(ks, k)
    ensures k == x || KeyLess(k, x)
  {
    LoopVoteSpec(order, counts, None, 0);
    assert k in order;
    assert counts[x] == counts[k] == LoopVote(order, counts, None, 0).1;
    LoopVoteTie(order, counts, x);
    var j := IndexOf(order, k);
    var j' := IndexOf(order, x);
    if j < j' {
      assert KeyLess(order[j], order[j']);
    }
  }

  /** Cluster mode: among clusters of equal, maximal count the group takes
      the smallest id. */
  lemma {:induction false} ClusterTieGoesToSmallestId(items: seq<Drink>)
    requires |items| > 0
    ensures GroupKey(items, ByCluster).Some? && GroupKey(items, ByCluster).value.ClusterKey?
    ensures var k := GroupKey(items, ByCluster).value; var ks := ItemKeys(items, ByCluster);
      forall i :: 0 <= i < |items| && Count(ks, ks[i]) == Count(ks, k) ==> k.id <= items[i].cluster
  {
    GroupKeyIsMode(items, ByCluster);
    var ks := ItemKeys(items, ByCluster);
    var k := GroupKey(items, ByCluster).value;
    SmallestKeyWins(ks, k);
  }

  /** A bin with one member is coloured like that member drawn alone. */
  lemma {:induction false} SingleMemberBin(items: seq<Drink>, mode: ColorBy)
    requires |items| == 1
    ensures GroupKey(items, mode) == Some(PointKey(items[0], mode))
  {
    GroupKeyIsMode(items, mode);
  }

  // ---------------------------------------------------------------------
  // Bin statistics (`getClusterStats`)

  datatype ClusterStat = ClusterStat(cluster: nat, count: nat, percentage: nat)
  datatype BinStats = BinStats(totalDrinks: nat, clusters: seq<ClusterStat>, topTastes: seq<string>)

  /** `Math.round((count / total) * 100)`, computed exactly on integers. */
  function Percentage(count: nat, total: nat): nat
    requires total > 0
  {
    (200 * count + total) / (2 * total)
  }

  /** The percentage is `count * 100 / total` rounded to the nearest
      integer, halves upward; it lies in 0..100 when `count <= total`. */
  lemma PercentageRounds(count: nat, total: nat)
    requires total > 0
    ensures 200 * count - total < 2 * total * Percentage(count, total) <= 200 * count + total
    ensures count <= total ==> Percentage(count, total) <= 100
  {
    var a, b := 200 * count + total, 2 * total;
    var p := Percentage(count, total);
    DivisionBounds(a, b);
    var m := b * p;
    assert m <= a < m + b;
    if count <= total && p > 100 {
      MultiplyMonotone(b, 101, p);
    }
  }

  lemma DivisionBounds(a: nat, b: nat)
    requires b > 0
    ensures b * (a / b) <= a < b * (a / b) + b
  {
  }

  lemma MultiplyMonotone(b: nat, x: nat, y: nat)
    requires x <= y
    ensures b * x <= b * y
  {
  }

  /** Each key of a sorted or unsorted rearrangement comes from the
      original entries. */
  lemma RearrangedEntries<K>(es: seq<Entry<K>>, r: seq<Entry<K>>, i: nat)
    requires multiset(r) == multiset(es) && i < |r|
    ensures r[i] in es
  {
    assert r[i] in multiset(es);
  }

  /** `Object.entries(clusterCounts)` (ascending cluster ids) sorted by
      count, descending. The source maps entries to statistics before
      sorting; the sort looks only at the count, so the order is the same. */
  function ClusterRanking(items: seq<Drink>): (r: seq<Entry<Key>>)
    ensures forall i :: 0 <= i < |r| ==> r[i].key.ClusterKey?
    ensures |items| == 0 ==> r == []
  {
    var ks := ItemKeys(items, ByCluster);
    var es := EntriesOf(EnumerationOrder(Dedup(ks)), ks);
    var r := SortByCount(es);
    RankingKeys(items, es, r);
    r
  }

  lemma {:induction false} RankingKeys(items: seq<Drink>, es: seq<Entry<Key>>, r: seq<Entry<Key>>)
    requires es == EntriesOf(EnumerationOrder(Dedup(ItemKeys(items, ByCluster))), ItemKeys(items, ByCluster))
    requires multiset(r) == multiset(es)
    ensures forall i :: 0 <= i < |r| ==> r[i].key.ClusterKey?
  {
    forall i | 0 <= i < |r| ensures r[i].key.ClusterKey? {
      RearrangedEntries(es, r, i);
      var j :| 0 <= j < |es| && es[j] == r[i];
      EnumeratedKeyIsCluster(items, j);
    }
  }

  /** The keys of the cluster counts are cluster ids. */
  lemma EnumeratedKeyIsCluster(items: seq<Drink>, j: nat)
    requires j < |EnumerationOrder(Dedup(ItemKeys(items, ByCluster)))|
    ensures EnumerationOrder(Dedup(ItemKeys(items, ByCluster)))[j].ClusterKey?
  {
    var ks := ItemKeys(items, ByCluster);
    var d := Dedup(ks);
    var k := EnumerationOrder(d)[j];
    assert k in d;
    DedupMembership(ks, k);
    var m :| 0 <= m < |ks| && ks[m] == k;
  }

  function StatsOfRanking(ranking: seq<Entry<Key>>, total: nat): (cs: seq<ClusterStat>)
    requires total > 0 || ranking == []
    requires forall i :: 0 <= i < |ranking| ==> ranking[i].key.ClusterKey?
    ensures |cs| == |ranking|
    ensures forall i :: 0 <= i < |cs| ==>
      cs[i] == ClusterStat(ranking[i].key.id, ranking[i].count, Percentage(ranking[i].count, total))
  {
    if |ranking| == 0 then []
    else
      [ClusterStat(ranking[0].key.id, ranking[0].count, Percentage(ranking[0].count, total))]
      + StatsOfRanking(ranking[1..], total)
  }

  /** Every taste of every item, in order: what the nested `forEach` counts. */
  function TasteOccurrences(items: seq<Drink>): seq<string> {
    Flatten(seq(|items|, i requires 0 <= i < |items| => Tastes(items[i])))
  }

  /** `Object.entries(tasteCounts)` sorted by count, descending. */
  function TasteRanking(items: seq<Drink>): seq<Entry<string>> {
    var occ := TasteOccurrences(items);
    SortByCount(EntriesOf(Dedup(occ), occ))
  }

  /** `.slice(0, 3).map(entry => entry[0])`. */
  function FirstThreeKeys(ranking: seq<Entry<string>>): (top: seq<string>)
    ensures |top| == if |ranking| < 3 then |ranking| else 3
    ensures forall i :: 0 <= i < |top| ==> top[i] == ranking[i].key
  {
    var n := if |ranking| < 3 then |ranking| else 3;
    seq(n, i requires 0 <= i < n => ranking[i].key)
  }

  function TopTastes(items: seq<Drink>): seq<string> {
    FirstThreeKeys(TasteRanking(items))
  }

  /** `getClusterStats(items)`. */
  function StatsOf(items: seq<Drink>): BinStats {
    BinStats(|items|, StatsOfRanking(ClusterRanking(items), |items|), TopTastes(items))
  }

  /** The cluster half of `getClusterStats`: the `forEach` that fills
      `clusterCounts`, then its entries sorted by count. */
  method RankClusters(items: seq<Drink>) returns (ranking: seq<Entry<Key>>)
    ensures ranking == ClusterRanking(items)
  {
    var ks := ItemKeys(items, ByCluster);
    var counts, inserted := CountKeys(ks);
    var order := EnumerationOrder(inserted);
    assert forall i :: 0 <= i < |order| ==> order[i] in counts by {
      forall i | 0 <= i < |order| ensures order[i] in counts {
        DedupMembership(ks, order[i]);
      }
    }
    EntriesFromCounts(counts, order, ks);
    ranking := SortByCount(EntriesFrom(counts, order));
  }

  /** The taste half of `getClusterStats`: the nested `forEach` that fills
      `tasteCounts`, then its entries sorted by count. */
  method RankTastes(items: seq<Drink>) returns (ranking: seq<Entry<string>>)
    ensures ranking == TasteRanking(items)
  {
    var occ := TasteOccurrences(items);
    var counts, inserted := CountKeys(occ);
    assert forall i :: 0 <= i < |inserted| ==> inserted[i] in counts;
    EntriesFromCounts(counts, inserted, occ);
    ranking := SortByCount(EntriesFrom(counts, inserted));
  }

  /** `getClusterStats(items)`. */
  method GetClusterStats(items: seq<Drink>) returns (stats: BinStats)
    ensures stats == StatsOf(items)
  {
    var clusters := RankClusters(items);
    var tastes := RankTastes(items);
    stats := BinStats(|items|, StatsOfRanking(clusters, |items|), FirstThreeKeys(tastes));
  }

  function SumOfStatCounts(cs: seq<ClusterStat>): nat {
    if |cs| == 0 then 0 else cs[0].count + SumOfStatCounts(cs[1..])
  }

  lemma {:induction false} StatCountsMatchRanking(ranking: seq<Entry<Key>>, total: nat)
    requires total > 0 || ranking == []
    requires forall i :: 0 <= i < |ranking| ==> ranking[i].key.ClusterKey?
    ensures SumOfStatCounts(StatsOfRanking(ranking, total)) == SumCounts(ranking)
  {
    if |ranking| > 0 {
      StatCountsMatchRanking(ranking[1..], total);
      assert StatsOfRanking(ranking, total)[1..] == StatsOfRanking(ranking[1..], total);
    }
  }

  /** `totalDrinks` is the size of the group, and the per-cluster counts
      add up to it. */
  lemma {:induction false} StatsTotals(items: seq<Drink>)
    ensures StatsOf(items).totalDrinks == |items|
    ensures SumOfStatCounts(StatsOf(items).clusters) == |items|
  {
    var ks := ItemKeys(items, ByCluster);
    var order := EnumerationOrder(Dedup(ks));
    GroupOrder(items, ByCluster);
    CountsSumToLength(order, ks);
    StatCountsMatchRanking(ClusterRanking(items), |items|);
  }

  /** Each listed cluster occurs in the group: its count is the number of
      members in it, and its percentage is that count's share of the
      group, rounded to the nearest integer, between 0 and 100. */
  lemma {:induction false} StatsPerCluster(items: seq<Drink>)
    ensures forall i :: 0 <= i < |StatsOf(items).clusters| ==>
      0 < StatsOf(items).clusters[i].count == Count(ItemKeys(items, ByCluster), ClusterKey(StatsOf(items).clusters[i].cluster))
    ensures forall i :: 0 <= i < |StatsOf(items).clusters| ==>
      StatsOf(items).clusters[i].percentage <= 100 &&
      200 * StatsOf(items).clusters[i].count - |items| <
        2 * |items| * StatsOf(items).clusters[i].percentage <= 200 * StatsOf(items).clusters[i].count + |items|
  {
    var ks := ItemKeys(items, ByCluster);
    var ranking := ClusterRanking(items);
    RankingEntryCounts(items);
    var cs := StatsOf(items).clusters;
    assert cs == StatsOfRanking(ranking, |items|);
    forall i | 0 <= i < |cs|
      ensures 0 < cs[i].count == Count(ks, ClusterKey(cs[i].cluster))
      ensures 200 * cs[i].count - |items| < 2 * |items| * cs[i].percentage <= 200 * cs[i].count + |items|
      ensures cs[i].percentage <= 100
    {
      assert cs[i] == ClusterStat(ranking[i].key.id, ranking[i].count, Percentage(ranking[i].count, |items|));
      assert ranking[i].key == ClusterKey(cs[i].cluster);
      PercentageRounds(cs[i].count, |items|);
    }
  }

  /** Every member's cluster is listed. */
  lemma {:induction false} StatsCoverMembers(items: seq<Drink>)
    ensures forall m :: 0 <= m < |items| ==>
      exists i :: 0 <= i < |StatsOf(items).clusters| && StatsOf(items).clusters[i].cluster == items[m].cluster
  {
    var ks := ItemKeys(items, ByCluster);
    var ranking := ClusterRanking(items);
    RankingCoversMembers(items);
    var cs := StatsOf(items).clusters;
    assert cs == StatsOfRanking(ranking, |items|);
    forall m | 0 <= m < |items| ensures exists i :: 0 <= i < |cs| && cs[i].cluster == items[m].cluster {
      var i :| 0 <= i < |ranking| && ranking[i].key == ks[m];
      assert cs[i].cluster == ranking[i].key.id;
    }
  }

  /** Each ranked cluster occurs in the group, with its count. */
  lemma {:induction false} RankingEntryCounts(items: seq<Drink>)
    ensures forall i :: 0 <= i < |ClusterRanking(items)| ==>
      0 < ClusterRanking(items)[i].count == Count(ItemKeys(items, ByCluster), ClusterRanking(items)[i].key)
  {
    var ks := ItemKeys(items, ByCluster);
    var order := EnumerationOrder(Dedup(ks));
    var ranking := ClusterRanking(items);
    GroupOrder(items, ByCluster);
    RankedEntries(order, ks, ranking);
  }

  /** Each member's cluster is ranked. */
  lemma {:induction false} RankingCoversMembers(items: seq<Drink>)
    ensures forall m :: 0 <= m < |items| ==>
      exists i :: 0 <= i < |ClusterRanking(items)| && ClusterRanking(items)[i].key == ItemKeys(items, ByCluster)[m]
  {
    var ks := ItemKeys(items, ByCluster);
    var order := EnumerationOrder(Dedup(ks));
    var ranking := ClusterRanking(items);
    GroupOrder(items, ByCluster);
    RankedEntries(order, ks, ranking);
    forall m | 0 <= m < |items|
      ensures exists i :: 0 <= i < |ranking| && ranking[i].key == ks[m]
    {
      assert ks[m] in order;
    }
  }

  /** The ranking lists clusters by count, descending; `Object.entries`
      lists cluster ids ascending and the sort is stable, so clusters with
      equal counts keep ascending id order. */
  lemma {:induction false} RankingOrdered(items: seq<Drink>)
    ensures CountThenKeyOrdered(ClusterRanking(items))
  {
    var ks := ItemKeys(items, ByCluster);
    var order := EnumerationOrder(Dedup(ks));
    var es := EntriesOf(order, ks);
    GroupOrder(items, ByCluster);
    assert KeysIncreasing(es);
    SortByCountStable(es);
  }

  /** The statistics list clusters by count, descending, and by id among
      equal counts. */
  lemma {:induction false} StatsOrdered(items: seq<Drink>)
    ensures forall i, j :: 0 <= i < j < |StatsOf(items).clusters| ==>
      StatsOf(items).clusters[i].count > StatsOf(items).clusters[j].count ||
      (StatsOf(items).clusters[i].count == StatsOf(items).clusters[j].count &&
       StatsOf(items).clusters[i].cluster < StatsOf(items).clusters[j].cluster)
  {
    var ranking := ClusterRanking(items);
    RankingOrdered(items);
    StatsOfOrderedRanking(ranking, |items|);
  }

  lemma StatsOfOrderedRanking(ranking: seq<Entry<Key>>, total: nat)
    requires total > 0 || ranking == []
    requires forall i :: 0 <= i < |ranking| ==> ranking[i].key.ClusterKey?
    requires CountThenKeyOrdered(ranking)
    ensures forall i, j :: 0 <= i < j < |StatsOfRanking(ranking, total)| ==>
      StatsOfRanking(ranking, total)[i].count > StatsOfRanking(ranking, total)[j].count ||
      (StatsOfRanking(ranking, total)[i].count == StatsOfRanking(ranking, total)[j].count &&
       StatsOfRanking(ranking, total)[i].cluster < StatsOfRanking(ranking, total)[j].cluster)
  {
  }

  /** Every taste of every member is counted, not only the first. */
  lemma TasteOccurrencesMembership(items: seq<Drink>, x: string)
    ensures x in TasteOccurrences(items) <==> exists m :: 0 <= m < |items| && x in Tastes(items[m])
  {
    var gs := seq(|items|, i requires 0 <= i < |items| => Tastes(items[i]));
    FlattenMembership(gs, x);
    if x in TasteOccurrences(items) {
      var g :| g in gs && x in g;
      var m :| 0 <= m < |gs| && gs[m] == g;
    }
    forall m | 0 <= m < |items| && x in Tastes(items[m]) ensures x in TasteOccurrences(items) {
      assert gs[m] in gs;
    }
  }

  /** The top tastes: at most three distinct tastes of the group (all of
      them when there are fewer), each occurring in the group. */
  lemma {:induction false} TopTastesChosen(items: seq<Drink>)
    ensures |TopTastes(items)| == (if |Dedup(TasteOccurrences(items))| < 3 then |Dedup(TasteOccurrences(items))| else 3)
    ensures NoDup(TopTastes(items))
    ensures forall i :: 0 <= i < |TopTastes(items)| ==> TopTastes(items)[i] in TasteOccurrences(items)
  {
    var occ := TasteOccurrences(items);
    var ranking := TasteRanking(items);
    var top := TopTastes(items);
    RankedEntries(Dedup(occ), occ, ranking);
    forall i | 0 <= i < |top| ensures top[i] in occ {
      assert top[i] == ranking[i].key;
      DedupMembership(occ, ranking[i].key);
    }
    forall i, j | 0 <= i < j < |top| ensures top[i] != top[j] {
      assert top[i] == ranking[i].key && top[j] == ranking[j].key;
    }
  }

  /** The top tastes are listed by frequency, descending. */
  lemma {:induction false} TopTastesByFrequency(items: seq<Drink>)
    ensures forall i, j :: 0 <= i < j < |TopTastes(items)| ==>
      Count(TasteOccurrences(items), TopTastes(items)[i]) >= Count(TasteOccurrences(items), TopTastes(items)[j])
  {
    var occ := TasteOccurrences(items);
    var ranking := TasteRanking(items);
    var top := TopTastes(items);
    RankedEntries(Dedup(occ), occ, ranking);
    forall i, j | 0 <= i < j < |top| ensures Count(occ, top[i]) >= Count(occ, top[j]) {
      assert top[i] == ranking[i].key && top[j] == ranking[j].key;
      assert ranking[i].count >= ranking[j].count;
    }
  }

  /** No taste left out of the top list occurs more often than one in it. */
  lemma {:induction false} TopTastesNoneOmittedOutranks(items: seq<Drink>)
    ensures forall x :: x in TasteOccurrences(items) && x !in TopTastes(items) ==>
      forall i :: 0 <= i < |TopTastes(items)| ==>
        Count(TasteOccurrences(items), x) <= Count(TasteOccurrences(items), TopTastes(items)[i])
  {
    forall x | x in TasteOccurrences(items) && x !in TopTastes(items)
      ensures forall i :: 0 <= i < |TopTastes(items)| ==>
        Count(TasteOccurrences(items), x) <= Count(TasteOccurrences(items), TopTastes(items)[i])
    {
      OmittedTasteBelowTop(items, x);
    }
  }

  lemma OmittedTasteBelowTop(items: seq<Drink>, x: string)
    requires x in TasteOccurrences(items) && x !in TopTastes(items)
    ensures forall i :: 0 <= i < |TopTastes(items)| ==>
      Count(TasteOccurrences(items), x) <= Count(TasteOccurrences(items), TopTastes(items)[i])
  {
    var occ := TasteOccurrences(items);
    var ranking := TasteRanking(items);
    var top := TopTastes(items);
    RankedEntries(Dedup(occ), occ, ranking);
    DedupMembership(occ, x);
    var m :| 0 <= m < |ranking| && ranking[m].key == x;
    assert m >= |top|;
  }

  // ---------------------------------------------------------------------
  // Zoom rule and drawn marks (`renderHexagons(scale)`)

  const BaseRadius: real := 15.0

  /** The hexagon radius at a zoom scale. */
  function HexRadius(scale: real): real {
    if scale >= 2.5 then BaseRadius / (scale / 2.0) else BaseRadius
  }

  datatype RenderMode = PerDrink | Binned(radius: real)

  /** From scale 5 on every drink is drawn on its own; below, drinks are
      binned into hexagons of radius `HexRadius(scale)`. */
  function ModeForScale(scale: real): RenderMode {
    if scale >= 5.0 then PerDrink else Binned(HexRadius(scale))
  }

  /** Over the zoom range 1..10 the radius is positive, never above 15,
      and never grows as the scale grows. */
  lemma RadiusOverZoomRange(s1: real, s2: real)
    requires 1.0 <= s1 <= s2 <= 10.0
    ensures 0.0 < HexRadius(s2) <= HexRadius(s1) <= BaseRadius
  {
    if s2 >= 2.5 {
      DivisionMonotone(BaseRadius, 1.0, s2 / 2.0);
    }
    if s1 >= 2.5 {
      DivisionMonotone(BaseRadius, s1 / 2.0, s2 / 2.0);
    }
  }

  lemma DivisionMonotone(a: real, x: real, y: real)
    requires a > 0.0 && 0.0 < x <= y
    ensures 0.0 < a / y <= a / x
  {
    var p, q := a / x, a / y;
    assert p * x == a && q * y == a;
    assert q > 0.0;
    assert q * x <= q * y;
    assert q * x <= p * x;
  }

  /** The bins the hexbin generator returns for `data` (the generator is
      not part of this model): non-empty groups that together hold every
      record once. */
  predicate IsBinning(bins: seq<seq<Drink>>, data: seq<Drink>) {
    (forall i :: 0 <= i < |bins| ==> |bins[i]| > 0) && multiset(Flatten(bins)) == multiset(data)
  }

  /** The text drawn on a hexagon: its member count when above one. */
  function BinLabel(bin: seq<Drink>): (text: string)
    ensures text != "" <==> |bin| > 1
    ensures text != "" ==> AllDigits(text) && ParseDigits(text) == |bin|
  {
    ParseNatToString(|bin|);
    if |bin| > 1 then NatToString(|bin|) else ""
  }

  /** The drink a click on a hexagon selects. */
  function BinClick(bin: seq<Drink>): (selected: Option<Drink>)
    ensures selected.Some? <==> |bin| == 1
    ensures selected.Some? ==> bin == [selected.value]
  {
    if |bin| == 1 then Some(bin[0]) else None
  }

  /** One drawn mark; colours are positions in the ordinal scale's range. */
  datatype Mark =
    | Point(drink: Drink, color: nat)
    | Hexagon(members: seq<Drink>, color: nat, countText: string)

  /** A member of a bin is a record of the data. */
  lemma {:induction false} BinMemberInData(bins: seq<seq<Drink>>, data: seq<Drink>, i: nat, d: Drink)
    requires IsBinning(bins, data) && i < |bins| && d in bins[i]
    ensures d in data
  {
    FlattenMembership(bins, d);
    assert bins[i] in bins;
    assert d in multiset(Flatten(bins));
  }

  /** The key a bin is coloured by is a value of the colour domain. */
  lemma {:induction false} GroupKeyInDomain(bins: seq<seq<Drink>>, data: seq<Drink>, mode: ColorBy, i: nat)
    requires IsBinning(bins, data) && i < |bins|
    ensures GroupKey(bins[i], mode).Some? && GroupKey(bins[i], mode).value in ColorDomain(data, mode)
  {
    GroupKeyIsMode(bins[i], mode);
    var ks := ItemKeys(bins[i], mode);
    var m :| 0 <= m < |ks| && ks[m] == GroupKey(bins[i], mode).value;
    BinMemberInData(bins, data, i, bins[i][m]);
    var n :| 0 <= n < |data| && data[n] == bins[i][m];
  }

  /** The point drawn for each record from scale 5 on. */
  function PointMarks(data: seq<Drink>, mode: ColorBy): (marks: seq<Mark>)
    ensures |marks| == |data|
  {
    var domain := ColorDomain(data, mode);
    seq(|data|, i requires 0 <= i < |data| => Point(data[i], OrdinalColor(domain, PointKey(data[i], mode))))
  }

  /** The hexagon drawn for bin `i`, coloured by the bin's vote. */
  function HexagonOf(data: seq<Drink>, bins: seq<seq<Drink>>, mode: ColorBy, i: nat): Mark
    requires IsBinning(bins, data) && i < |bins|
  {
    GroupKeyInDomain(bins, data, mode, i);
    Hexagon(bins[i], OrdinalColor(ColorDomain(data, mode), GroupKey(bins[i], mode).value), BinLabel(bins[i]))
  }

  function HexagonMarks(data: seq<Drink>, bins: seq<seq<Drink>>, mode: ColorBy): (marks: seq<Mark>)
    requires IsBinning(bins, data)
    ensures |marks| == |bins|
  {
    seq(|bins|, i requires 0 <= i < |bins| => HexagonOf(data, bins, mode, i))
  }

  /** The marks drawn at a zoom scale, given the bins the generator
      returns for that scale's radius. */
  function Render(data: seq<Drink>, bins: seq<seq<Drink>>, mode: ColorBy, scale: real): seq<Mark>
    requires IsBinning(bins, data)
  {
    if |data| == 0 then []
    else if ModeForScale(scale).PerDrink? then PointMarks(data, mode)
    else HexagonMarks(data, bins, mode)
  }

  /** From scale 5 on, exactly one point is drawn per record, in order,
      coloured by the record's own key. */
  lemma {:induction false} PerDrinkRendering(data: seq<Drink>, bins: seq<seq<Drink>>, mode: ColorBy, scale: real)
    requires IsBinning(bins, data) && scale >= 5.0
    ensures var marks := Render(data, bins, mode, scale);
      |marks| == |data| &&
      forall i :: 0 <= i < |marks| ==>
        (marks[i].Point? && marks[i].drink == data[i] &&
         marks[i].color == OrdinalColor(ColorDomain(data, mode), PointKey(data[i], mode)))
  {
  }

  /** Below scale 5, one hexagon is drawn per bin, holding that bin, so
      every record is in exactly one hexagon. */
  lemma {:induction false} BinnedRendering(data: seq<Drink>, bins: seq<seq<Drink>>, mode: ColorBy, scale: real)
    requires IsBinning(bins, data) && |data| > 0 && scale < 5.0
    ensures var marks := Render(data, bins, mode, scale);
      |marks| == |bins| &&
      forall i :: 0 <= i < |marks| ==> marks[i].Hexagon? && marks[i].members == bins[i]
  {
    var marks := Render(data, bins, mode, scale);
    assert marks == HexagonMarks(data, bins, mode);
    forall i | 0 <= i < |marks| ensures marks[i].Hexagon? && marks[i].members == bins[i] {
      assert marks[i] == HexagonOf(data, bins, mode, i);
    }
  }

  /** A one-member hexagon has the colour its drink would have drawn on
      its own, and no count text. */
  lemma {:induction false} SingleMemberHexagon(data: seq<Drink>, bins: seq<seq<Drink>>, mode: ColorBy, scale: real, i: nat)
    requires IsBinning(bins, data) && |data| > 0 && scale < 5.0
    requires i < |bins| && |bins[i]| == 1
    ensures PointKey(bins[i][0], mode) in ColorDomain(data, mode)
    ensures Render(data, bins, mode, scale)[i] ==
      Hexagon(bins[i], OrdinalColor(ColorDomain(data, mode), PointKey(bins[i][0], mode)), "")
  {
    var bin := bins[i];
    SingleMemberBin(bin, mode);
    GroupKeyInDomain(bins, data, mode, i);
    assert BinLabel(bin) == "";
    var marks := Render(data, bins, mode, scale);
    assert marks == HexagonMarks(data, bins, mode);
    assert marks[i] == HexagonOf(data, bins, mode, i);
  }

  // ---------------------------------------------------------------------
  // Legend

  /** `sortedDomain`: numeric sort in cluster mode, default (string)
      sort otherwise. */
  function LegendKeys(data: seq<Drink>, mode: ColorBy): seq<Key> {
    SortKeys(ColorDomain(data, mode))
  }

  /** The legend: one swatch per value of `sortedDomain`. */
  function Legend(data: seq<Drink>, mode: ColorBy): (legend: seq<LegendEntry>)
    ensures |legend| == |LegendKeys(data, mode)|
  {
    var domain := ColorDomain(data, mode);
    var keys := LegendKeys(data, mode);
    seq(|keys|, i requires 0 <= i < |keys| => LegendEntry(OrdinalColor(domain, keys[i]), LegendText(keys[i])))
  }

  /** The legend lists every colour-domain value exactly once, in
      ascending order; in cluster mode that is the domain's own order. */
  lemma {:induction false} LegendListsDomain(data: seq<Drink>, mode: ColorBy)
    ensures var keys := LegendKeys(data, mode); var domain := ColorDomain(data, mode);
      StrictlySorted(keys) && NoDup(keys) && |keys| == |domain| &&
      (forall k :: k in keys <==> k in domain) &&
      (mode == ByCluster ==> keys == domain)
  {
    var domain := ColorDomain(data, mode);
    SortedNoDup(SortKeys(domain));
    SortKeysLength(domain);
    if mode == ByCluster {
      SortedUnique(SortKeys(domain), domain);
    }
  }

}
