/** The drink flavour graph: the taste-to-index table, the group of each
    drink node, links between drinks with common tastes, and the legend of
    groups. */
module Graph {
  import opened Wrappers
  import opened Seqs
  import opened Text
  import opened Palette
  import opened Drinks
  import opened PairScan

  /** The number of colours of `d3.schemeCategory10`, which the group rule
      wraps taste indices into. */
  const GroupCount: nat := 10

  /** `tastes.forEach((taste, i) => tasteGroups[taste] = i)`: each taste
      maps to its index, and a repeated taste keeps its last index. */
  function TasteGroups(tastes: seq<string>): map<string, nat> {
    if |tastes| == 0 then map[]
    else TasteGroups(tastes[..|tastes| - 1])[tastes[|tastes| - 1] := |tastes| - 1]
  }

  /** The table holds exactly the listed tastes, each mapped to the index
      of its last occurrence. */
  lemma {:induction false} TasteGroupsIndex(tastes: seq<string>)
    ensures forall t :: t in TasteGroups(tastes) <==> t in tastes
    ensures forall t :: t in TasteGroups(tastes) ==>
      TasteGroups(tastes)[t] < |tastes| && tastes[TasteGroups(tastes)[t]] == t
    ensures forall t, k :: t in TasteGroups(tastes) && TasteGroups(tastes)[t] < k < |tastes| ==> tastes[k] != t
  {
    if |tastes| > 0 {
      var n := |tastes| - 1;
      var p := tastes[..n];
      TasteGroupsIndex(p);
      assert tastes == p + [tastes[n]];
    }
  }

  /** Appending a taste maps it to its new, last, index. */
  lemma TasteGroupsSnoc(tastes: seq<string>, t: string)
    ensures TasteGroups(tastes + [t]) == TasteGroups(tastes)[t := |tastes|]
  {
    assert (tastes + [t])[..|tastes|] == tastes;
  }

  lemma TasteGroupsDomain(tastes: seq<string>, t: string)
    ensures t in TasteGroups(tastes) <==> t in tastes
  {
    TasteGroupsIndex(tastes);
  }

  /** One step of the `forEach`: a new key joins the key order, and the
      taste's entry is (re)set to its index. */
  lemma TasteGroupsStep(tastes: seq<string>, t: string)
    ensures TasteGroups(tastes + [t]) == TasteGroups(tastes)[t := |tastes|]
    ensures Dedup(tastes + [t]) == if t in TasteGroups(tastes) then Dedup(tastes) else Dedup(tastes) + [t]
  {
    TasteGroupsSnoc(tastes, t);
    TasteGroupsDomain(tastes, t);
    DedupSnoc(tastes, t);
    DedupMembership(tastes, t);
  }

  /** With distinct tastes, each taste maps to its own position. */
  lemma DistinctTasteIndex(tastes: seq<string>, i: nat)
    requires NoDup(tastes) && i < |tastes|
    ensures tastes[i] in TasteGroups(tastes) && TasteGroups(tastes)[tastes[i]] == i
  {
    TasteGroupsIndex(tastes);
  }

  /** The `forEach` that fills `tasteGroups`. `keys` is the key order of the
      object, which for these (non-numeric) keys is insertion order. */
  method BuildTasteGroups(tastes: seq<string>) returns (groups: map<string, nat>, keys: seq<string>)
    ensures groups == TasteGroups(tastes)
    ensures keys == Dedup(tastes)
  {
    groups, keys := map[], [];
    ghost var seen: seq<string> := [];
    for i := 0 to |tastes|
      invariant seen == tastes[..i]
      invariant groups == TasteGroups(seen)
      invariant keys == Dedup(seen)
    {
      var taste := tastes[i];
      TasteGroupsStep(seen, taste);
      if taste !in groups {
        keys := keys + [taste];
      }
      groups := groups[taste := i];
      seen := seen + [taste];
      assert seen == tastes[..i + 1];
    }
    assert tastes[..|tastes|] == tastes;
  }

  /** The node `group`: 0 for a drink without tastes, otherwise the table
      index of its first taste, wrapped into ten groups. A first taste the
      table lacks gives `undefined % 10`, which is `NaN`: here `None`. */
  function NodeGroup(d: Drink, groups: map<string, nat>): (g: Option<nat>)
    ensures |Tastes(d)| == 0 ==> g == Some(0)
    ensures |Tastes(d)| > 0 ==> (g.Some? <==> Tastes(d)[0] in groups)
    ensures g.Some? ==> g.value < GroupCount
  {
    if |Tastes(d)| > 0 then
      if Tastes(d)[0] in groups then Some(groups[Tastes(d)[0]] % GroupCount) else None
    else Some(0)
  }

  /** The group without the wrap-around: the table index of the first
      taste itself. The colour scale already cycles through its ten colours,
      so the wrap only changes which legend row names the group. */
  function IntendedNodeGroup(d: Drink, groups: map<string, nat>): (g: Option<nat>)
    ensures |Tastes(d)| == 0 ==> g == Some(0)
    ensures |Tastes(d)| > 0 ==> (g.Some? <==> Tastes(d)[0] in groups)
    ensures |Tastes(d)| > 0 && g.Some? ==> g.value % GroupCount == NodeGroup(d, groups).value
  {
    if |Tastes(d)| > 0 then
      if Tastes(d)[0] in groups then Some(groups[Tastes(d)[0]]) else None
    else Some(0)
  }

  /** A graph node: the drink's name as id, its tastes (`drink.taste || []`),
      the drink itself and its group. */
  datatype Node = Node(id: string, tastes: seq<string>, data: Drink, group: Option<nat>)

  function NodeOf(d: Drink, groups: map<string, nat>): Node {
    Node(d.name, Tastes(d), d, IntendedNodeGroup(d, groups))
  }

  /** `drinks.map(...)`: one node per drink, in order. */
  function Nodes(drinks: seq<Drink>, groups: map<string, nat>): (nodes: seq<Node>)
    ensures |nodes| == |drinks|
    ensures forall k :: 0 <= k < |drinks| ==> nodes[k].data == drinks[k] && nodes[k].id == drinks[k].name
    ensures forall k :: 0 <= k < |drinks| ==>
      nodes[k].tastes == Tastes(drinks[k]) && nodes[k].group == IntendedNodeGroup(drinks[k], groups)
  {
    seq(|drinks|, k requires 0 <= k < |drinks| => NodeOf(drinks[k], groups))
  }

  /** A link between two drinks with common tastes: the two node ids, the
      strength `|tastes| / 5`, and the common tastes. */
  datatype TasteLink = TasteLink(source: string, target: string, strength: real, tastes: seq<string>)

  function TasteLists(nodes: seq<Node>): (r: seq<seq<string>>)
    ensures |r| == |nodes|
    ensures forall k :: 0 <= k < |nodes| ==> r[k] == nodes[k].tastes
  {
    seq(|nodes|, k requires 0 <= k < |nodes| => nodes[k].tastes)
  }

  /** The positions `(i, j)` the nested loops link, in push order. */
  function LinkPairs(nodes: seq<Node>): seq<Pair<string>> {
    Pairs(TasteLists(nodes))
  }

  function LinkOf(nodes: seq<Node>, p: Pair<string>): TasteLink
    requires p.i < |nodes| && p.j < |nodes|
  {
    TasteLink(nodes[p.i].id, nodes[p.j].id, |p.common| as real / 5.0, p.common)
  }

  /** The links the nested loops push. */
  function Links(nodes: seq<Node>): (links: seq<TasteLink>)
    ensures |links| == |LinkPairs(nodes)|
  {
    var pairs := LinkPairs(nodes);
    PairsLinked(TasteLists(nodes));
    seq(|pairs|, k requires 0 <= k < |pairs| => (assert pairs[k] in pairs; LinkOf(nodes, pairs[k])))
  }

  method BuildLinks(nodes: seq<Node>) returns (links: seq<TasteLink>)
    ensures links == Links(nodes)
  {
    var pairs := Scan(TasteLists(nodes));
    PairsLinked(TasteLists(nodes));
    links := seq(|pairs|, k requires 0 <= k < |pairs| => (assert pairs[k] in pairs; LinkOf(nodes, pairs[k])));
  }

  /** Link `k` joins nodes `i < j`: it carries their ids, the tastes of node
      `i` that node `j` also has (at least one, in node `i`'s order), and the
      strength `|tastes| / 5`. */
  lemma LinkWellFormed(nodes: seq<Node>, k: nat)
    requires k < |Links(nodes)|
    ensures var p := LinkPairs(nodes)[k];
      var l := Links(nodes)[k];
      p.i < p.j < |nodes| &&
      l.source == nodes[p.i].id && l.target == nodes[p.j].id &&
      l.tastes == Common(nodes[p.i].tastes, nodes[p.j].tastes) && |l.tastes| >= 1 &&
      l.strength == |l.tastes| as real / 5.0 &&
      (forall x :: x in l.tastes ==> x in nodes[p.i].tastes && x in nodes[p.j].tastes)
  {
    var lists := TasteLists(nodes);
    var p := LinkPairs(nodes)[k];
    PairsLinked(lists);
    assert p in LinkPairs(nodes);
    CommonMembers(lists[p.i], lists[p.j]);
  }

  /** Nodes `i < j` are linked exactly when their taste lists share a
      taste; links come in increasing `(i, j)` order, so no pair is linked
      twice and no node is linked to itself. */
  lemma LinksExactlyShared(nodes: seq<Node>, i: nat, j: nat)
    requires i < j < |nodes|
    ensures (exists k :: 0 <= k < |LinkPairs(nodes)| && LinkPairs(nodes)[k].i == i && LinkPairs(nodes)[k].j == j)
      <==> exists t :: 0 <= t < |nodes[i].tastes| && nodes[i].tastes[t] in nodes[j].tastes
    ensures forall a, b :: 0 <= a < b < |LinkPairs(nodes)| ==> LexLess(LinkPairs(nodes)[a], LinkPairs(nodes)[b])
  {
    var lists := TasteLists(nodes);
    PairsExactlyShared(lists, i, j);
    PairsOrdered(lists);
    var pairs := LinkPairs(nodes);
    if exists p :: p in pairs && p.i == i && p.j == j {
      var p :| p in pairs && p.i == i && p.j == j;
      var k :| 0 <= k < |pairs| && pairs[k] == p;
    }
    if exists k :: 0 <= k < |pairs| && pairs[k].i == i && pairs[k].j == j {
      var k :| 0 <= k < |pairs| && pairs[k].i == i && pairs[k].j == j;
      assert pairs[k] in pairs;
    }
  }

  /** `Math.max(1, d.strength * 2)`. */
  function StrokeWidth(l: TasteLink): real {
    if l.strength * 2.0 < 1.0 then 1.0 else l.strength * 2.0
  }

  /** Every drawn link is at least one unit wide; links with three or more
      common tastes are drawn at `2 * |tastes| / 5`, thinner ones at 1. */
  lemma StrokeWidthOfLink(nodes: seq<Node>, k: nat)
    requires k < |Links(nodes)|
    ensures StrokeWidth(Links(nodes)[k]) >= 1.0
    ensures var l := Links(nodes)[k];
      StrokeWidth(l) == if |l.tastes| >= 3 then 2.0 * (|l.tastes| as real) / 5.0 else 1.0
  {
    LinkWellFormed(nodes, k);
  }

  function GroupSeq(nodes: seq<Node>): (r: seq<Option<nat>>)
    ensures |r| == |nodes| && forall k :: 0 <= k < |nodes| ==> r[k] == nodes[k].group
  {
    seq(|nodes|, k requires 0 <= k < |nodes| => nodes[k].group)
  }

  /** `[...new Set(nodes.map(d => d.group))]`. The colour scale has no
      explicit domain; the nodes ask it for their colours first, in node
      order, so its domain is this same list. */
  function UniqueGroups(nodes: seq<Node>): seq<Option<nat>> {
    Dedup(GroupSeq(nodes))
  }

  /** The unique groups hold every node's group once, nothing else, in
      order of first appearance among the nodes. */
  lemma UniqueGroupsFirstSeen(nodes: seq<Node>)
    ensures NoDup(UniqueGroups(nodes))
    ensures forall g :: g in UniqueGroups(nodes) <==> exists k :: 0 <= k < |nodes| && nodes[k].group == g
    ensures forall a, b :: 0 <= a < b < |UniqueGroups(nodes)| ==>
      IndexOf(GroupSeq(nodes), UniqueGroups(nodes)[a]) < IndexOf(GroupSeq(nodes), UniqueGroups(nodes)[b])
  {
    var gs := GroupSeq(nodes);
    forall g ensures g in UniqueGroups(nodes) <==> exists k :: 0 <= k < |nodes| && nodes[k].group == g {
      DedupMembership(gs, g);
    }
    forall a, b | 0 <= a < b < |UniqueGroups(nodes)|
      ensures IndexOf(gs, UniqueGroups(nodes)[a]) < IndexOf(gs, UniqueGroups(nodes)[b])
    {
      DedupFirstSeenOrder(gs, a, b);
    }
  }

  /** `Object.keys(tasteGroups).find(key => tasteGroups[key] === group)`:
      the first key whose index is the group. `NaN` equals nothing. */
  function FindTaste(keys: seq<string>, groups: map<string, nat>, group: Option<nat>): (r: Option<string>)
    requires forall k :: 0 <= k < |keys| ==> keys[k] in groups
    ensures r.Some? ==> (r.value in keys && Some(groups[r.value]) == group &&
      forall k :: 0 <= k < IndexOf(keys, r.value) ==> Some(groups[keys[k]]) != group)
    ensures r.None? ==> forall k :: 0 <= k < |keys| ==> Some(groups[keys[k]]) != group
  {
    if |keys| == 0 then None
    else if Some(groups[keys[0]]) == group then Some(keys[0])
    else
      var r := FindTaste(keys[1..], groups, group);
      assert r.Some? ==> IndexOf(keys, r.value) == 1 + IndexOf(keys[1..], r.value);
      r
  }

  /** The template text of a group: `NaN` for the undefined group. */
  function GroupText(group: Option<nat>): string {
    match group
    case None => "NaN"
    case Some(g) => NatToString(g)
  }

  /** `find(...) || \`Group ${group}\``: the empty taste name is falsy and
      falls back to the group text too. */
  function LegendName(keys: seq<string>, groups: map<string, nat>, group: Option<nat>): (name: string)
    requires forall k :: 0 <= k < |keys| ==> keys[k] in groups
    ensures name == "Group " + GroupText(group) || (name in keys && Some(groups[name]) == group)
  {
    match FindTaste(keys, groups, group)
    case Some(t) => if t != "" then t else "Group " + GroupText(group)
    case None => "Group " + GroupText(group)
  }

  /** Over the taste table of distinct tastes, the legend names group `g`
      after the taste at index `g`, or `Group g` past the end of the list;
      the undefined group is `Group NaN`. */
  lemma LegendNameOfGroup(tastes: seq<string>, group: Option<nat>)
    requires NoDup(tastes)
    ensures TableKeys(tastes)
    ensures group == None ==> LegendName(tastes, TasteGroups(tastes), group) == "Group NaN"
    ensures group.Some? && group.value < |tastes| && tastes[group.value] != "" ==>
      LegendName(tastes, TasteGroups(tastes), group) == tastes[group.value]
    ensures group.Some? && group.value >= |tastes| ==>
      LegendName(tastes, TasteGroups(tastes), group) == "Group " + NatToString(group.value)
  {
    TasteGroupsIndex(tastes);
    var r := FindTaste(tastes, TasteGroups(tastes), group);
    if group.Some? && group.value < |tastes| {
      DistinctTasteIndex(tastes, group.value);
      if r.Some? {
        var m := IndexOf(tastes, r.value);
        DistinctTasteIndex(tastes, m);
      }
    }
  }

  /** The table keys are all looked up in the table. */
  predicate TableKeys(tastes: seq<string>) {
    forall k :: 0 <= k < |tastes| ==> tastes[k] in TasteGroups(tastes)
  }

  /** As written, a drink whose first taste sits at index 10 or later is
      put into group `index % 10`, which the legend names after a different
      taste. */
  lemma WrappedGroupMislabelled(tastes: seq<string>, d: Drink, i: nat)
    requires NoDup(tastes) && GroupCount <= i < |tastes|
    requires |Tastes(d)| > 0 && Tastes(d)[0] == tastes[i] && tastes[i % GroupCount] != ""
    ensures TableKeys(tastes)
    ensures NodeGroup(d, TasteGroups(tastes)) == Some(i % GroupCount)
    ensures LegendName(tastes, TasteGroups(tastes), NodeGroup(d, TasteGroups(tastes))) == tastes[i % GroupCount] != Tastes(d)[0]
  {
    DistinctTasteIndex(tastes, i);
    LegendNameOfGroup(tastes, Some(i % GroupCount));
  }

  /** With the intended group, the legend row of a node's group names the
      node's first taste. */
  lemma LegendNamesFirstTaste(tastes: seq<string>, d: Drink)
    requires NoDup(tastes)
    requires |Tastes(d)| > 0 && Tastes(d)[0] in tastes && Tastes(d)[0] != ""
    ensures TableKeys(tastes)
    ensures LegendName(tastes, TasteGroups(tastes), IntendedNodeGroup(d, TasteGroups(tastes))) == Tastes(d)[0]
  {
    var i := IndexOf(tastes, Tastes(d)[0]);
    DistinctTasteIndex(tastes, i);
    LegendNameOfGroup(tastes, Some(i));
  }

  /** A first taste missing from the table (the table is built from
      `/tastes`, whose names are upper-case, so a title-cased `"Sweet"` is
      missing) gives the `NaN` group, named `Group NaN`. */
  lemma UnknownFirstTasteIsNaN(tastes: seq<string>, d: Drink)
    requires NoDup(tastes) && |Tastes(d)| > 0 && Tastes(d)[0] !in tastes
    ensures TableKeys(tastes)
    ensures NodeGroup(d, TasteGroups(tastes)) == None
    ensures LegendName(tastes, TasteGroups(tastes), NodeGroup(d, TasteGroups(tastes))) == "Group NaN"
  {
    TasteGroupsIndex(tastes);
    LegendNameOfGroup(tastes, None);
  }

  /** Colour of a group: the Category10 scale over the unique groups. */
  function GroupColor(nodes: seq<Node>, group: Option<nat>): (c: nat)
    requires group in UniqueGroups(nodes)
    ensures c < Category10
  {
    CycleColor(UniqueGroups(nodes), group, Category10)
  }

  /** One legend row per unique group, in that order, with the group's
      colour and name. */
  function Legend(nodes: seq<Node>, tastes: seq<string>): (rows: seq<LegendEntry>)
    ensures |rows| == |UniqueGroups(nodes)|
  {
    var domain := UniqueGroups(nodes);
    TasteGroupsIndex(tastes);
    seq(|domain|, i requires 0 <= i < |domain| =>
      LegendEntry(GroupColor(nodes, domain[i]), LegendName(Dedup(tastes), TasteGroups(tastes), domain[i])))
  }

  /** Each node's colour is the colour of its group's legend row, and the
      first ten groups get distinct colours. */
  lemma LegendColors(nodes: seq<Node>, tastes: seq<string>, k: nat)
    requires k < |nodes|
    ensures nodes[k].group in UniqueGroups(nodes)
    ensures exists i :: (0 <= i < |Legend(nodes, tastes)| && UniqueGroups(nodes)[i] == nodes[k].group &&
      Legend(nodes, tastes)[i].color == GroupColor(nodes, nodes[k].group))
    ensures forall i :: 0 <= i < |Legend(nodes, tastes)| && i < Category10 ==> Legend(nodes, tastes)[i].color == i
  {
    UniqueGroupsFirstSeen(nodes);
    var domain := UniqueGroups(nodes);
    var i := IndexOf(domain, nodes[k].group);
    forall i | 0 <= i < |domain| && i < Category10 ensures Legend(nodes, tastes)[i].color == i {
      assert IndexOf(domain, domain[i]) == i;
    }
  }
}
