/** The shared-ingredient network of drinks: links between every two
    drinks with common ingredients, the clamp the simulation tick applies to
    node positions, and the cluster legend. */
module NetworkGraph {
  import opened Seqs
  import opened Text
  import opened Palette
  import opened Drinks
  import opened PairScan

  /** Canvas size and the margin node centres keep from its edges. */
  const Width: real := 800.0
  const Height: real := 600.0
  const Margin: real := 15.0

  /** One link: positions of the two drinks, the number of common
      ingredients and the common ingredients themselves. */
  datatype Link = Link(source: nat, target: nat, value: nat, commonIngredients: seq<string>)

  /** The ingredient lists the scan compares, one per drink. */
  function IngredientLists(data: seq<Drink>): (r: seq<seq<string>>)
    ensures |r| == |data|
    ensures forall k :: 0 <= k < |data| ==> r[k] == data[k].ingredientsNoUnits
  {
    seq(|data|, k requires 0 <= k < |data| => data[k].ingredientsNoUnits)
  }

  function LinkOf(p: Pair<string>): Link {
    Link(p.i, p.j, |p.common|, p.common)
  }

  /** The links the nested loops build. */
  function Links(data: seq<Drink>): seq<Link> {
    var pairs := Pairs(IngredientLists(data));
    seq(|pairs|, k requires 0 <= k < |pairs| => LinkOf(pairs[k]))
  }

  method BuildLinks(data: seq<Drink>) returns (links: seq<Link>)
    ensures links == Links(data)
  {
    var pairs := Scan(IngredientLists(data));
    links := seq(|pairs|, k requires 0 <= k < |pairs| => LinkOf(pairs[k]));
  }

  /** Every link joins drinks `source < target`, counts their common
      ingredients (at least one), and lists exactly the ingredients of the
      source drink that the target drink also has, in the source's order. */
  lemma LinksWellFormed(data: seq<Drink>, l: Link)
    requires l in Links(data)
    ensures l.source < l.target < |data|
    ensures l.value == |l.commonIngredients| >= 1
    ensures l.commonIngredients == Common(data[l.source].ingredientsNoUnits, data[l.target].ingredientsNoUnits)
    ensures forall x :: x in l.commonIngredients ==>
      x in data[l.source].ingredientsNoUnits && x in data[l.target].ingredientsNoUnits
  {
    var lists := IngredientLists(data);
    var pairs := Pairs(lists);
    var k :| 0 <= k < |pairs| && l == LinkOf(pairs[k]);
    PairsLinked(lists);
    assert pairs[k] in pairs;
    CommonMembers(lists[l.source], lists[l.target]);
  }

  /** Drinks `i < j` are linked exactly when their ingredient lists share
      an ingredient. */
  lemma LinkExactlyWhenShared(data: seq<Drink>, i: nat, j: nat)
    requires i < j < |data|
    ensures (exists l :: l in Links(data) && l.source == i && l.target == j)
      <==> exists k :: 0 <= k < |data[i].ingredientsNoUnits| && data[i].ingredientsNoUnits[k] in data[j].ingredientsNoUnits
  {
    var lists := IngredientLists(data);
    var pairs := Pairs(lists);
    PairsExactlyShared(lists, i, j);
    if exists l :: l in Links(data) && l.source == i && l.target == j {
      var l :| l in Links(data) && l.source == i && l.target == j;
      var k :| 0 <= k < |pairs| && l == LinkOf(pairs[k]);
      assert pairs[k] in pairs;
    }
    if exists p :: p in pairs && p.i == i && p.j == j {
      var p :| p in pairs && p.i == i && p.j == j;
      var k :| 0 <= k < |pairs| && pairs[k] == p;
      assert Links(data)[k] == LinkOf(p);
    }
  }

  /** Links come out in increasing `(source, target)` order; hence no pair
      of drinks is linked twice, and there are at most `n(n-1)/2` links. */
  lemma LinksOrdered(data: seq<Drink>)
    ensures var links := Links(data);
      forall a, b :: 0 <= a < b < |links| ==>
        links[a].source < links[b].source || (links[a].source == links[b].source && links[a].target < links[b].target)
    ensures 2 * |Links(data)| <= |data| * (|data| - 1)
  {
    PairsOrdered(IngredientLists(data));
    PairsBound(IngredientLists(data));
  }

  /** `Math.max(15, Math.min(extent - 15, v))`. */
  function Clamp(v: real, extent: real): (r: real)
    ensures Margin <= extent - Margin ==> Margin <= r <= extent - Margin
    ensures Margin <= v <= extent - Margin ==> r == v
  {
    var upper := if extent - Margin < v then extent - Margin else v;
    if upper < Margin then Margin else upper
  }

  /** Clamping twice gives the same position as clamping once. */
  lemma ClampIdempotent(v: real, extent: real)
    ensures Clamp(Clamp(v, extent), extent) == Clamp(v, extent)
  {
  }

  /** A simulated node: the drink record the simulation writes `x`/`y`
      into. */
  class SimNode {
    var x: real
    var y: real

    constructor (x0: real, y0: real)
      ensures x == x0 && y == y0
    {
      x, y := x0, y0;
    }
  }

  /** The tick handler: writes each node's clamped position back into the
      node. A node listed twice is clamped twice, which changes nothing. */
  method Tick(nodes: seq<SimNode>)
    modifies nodes
    ensures forall n :: n in nodes ==> n.x == Clamp(old(n.x), Width) && n.y == Clamp(old(n.y), Height)
    ensures forall n :: n in nodes ==> Margin <= n.x <= Width - Margin && Margin <= n.y <= Height - Margin
  {
    for i := 0 to |nodes|
      invariant forall k :: 0 <= k < i ==>
        nodes[k].x == Clamp(old(nodes[k].x), Width) && nodes[k].y == Clamp(old(nodes[k].y), Height)
      invariant forall k :: i <= k < |nodes| ==>
        (nodes[k].x == old(nodes[k].x) || nodes[k].x == Clamp(old(nodes[k].x), Width)) &&
        (nodes[k].y == old(nodes[k].y) || nodes[k].y == Clamp(old(nodes[k].y), Height))
    {
      var n := nodes[i];
      ClampIdempotent(old(n.x), Width);
      ClampIdempotent(old(n.y), Height);
      n.x := Clamp(n.x, Width);
      n.y := Clamp(n.y, Height);
    }
  }

  /** The cluster of every drink, in data order. */
  function ClusterSeq(data: seq<Drink>): (r: seq<nat>)
    ensures |r| == |data| && forall k :: 0 <= k < |data| ==> r[k] == data[k].cluster
  {
    seq(|data|, k requires 0 <= k < |data| => data[k].cluster)
  }

  /** `[...new Set(data.map(d => d.cluster))]`: the colour domain and the
      legend order. */
  function Clusters(data: seq<Drink>): seq<nat> {
    Dedup(ClusterSeq(data))
  }

  /** The cluster domain holds each drink's cluster exactly once, nothing
      else, in order of first appearance in the data. */
  lemma ClusterDomain(data: seq<Drink>)
    ensures NoDup(Clusters(data))
    ensures forall k :: 0 <= k < |data| ==> data[k].cluster in Clusters(data)
    ensures forall c :: c in Clusters(data) <==> exists k :: 0 <= k < |data| && data[k].cluster == c
    ensures forall a, b :: 0 <= a < b < |Clusters(data)| ==>
      IndexOf(ClusterSeq(data), Clusters(data)[a]) < IndexOf(ClusterSeq(data), Clusters(data)[b])
  {
    var cs := ClusterSeq(data);
    forall c ensures c in Clusters(data) <==> exists k :: 0 <= k < |data| && data[k].cluster == c {
      DedupMembership(cs, c);
    }
    forall a, b | 0 <= a < b < |Clusters(data)|
      ensures IndexOf(cs, Clusters(data)[a]) < IndexOf(cs, Clusters(data)[b])
    {
      DedupFirstSeenOrder(cs, a, b);
    }
  }

  /** `colorScale(d.cluster)`: the fill of drink `k`'s node. */
  function NodeColor(data: seq<Drink>, k: nat): (c: nat)
    requires k < |data|
    ensures c < Category10
  {
    ClusterDomain(data);
    CycleColor(Clusters(data), data[k].cluster, Category10)
  }

  /** The legend: one row per domain cluster, in domain order, coloured by
      the Category10 scale over that domain, with text `Кластер <id>`. */
  function Legend(data: seq<Drink>): (rows: seq<LegendEntry>)
    ensures |rows| == |Clusters(data)|
  {
    var domain := Clusters(data);
    seq(|domain|, i requires 0 <= i < |domain| =>
      LegendEntry(CycleColor(domain, domain[i], Category10), "Кластер " + NatToString(domain[i])))
  }

  /** Row `i` names the `i`-th cluster, with the colour of its nodes; the
      first ten clusters get pairwise distinct colours. */
  lemma LegendRows(data: seq<Drink>, i: nat)
    requires i < |Clusters(data)|
    ensures Legend(data)[i].color == CycleColor(Clusters(data), Clusters(data)[i], Category10)
    ensures Legend(data)[i].text == "Кластер " + NatToString(Clusters(data)[i])
    ensures i < Category10 ==> Legend(data)[i].color == i
  {
    var domain := Clusters(data);
    assert IndexOf(domain, domain[i]) == i;
  }

  /** Every node has the colour of its cluster's legend row. */
  lemma NodeMatchesLegend(data: seq<Drink>, k: nat)
    requires k < |data|
    ensures exists i :: (0 <= i < |Legend(data)| && Legend(data)[i].color == NodeColor(data, k)
      && Legend(data)[i].text == "Кластер " + NatToString(data[k].cluster))
  {
    ClusterDomain(data);
    var i := IndexOf(Clusters(data), data[k].cluster);
    LegendRows(data, i);
  }
}
