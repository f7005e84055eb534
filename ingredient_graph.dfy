/** The ingredient co-occurrence graph: vertices and edges from the API
    become nodes and links, each distinct colour of the API's clustering is
    mapped onto a seven-colour palette, cluster sizes are counted, and each
    edge is stroked in the colour of one of its endpoints. */
module IngredientGraph {
  import opened Seqs
  import opened Text
  import opened Tally
  import opened Palette

  /** A vertex as the API sends it: ingredient id, occurrence count and the
      colour its clustering assigned (a list of integer components). */
  datatype Vertex = Vertex(nId: string, size: real, color: seq<int>)
  datatype Edge = Edge(source: string, target: string, weight: real)

  datatype Node = Node(id: string, rawSize: real, origColor: seq<int>)
  datatype Link = Link(source: string, target: string, weight: real)

  function NodeOf(v: Vertex): Node {
    Node(v.nId, v.size, v.color)
  }

  function LinkOf(e: Edge): Link {
    Link(e.source, e.target, e.weight)
  }

  /** `data.vertices.map(...)` and `data.edges.map(...)`: one node per
      vertex and one link per edge, in the same order, with the same
      fields. */
  function Nodes(vertices: seq<Vertex>): (nodes: seq<Node>)
    ensures |nodes| == |vertices|
    ensures forall k :: 0 <= k < |vertices| ==> (nodes[k].id == vertices[k].nId &&
      nodes[k].rawSize == vertices[k].size && nodes[k].origColor == vertices[k].color)
  {
    seq(|vertices|, k requires 0 <= k < |vertices| => NodeOf(vertices[k]))
  }

  function Links(edges: seq<Edge>): (links: seq<Link>)
    ensures |links| == |edges|
    ensures forall k :: 0 <= k < |edges| ==> (links[k].source == edges[k].source &&
      links[k].target == edges[k].target && links[k].weight == edges[k].weight)
  {
    seq(|edges|, k requires 0 <= k < |edges| => LinkOf(edges[k]))
  }

  /** `node.origColor.join(',')`. */
  function ColorKey(n: Node): string {
    Join(seq(|n.origColor|, i requires 0 <= i < |n.origColor| => IntToString(n.origColor[i])), ",")
  }

  function ColorKeys(nodes: seq<Node>): (keys: seq<string>)
    ensures |keys| == |nodes| && forall k :: 0 <= k < |nodes| ==> keys[k] == ColorKey(nodes[k])
  {
    seq(|nodes|, k requires 0 <= k < |nodes| => ColorKey(nodes[k]))
  }

  /** `Array.from(new Set(nodes.map(d => d.origColor.join(','))))`. */
  function UniqueColors(nodes: seq<Node>): seq<string> {
    Dedup(ColorKeys(nodes))
  }

  /** The palette has seven colours (`#1f77b4`, `#2ca02c`, `#ff7f0e`,
      `#9467bd`, `#d62728`, `#940000`, `#0000b4`); a colour is modelled by
      its position in that list. */
  const PaletteSize: nat := 7

  /** The colour map: the distinct keys, and the `forEach` that gives the
      `i`-th of them `palette[i % palette.length]`. */
  method BuildColorMap(nodes: seq<Node>) returns (uniqueColors: seq<string>, colorMap: map<string, nat>)
    ensures uniqueColors == UniqueColors(nodes)
    ensures forall c :: c in colorMap <==> c in uniqueColors
    ensures forall c :: c in colorMap ==> colorMap[c] == CycleColor(uniqueColors, c, PaletteSize)
  {
    uniqueColors := UniqueColors(nodes);
    colorMap := map[];
    for i := 0 to |uniqueColors|
      invariant forall j :: 0 <= j < i ==> uniqueColors[j] in colorMap
      invariant forall c :: c in colorMap ==>
        c in uniqueColors && IndexOf(uniqueColors, c) < i && colorMap[c] == CycleColor(uniqueColors, c, PaletteSize)
    {
      assert IndexOf(uniqueColors, uniqueColors[i]) == i;
      assert CycleColor(uniqueColors, uniqueColors[i], PaletteSize) == i % PaletteSize by {
        if i < PaletteSize { SmallModulus(i, PaletteSize); }
      }
      colorMap := colorMap[uniqueColors[i] := i % PaletteSize];
    }
  }

  /** Every node's fill is a palette colour; the first seven distinct keys
      get pairwise distinct colours, and the eighth repeats the first. */
  lemma PaletteAssignment(uniqueColors: seq<string>, colorMap: map<string, nat>, nodes: seq<Node>)
    requires uniqueColors == UniqueColors(nodes)
    requires forall c :: c in colorMap <==> c in uniqueColors
    requires forall c :: c in colorMap ==> colorMap[c] == CycleColor(uniqueColors, c, PaletteSize)
    ensures forall k :: 0 <= k < |nodes| ==> ColorKey(nodes[k]) in colorMap && colorMap[ColorKey(nodes[k])] < PaletteSize
    ensures forall a, b :: 0 <= a < b < |uniqueColors| && b < PaletteSize ==>
      colorMap[uniqueColors[a]] != colorMap[uniqueColors[b]]
    ensures |uniqueColors| > PaletteSize ==> colorMap[uniqueColors[PaletteSize]] == colorMap[uniqueColors[0]]
  {
    forall k | 0 <= k < |nodes| ensures ColorKey(nodes[k]) in colorMap {
      assert ColorKeys(nodes)[k] == ColorKey(nodes[k]);
    }
    forall a | 0 <= a < |uniqueColors| ensures IndexOf(uniqueColors, uniqueColors[a]) == a {
    }
  }

  /** The cluster sizes: `clusterSizes[key] = (clusterSizes[key] || 0) + 1`
      for every node. */
  method ClusterSizes(nodes: seq<Node>) returns (sizes: map<string, nat>)
    ensures forall k :: k in sizes <==> k in ColorKeys(nodes)
    ensures forall k :: k in sizes ==> sizes[k] == Count(ColorKeys(nodes), k)
  {
    var order;
    sizes, order := CountKeys(ColorKeys(nodes));
  }

  /** The cluster sizes, read in key order, sum to the number of nodes. */
  lemma ClusterSizesSum(nodes: seq<Node>, sizes: map<string, nat>)
    requires forall k :: k in sizes <==> k in ColorKeys(nodes)
    requires forall k :: k in sizes ==> sizes[k] == Count(ColorKeys(nodes), k)
    ensures forall i :: 0 <= i < |UniqueColors(nodes)| ==> UniqueColors(nodes)[i] in sizes
    ensures SumCounts(EntriesFrom(sizes, UniqueColors(nodes))) == |nodes|
  {
    var keys := ColorKeys(nodes);
    var u := UniqueColors(nodes);
    EntriesFromCounts(sizes, u, keys);
    CountsSumToLength(u, keys);
  }

  /** The stroke of an edge whose endpoints are nodes `s` and `t`: the
      shared colour when both are in one cluster, otherwise the colour of
      the larger cluster. Either way it is the colour of an endpoint whose
      cluster is at least as large as the other's, the source's on a tie. */
  function EdgeStroke(colorMap: map<string, nat>, sizes: map<string, nat>, s: Node, t: Node): (c: nat)
    requires ColorKey(s) in colorMap && ColorKey(t) in colorMap
    requires ColorKey(s) in sizes && ColorKey(t) in sizes
    ensures c == colorMap[ColorKey(s)] || c == colorMap[ColorKey(t)]
    ensures sizes[ColorKey(s)] >= sizes[ColorKey(t)] ==> c == colorMap[ColorKey(s)]
    ensures sizes[ColorKey(s)] < sizes[ColorKey(t)] ==> c == colorMap[ColorKey(t)]
  {
    var sourceColor, targetColor := ColorKey(s), ColorKey(t);
    if sourceColor == targetColor then colorMap[sourceColor]
    else if sizes[sourceColor] >= sizes[targetColor] then colorMap[sourceColor]
    else colorMap[targetColor]
  }

  /** With the colour map and the sizes built from the nodes, an edge
      between two nodes is stroked in a palette colour: the fill of the
      endpoint with more nodes in its cluster, the source's on a tie. */
  lemma EdgeStrokeIsEndpointFill(nodes: seq<Node>, uniqueColors: seq<string>, colorMap: map<string, nat>,
                                 sizes: map<string, nat>, s: Node, t: Node)
    requires uniqueColors == UniqueColors(nodes)
    requires forall c :: c in colorMap <==> c in uniqueColors
    requires forall c :: c in colorMap ==> colorMap[c] == CycleColor(uniqueColors, c, PaletteSize)
    requires forall k :: k in sizes <==> k in ColorKeys(nodes)
    requires forall k :: k in sizes ==> sizes[k] == Count(ColorKeys(nodes), k)
    requires s in nodes && t in nodes
    ensures ColorKey(s) in colorMap && ColorKey(t) in colorMap && ColorKey(s) in sizes && ColorKey(t) in sizes
    ensures EdgeStroke(colorMap, sizes, s, t) < PaletteSize
    ensures Count(ColorKeys(nodes), ColorKey(s)) >= Count(ColorKeys(nodes), ColorKey(t)) ==>
      EdgeStroke(colorMap, sizes, s, t) == colorMap[ColorKey(s)]
    ensures Count(ColorKeys(nodes), ColorKey(s)) < Count(ColorKeys(nodes), ColorKey(t)) ==>
      EdgeStroke(colorMap, sizes, s, t) == colorMap[ColorKey(t)]
  {
    var i :| 0 <= i < |nodes| && nodes[i] == s;
    var j :| 0 <= j < |nodes| && nodes[j] == t;
    var keys := ColorKeys(nodes);
    assert keys[i] == ColorKey(s) && keys[j] == ColorKey(t);
    assert ColorKey(s) in uniqueColors && ColorKey(t) in uniqueColors;
  }
}
