# Napitochki: a verified model of its classification, linking and request rules

Napitochki is a drink explorer. A Rust backend serves cocktail records
from a document store, and serves similarity search over an image/text
embedding index. A React frontend draws the drinks as a hexbin
"honeycomb" map, a scatter plot, two force-directed graphs and a flavour
picker. This project models the deterministic rules hidden inside those
views and handlers, and proves what they promise:

- **HoneycombChart** (`honeycomb_chart.dfy`): the per-drink colour key in
  each colour mode (cluster, category, first taste), the majority vote that
  gives a hex bin its key, and the tie rule of each mode. It also covers
  the bin statistics (`getClusterStats`), the zoom rule that chooses
  between points and hexagons and sets the radius, the bin label and click
  rules, and the colour domain and legend.
- **ScatterPlot** (`scatter_plot.dfy`): colour domains per mode, the
  two-taste key, the dots and the legend.
- **NetworkGraph** and **Graph** (`network_graph.dfy`, `graph.dfy`, with
  the shared scan in `pair_scan.dfy`): the `i < j` scan that links two
  drinks sharing ingredients or tastes. Also the position clamp of the
  tick handler (a class whose nodes are updated in place), the taste-group
  table, node groups, link strength and legend lookup.
- **IngredientGraph** (`ingredient_graph.dfy`): node and link mapping, the
  7-colour palette assignment, cluster sizes and the edge colour rule.
- **DrinkVisualization** (`drink_visualization.dfy`): the category list,
  the `"all"` filter, option labels, the view state and its handlers, and
  the extent that the filtered points are drawn against.
- **FlavorExplorer** and the drinks API client (`flavor_explorer.dfy`,
  `drinks_api.dfy`): title-casing, selection toggling, and the explorer's
  state as a class whose methods follow the component's handlers and
  effects.
- **Cluster descriptions** (`cluster_descriptions.dfy`): the description
  table and `getClusterLabel`.
- **Backend** (`handlers.dfy`, `chroma_utils.dfy`, `categories.dfy`,
  `json.dfy`): validation and dispatch of the drink query, the embedding
  and similarity handlers, the taste list, and the flattening of
  vector-store query results.

Shared helper modules:

- `seqs.dfy`: first-seen deduplication and counting.
- `keys.dfy`: colour keys and their order. It includes the order in which
  JavaScript enumerates object keys.
- `tally.dfy`: counting into a dictionary and the stable sort by count.
- `palette.dfy`: ordinal colour scales as palette indices.
- `text.dfy`: ASCII case mapping and number text.
- `wrappers.dfy`: `Option`.
- `drinks.dfy`: the drink record.

The document store, the embedding model and the vector index are
parameters (oracle functions) of the handlers that call them.

## Model

| member | source | states |
|---|---|---|
| HoneycombChart.FirstTaste | frontend/src/components/visualizations/HoneycombChart.jsx:69-71 | the taste key is `taste[0]`, or `N/A` for a drink without tastes |
| HoneycombChart.ColorDomain | frontend/src/components/visualizations/HoneycombChart.jsx:55-88 | the domain has no duplicates and holds exactly the keys of the displayed drinks; it is ascending in cluster mode and in first-seen order otherwise |
| HoneycombChart.CountMap | frontend/src/components/visualizations/HoneycombChart.jsx:59-62 | the counting dictionary has an entry for exactly the keys that occur, each holding its number of occurrences |
| HoneycombChart.ColorValue | frontend/src/components/visualizations/HoneycombChart.jsx:57-103 | the group key computed by the counting loops equals the mode's vote (`GroupKey`) |
| HoneycombChart.MaxCountLoop | frontend/src/components/visualizations/HoneycombChart.jsx:94-101 | the `for…of` loop with its strict `count > maxCount` computes the first-maximum scan over the entries |
| HoneycombChart.ReduceVoteSpec | frontend/src/components/visualizations/HoneycombChart.jsx:63-65 | the `reduce` returns a key of the group whose count no key exceeds, and no later key has the same count |
| HoneycombChart.LoopVoteSpec | frontend/src/components/visualizations/HoneycombChart.jsx:96-101 | the loop keeps the first key with the greatest count, and no earlier key reaches that count |
| HoneycombChart.GroupOrder | frontend/src/components/visualizations/HoneycombChart.jsx:58-62 | the vote runs over each distinct key once: ascending cluster ids in cluster mode, first-seen order otherwise |
| HoneycombChart.GroupKeyDefined | frontend/src/components/visualizations/HoneycombChart.jsx:57-103 | a group gets a key exactly when it is not empty |
| HoneycombChart.GroupKeyIsMode | frontend/src/components/visualizations/HoneycombChart.jsx:57-103 | the key of a non-empty group occurs in it, and no key occurs more often |
| HoneycombChart.ReduceVoteTie | frontend/src/components/visualizations/HoneycombChart.jsx:63-65 | a key tied with the reduce's winner never comes after it in iteration order |
| HoneycombChart.TextTieGoesToLaterKey | frontend/src/components/visualizations/HoneycombChart.jsx:58-84 | in category and taste mode, among tied keys the one first seen latest wins |
| HoneycombChart.LoopVoteTie | frontend/src/components/visualizations/HoneycombChart.jsx:96-101 | the loop's winner is the first key in order with the maximal count |
| HoneycombChart.SmallestKeyWins | frontend/src/components/visualizations/HoneycombChart.jsx:89-102 | over ascending cluster ids the loop's winner is the smallest of the tied ids |
| HoneycombChart.ClusterTieGoesToSmallestId | frontend/src/components/visualizations/HoneycombChart.jsx:89-102 | a cluster-mode group gets a cluster id, and a tie goes to the smallest id |
| HoneycombChart.SingleMemberBin | frontend/src/components/visualizations/HoneycombChart.jsx:58-103 | a bin of one drink gets that drink's own colour key in every mode |
| HoneycombChart.PercentageRounds | frontend/src/components/visualizations/HoneycombChart.jsx:157 | the percentage is `count*100/len` rounded to the nearest integer, and at most 100 when count ≤ len |
| HoneycombChart.RankClusters | frontend/src/components/visualizations/HoneycombChart.jsx:131-134 | the counting `forEach` followed by the sort computes the cluster ranking |
| HoneycombChart.RankTastes | frontend/src/components/visualizations/HoneycombChart.jsx:137-148 | the nested taste `forEach` followed by the sort computes the taste ranking |
| HoneycombChart.GetClusterStats | frontend/src/components/visualizations/HoneycombChart.jsx:129-161 | the statistics object equals the specification `StatsOf` |
| HoneycombChart.StatsTotals | frontend/src/components/visualizations/HoneycombChart.jsx:152-158 | `totalDrinks` is the group size, and the per-cluster counts sum to it |
| HoneycombChart.StatsPerCluster | frontend/src/components/visualizations/HoneycombChart.jsx:154-158 | each listed cluster occurs, its count is its number of members, and its percentage is that count's rounded share, between 0 and 100 |
| HoneycombChart.StatsCoverMembers | frontend/src/components/visualizations/HoneycombChart.jsx:131-134 | every member's cluster is listed |
| HoneycombChart.StatsOrdered | frontend/src/components/visualizations/HoneycombChart.jsx:154-158 | clusters are listed by count, descending, and by id among equal counts |
| HoneycombChart.RankingOrdered | frontend/src/components/visualizations/HoneycombChart.jsx:154-158 | the stable sort of the ascending entries orders them by count, then by id |
| HoneycombChart.RankingEntryCounts | frontend/src/components/visualizations/HoneycombChart.jsx:131-134 | each ranked cluster occurs, with its number of members |
| HoneycombChart.RankingCoversMembers | frontend/src/components/visualizations/HoneycombChart.jsx:131-134 | each member's cluster is ranked |
| HoneycombChart.TasteOccurrencesMembership | frontend/src/components/visualizations/HoneycombChart.jsx:137-144 | every taste of every member is counted, not only the first |
| HoneycombChart.TopTastesChosen | frontend/src/components/visualizations/HoneycombChart.jsx:147-150 | at most three distinct top tastes, each one occurring in the group |
| HoneycombChart.TopTastesByFrequency | frontend/src/components/visualizations/HoneycombChart.jsx:147-150 | top tastes are listed by frequency, descending |
| HoneycombChart.TopTastesNoneOmittedOutranks | frontend/src/components/visualizations/HoneycombChart.jsx:147-150 | no taste left out occurs more often than one listed |
| HoneycombChart.RadiusOverZoomRange | frontend/src/components/visualizations/HoneycombChart.jsx:170-171 | over the zoom range [1, 10] the radius is positive, at most 15, and never grows as the scale grows |
| HoneycombChart.BinLabel | frontend/src/components/visualizations/HoneycombChart.jsx:312 | a bin shows text exactly when it has more than one member, and that text is its member count |
| HoneycombChart.BinClick | frontend/src/components/visualizations/HoneycombChart.jsx:293-297 | a click selects a drink exactly when the bin has one member, and selects that member |
| HoneycombChart.BinMemberInData | frontend/src/components/visualizations/HoneycombChart.jsx:228-235 | a bin member is a drink of the displayed data |
| HoneycombChart.GroupKeyInDomain | frontend/src/components/visualizations/HoneycombChart.jsx:245 | every bin's key is in the colour domain |
| HoneycombChart.PerDrinkRendering | frontend/src/components/visualizations/HoneycombChart.jsx:174-186 | at scale ≥ 5 there is exactly one point per drink, coloured by its own key, and no hexagon |
| HoneycombChart.BinnedRendering | frontend/src/components/visualizations/HoneycombChart.jsx:228-245 | below scale 5 there is one hexagon per bin, holding that bin's members |
| HoneycombChart.SingleMemberHexagon | frontend/src/components/visualizations/HoneycombChart.jsx:184-186 | a one-drink hexagon has the same colour as that drink's point |
| HoneycombChart.LegendListsDomain | frontend/src/components/visualizations/HoneycombChart.jsx:345-372 | the legend lists every domain key exactly once, in ascending order; in cluster mode that is the domain's own order |
| ScatterPlot.TastePairKey | frontend/src/components/visualizations/ScatterPlot.jsx:77-80 | the taste key is `"t0, t1"` for a drink with two or more tastes, otherwise `N/A` |
| ScatterPlot.DataKeys | frontend/src/components/visualizations/ScatterPlot.jsx:71-87 | one colour key per record, in record order |
| ScatterPlot.DomainCoversKeys | frontend/src/components/visualizations/ScatterPlot.jsx:71-87 | the domain has no duplicates, holds every record's key, and holds nothing else |
| ScatterPlot.DomainOrder | frontend/src/components/visualizations/ScatterPlot.jsx:73-84 | category and cluster domains are strictly sorted; the taste domain keeps first-seen order |
| ScatterPlot.OneDotPerRecord | frontend/src/components/visualizations/ScatterPlot.jsx:113-121 | exactly one dot per record, in order |
| ScatterPlot.LegendFollowsDomain | frontend/src/components/visualizations/ScatterPlot.jsx:160-167 | one legend row per domain value, in domain order; with at most 25 values the rows have distinct colours |
| ScatterPlot.DotMatchesLegend | frontend/src/components/visualizations/ScatterPlot.jsx:102-167 | every dot has the colour of the legend row that names its key |
| PairScan.Scan | frontend/src/components/visualizations/NetworkGraph.jsx:24-44 | the nested `i < j` loops compute the pair list `Pairs` |
| PairScan.CommonMembers | frontend/src/components/visualizations/NetworkGraph.jsx:31-33 | the common list holds the elements of the first list that occur in the second, in the first list's order |
| PairScan.PairsLinked | frontend/src/components/Graph.jsx:63-79 | every emitted pair has `i < j`, within range, and a non-empty common list |
| PairScan.PairsOrdered | frontend/src/components/Graph.jsx:64-65 | pairs come out in strictly increasing lexicographic `(i, j)` order, so each pair appears at most once |
| PairScan.PairsExactlyShared | frontend/src/components/Graph.jsx:66-70 | a pair `(i, j)` is emitted exactly when the two lists share an element |
| PairScan.PairsBound | frontend/src/components/visualizations/NetworkGraph.jsx:24-44 | there are at most n(n-1)/2 pairs |
| NetworkGraph.BuildLinks | frontend/src/components/visualizations/NetworkGraph.jsx:24-44 | the loops build the specification's links |
| NetworkGraph.LinksWellFormed | frontend/src/components/visualizations/NetworkGraph.jsx:35-40 | each link has `source < target < n` and `value` equal to the common count, which is ≥ 1; every common ingredient is in both drinks |
| NetworkGraph.LinkExactlyWhenShared | frontend/src/components/visualizations/NetworkGraph.jsx:31-35 | a link joins `i < j` exactly when their ingredient lists share an element |
| NetworkGraph.LinksOrdered | frontend/src/components/visualizations/NetworkGraph.jsx:25-26 | links are in lexicographic `(source, target)` order, and there are at most n(n-1)/2 of them |
| NetworkGraph.Clamp | frontend/src/components/visualizations/NetworkGraph.jsx:154-155 | the clamped coordinate lies in [15, extent − 15], and one already inside is kept |
| NetworkGraph.ClampIdempotent | frontend/src/components/visualizations/NetworkGraph.jsx:154-155 | clamping twice is clamping once |
| NetworkGraph.Tick | frontend/src/components/visualizations/NetworkGraph.jsx:146-156 | every node's position is overwritten with its clamped value, inside the canvas margins |
| NetworkGraph.ClusterDomain | frontend/src/components/visualizations/NetworkGraph.jsx:54 | the cluster domain has no duplicates, holds exactly the clusters that occur, and is in first-seen order |
| NetworkGraph.NodeColor | frontend/src/components/visualizations/NetworkGraph.jsx:55-57 | a node's colour is one of the ten palette colours |
| NetworkGraph.LegendRows | frontend/src/components/visualizations/NetworkGraph.jsx:185-197 | legend row i shows cluster i's colour and the text `Кластер <id>`; the first ten rows get colours 0 to 9 |
| NetworkGraph.NodeMatchesLegend | frontend/src/components/visualizations/NetworkGraph.jsx:55-57 | every node's colour and cluster appear together on a legend row |
| Graph.TasteGroupsIndex | frontend/src/components/Graph.jsx:47-50 | the table holds exactly the tastes; each maps to the index of its last occurrence |
| Graph.BuildTasteGroups | frontend/src/components/Graph.jsx:47-50 | the `forEach` builds the table, and its keys are the distinct tastes in insertion order |
| Graph.DistinctTasteIndex | frontend/src/components/Graph.jsx:47-50 | over distinct tastes, each taste maps to its own index |
| Graph.NodeGroup | frontend/src/components/Graph.jsx:58-59 | the group is 0 without tastes; otherwise it is defined exactly when the first taste is in the table, and then it lies in [0, 9] |
| Graph.Nodes | frontend/src/components/Graph.jsx:53-60 | one node per drink, in order, with the drink's name as id, its tastes (`[]` when missing) and its group |
| Graph.BuildLinks | frontend/src/components/Graph.jsx:63-79 | the loops build the specification's links |
| Graph.LinkWellFormed | frontend/src/components/Graph.jsx:66-76 | each link joins the ids of two distinct positions i < j (a self-link when two drinks share a name); its tastes are the common tastes in node i's order, each in both nodes; strength is their count over 5 |
| Graph.LinksExactlyShared | frontend/src/components/Graph.jsx:64-70 | a link joins `i < j` exactly when their taste lists share a taste, in lexicographic order, at most once |
| Graph.StrokeWidthOfLink | frontend/src/components/Graph.jsx:120 | the stroke width `max(1, strength*2)` is at least 1: `2·|tastes|/5` from three common tastes on, 1 below |
| Graph.UniqueGroupsFirstSeen | frontend/src/components/Graph.jsx:192 | the groups list has no duplicates, holds exactly the node groups, and is in first-seen order |
| Graph.LegendName | frontend/src/components/Graph.jsx:195 | the legend name is a table key mapped to the group, or `Group <g>` |
| Graph.LegendNameOfGroup | frontend/src/components/Graph.jsx:195 | over distinct tastes, group g is named after the taste at index g, `Group g` past the end, and `Group NaN` when undefined |
| Graph.UnknownFirstTasteIsNaN | frontend/src/components/Graph.jsx:58-59 | a first taste missing from the table gives the undefined group, named `Group NaN` |
| Graph.LegendColors | frontend/src/components/Graph.jsx:192-201 | every node's group has a legend row of the same colour; the first ten rows get colours 0 to 9 |
| Graph.WrappedGroupMislabelled | frontend/src/components/Graph.jsx:58-59 | as written, a first taste at index i ≥ 10 gets group `i % 10`, whose legend row names another taste |
| Graph.IntendedNodeGroup | frontend/src/components/Graph.jsx:58-59 | the group keeps the taste's index; reduced mod 10 it gives the group as written |
| Graph.LegendNamesFirstTaste | frontend/src/components/Graph.jsx:195 | with the intended group, a node's legend row names its first taste |
| IngredientGraph.Nodes | frontend/src/components/IngredientGraph.jsx:31 | one node per vertex, in order, carrying its id, size and colour |
| IngredientGraph.Links | frontend/src/components/IngredientGraph.jsx:32 | one link per edge, in order, carrying its source, target and weight |
| IngredientGraph.BuildColorMap | frontend/src/components/IngredientGraph.jsx:39-42 | the distinct keys in first-seen order, each mapped to palette entry `i mod 7` |
| IngredientGraph.PaletteAssignment | frontend/src/components/IngredientGraph.jsx:39-42 | every node's fill is a palette colour; the first seven keys get distinct colours, and the eighth repeats the first |
| IngredientGraph.ClusterSizes | frontend/src/components/IngredientGraph.jsx:44-48 | each key's size is its number of nodes |
| IngredientGraph.ClusterSizesSum | frontend/src/components/IngredientGraph.jsx:44-48 | the sizes sum to the number of nodes |
| IngredientGraph.EdgeStroke | frontend/src/components/IngredientGraph.jsx:266-279 | the edge takes the colour of the larger cluster, the source's on a tie (and so a shared key's colour) |
| IngredientGraph.EdgeStrokeIsEndpointFill | frontend/src/components/IngredientGraph.jsx:266-279 | an edge's colour is a palette colour and equals the fill of the endpoint in the larger cluster |
| DrinkVisualization.CategoriesFirstSeen | frontend/src/components/DrinkVisualization.jsx:49 | the categories have no duplicates, are exactly the drinks' categories, and are in first-seen order |
| DrinkVisualization.InCategoryMembers | frontend/src/components/DrinkVisualization.jsx:52 | the filter keeps exactly the drinks of the category |
| DrinkVisualization.InCategoryAppend | frontend/src/components/DrinkVisualization.jsx:52 | filtering a concatenation filters each part, so the filter keeps order |
| DrinkVisualization.FilterSpec | frontend/src/components/DrinkVisualization.jsx:50-52 | `"all"` returns the drinks unchanged; any other filter keeps exactly that category's drinks; the list never grows |
| DrinkVisualization.FilterIdempotent | frontend/src/components/DrinkVisualization.jsx:50-52 | filtering twice is filtering once |
| DrinkVisualization.OptionLabel | frontend/src/components/DrinkVisualization.jsx:87 | the label has the category's length, and a category without `_` is its own label |
| DrinkVisualization.OptionLabelKeepsLaterUnderscores | frontend/src/components/DrinkVisualization.jsx:87 | only the first `_` becomes a space: `a_b_c` gives `a b_c` |
| DrinkVisualization.FilterChangeKeepsSelection | frontend/src/components/DrinkVisualization.jsx:34-40 | changing the filter keeps the drinks and the selected drink, even one the filter hides |
| DrinkVisualization.Extent | frontend/src/components/visualizations/HoneycombChart.jsx:31-32 | an extent exists exactly for non-empty data, contains every value, and its ends are values |
| DrinkVisualization.DisplayedWithinFullExtent | frontend/src/components/DrinkVisualization.jsx:130-131 | every displayed drink lies within the x and y extents of the unfiltered data |
| DrinksApi.ConvertTasteCase | frontend/src/api/drinks.js:5-7 | the result has the input's length, is title-cased, and equals the input ignoring case |
| DrinksApi.ConvertTasteCaseIdempotent | frontend/src/api/drinks.js:5-7 | converting twice is converting once, and `""` stays `""` |
| DrinksApi.ConvertBackendName | frontend/src/api/drinks.js:4-7 | `SWEET` becomes `Sweet` |
| DrinksApi.FormattedTastes | frontend/src/api/drinks.js:29 | the list sent has the input's length and order, each element converted |
| DrinksApi.FormattedTastesTitleCased | frontend/src/api/drinks.js:29 | every sent taste is title-cased, and formatting twice is formatting once |
| FlavorExplorer.FormatTasteForDisplaySpec | frontend/src/components/FlavorExplorer.jsx:7-9 | the button text has the taste's length, is title-cased and equals the taste ignoring case; it is idempotent, maps `""` to `""`, and agrees with `convertTasteCase` on every input |
| FlavorExplorer.WithoutMembers | frontend/src/components/FlavorExplorer.jsx:63 | removing a taste removes every occurrence and keeps every other taste |
| FlavorExplorer.ToggleMembership | frontend/src/components/FlavorExplorer.jsx:60-66 | a toggle flips the toggled taste's membership and keeps every other taste's |
| FlavorExplorer.ToggleKeepsOthers | frontend/src/components/FlavorExplorer.jsx:60-66 | the other tastes keep their relative order |
| FlavorExplorer.ToggleTwiceRestores | frontend/src/components/FlavorExplorer.jsx:64 | an absent taste is appended at the end, and toggling it again restores the list |
| FlavorExplorer.ToggleNoDup | frontend/src/components/FlavorExplorer.jsx:60-66 | toggling never introduces duplicates |
| FlavorExplorer.FlavorExplorer.constructor | frontend/src/components/FlavorExplorer.jsx:12-19 | the first state: no tastes, tastes loading, nothing selected, no drinks |
| FlavorExplorer.FlavorExplorer.TastesFetched | frontend/src/components/FlavorExplorer.jsx:21-34 | the taste list on success, unchanged on failure; loading ends either way |
| FlavorExplorer.FlavorExplorer.HandleTasteToggle | frontend/src/components/FlavorExplorer.jsx:36-66 | the selection is toggled and the selected drink cleared; an empty selection empties the drinks, a non-empty one starts a fetch for the title-cased tastes |
| FlavorExplorer.FlavorExplorer.DrinksFetched | frontend/src/components/FlavorExplorer.jsx:47-58 | the drinks are the answer, or empty after a failed fetch; loading ends |
| FlavorExplorer.FlavorExplorer.HandleDrinkSelect | frontend/src/components/FlavorExplorer.jsx:68-70 | the selected drink is stored as a one-element list |
| ClusterDescriptions.TableIds | frontend/src/utils/clusterDescriptions.js:2-11 | the table holds ids 0 to 7, each once |
| ClusterDescriptions.Find | frontend/src/utils/clusterDescriptions.js:14 | a description is found exactly when some entry has the id, and it is that entry's |
| ClusterDescriptions.FindFirst | frontend/src/utils/clusterDescriptions.js:14 | the lookup returns the first entry with the id |
| ClusterDescriptions.GetClusterLabel | frontend/src/utils/clusterDescriptions.js:13-16 | every label begins with the id's text, and an unknown id is its own label |
| ClusterDescriptions.KnownLabel | frontend/src/utils/clusterDescriptions.js:15 | a known id's label is `<id>: <description>` |
| ClusterDescriptions.UnknownLabel | frontend/src/utils/clusterDescriptions.js:15 | an id outside 0 to 7 labels as `<id>` |
| ClusterDescriptions.TextAndNumberAgree | frontend/src/utils/clusterDescriptions.js:14 | the id as text and as a number give the same label |
| Categories.TasteNames | backend/src/categories.rs:4-23 | one name per variant, in declaration order |
| Categories.TasteNamesSpec | backend/src/categories.rs:4-23 | 17 names, distinct, covering every variant |
| Categories.TasteNamesUpperCase | backend/src/categories.rs:5-23 | every name is upper case |
| Categories.ParseName | backend/src/categories.rs:4-23 | a variant's name reads back as that variant |
| Handlers.ParamsCount | backend/src/main.rs:51-53 | the count is 0 exactly when no parameter is given, and at most one is present when it is ≤ 1 |
| Handlers.Dispatch | backend/src/main.rs:59-73 | precedence: `drink_url`, then `name`, then `taste`, then no parameter |
| Handlers.GetDrinkHandler | backend/src/main.rs:44-77 | BAD_REQUEST exactly when more than one parameter is given; a url or name hit returns one drink |
| Handlers.SeveralParamsRejected | backend/src/main.rs:55-57 | several parameters are rejected before any lookup, whatever the store holds |
| Handlers.DispatchOutcome | backend/src/main.rs:59-76 | each lookup's result is passed on, and a miss gives NOT_FOUND |
| Handlers.GetEmbedding | backend/src/main.rs:86-101 | the embedding when the first key is `text`, NOT_FOUND for another key, INTERNAL_SERVER_ERROR without parameters |
| Handlers.EmbeddingDependsOnOrder | backend/src/main.rs:86-101 | only the first parameter is looked at, so `text` in second place gives NOT_FOUND |
| Handlers.NResults | backend/src/main.rs:118-120 | `n_results` is the given u64, or 10 when it is absent or not a u64 |
| Handlers.SimilaritySearchHandler | backend/src/main.rs:104-129 | a missing or non-string prompt gives empty uris and distances; otherwise the search of the prompt's embedding |
| Handlers.GetTastes | backend/src/main.rs:132-135 | the 17 category names, covering every variant, in declaration order |
| ChromaUtils.UriOf | backend/src/chroma_utils.rs:33-39 | a uri exactly when the record is present, has `uri`, and it is a string |
| ChromaUtils.ExtractUrisAndDistances | backend/src/chroma_utils.rs:26-53 | the nested loops compute the flattened uris and distances |
| ChromaUtils.ExtractBounds | backend/src/chroma_utils.rs:30-50 | missing metadatas or distances give empty lists; distances has the total inner length, uris at most the total |
| ChromaUtils.ListUrisMembers | backend/src/chroma_utils.rs:30-42 | a uri is listed exactly when some record carries it as a string |
| ChromaUtils.ListUrisComplete | backend/src/chroma_utils.rs:30-42 | no record is skipped exactly when every record has a string uri |
| ChromaUtils.SkippedRecordMisaligns | backend/src/chroma_utils.rs:26-53 | a skipped record drops its uri but not its distance, so the lists lose alignment |
| ChromaUtils.SimilaritySearch | backend/src/chroma_utils.rs:55-73 | the response carries both flattened lists unchanged |

## Left out

- Rendering: SVG and DOM construction, transitions, tooltips, zoom and drag
  wiring, and axis scales are not modelled. Legends are modelled only as
  the rows they list.
- The `d3-hexbin` cell assignment is a library call. Bins are a parameter,
  any partition of the data (`HoneycombChart.IsBinning`).
- Colour palettes (`schemeSpectral`, `interpolateRainbow`,
  `schemeCategory10`, the 7 hex colours) are library data. Colours are
  palette indices; the cyclic ordinal scale is `Palette.CycleColor`.
- Force simulations, the IngredientGraph cluster forces and node radii are
  floating-point physics and are not modelled. Only the tick handler's
  clamp is kept.
- HoneycombChart.PercentageRounds: rounding is exact over integers.
  Floating-point ties at .5 in `Math.round(count / len * 100)` are not
  modelled.
- Keys of JavaScript objects: cluster ids are natural numbers, listed
  ascending as JavaScript lists integer keys. A category or taste text
  that looks like an integer, which JavaScript would list first, is not
  modelled.
- NaN: a `NaN` cluster id or group is `None`, and only its grouping and
  label text are modelled.
- Asynchronous effects: promise ordering and stale responses are not
  modelled. FlavorExplorer.FlavorExplorer.DrinksFetched: it requires a
  non-empty selection, so a response that arrives after the selection was
  emptied is not modelled. The `loading` and `error` states of
  DrinkVisualization's first fetch are left out.
- I/O: the document store, the embedding model and the vector index are
  oracle parameters. HTTP routing, the server start and environment
  loading are not modelled. The frontend sends POST while the routes are
  registered for GET (backend/src/main.rs:163-167); routing is not part of
  this model.
- Handlers.GetDrinkHandler: the `unwrap` of the full listing is the
  `Panic` outcome. `Panic` is the outcome exactly when that listing fails.
- ChromaUtils.SimilaritySearch: the `unwrap`s of the embedding and query
  calls are not modelled, because the query is a total oracle.
- Handlers.GetEmbedding: query parameters are an ordered list. The order
  in which the query-string map iterates is the order of that list.
- Graph.Nodes: nodes carry `IntendedNodeGroup`. The group as written is
  `NodeGroup`, and the difference is recorded under Findings.
- Keys.StrLess: characters are compared by code point. JavaScript's
  default `sort()` compares UTF-16 code units, which orders characters
  outside the Basic Multilingual Plane differently against U+E000-U+FFFF.
- Text.NumberOf: only strings of decimal digits are numbers. `Number()`
  also accepts surrounding white space, a fraction such as `"3.0"`, a sign
  and hexadecimal `"0x3"`; those strings are `None` here.
- Case mapping is ASCII only. Upper- and lower-casing of other characters
  leaves them unchanged.
- SimilaritySearch.jsx, DrinkList.jsx, DrinkInfo.jsx, Sidebar.jsx,
  CLusterSummary.jsx, App.jsx, services/api.js, mongo_utils.rs, clip.rs and
  model.rs are not part of this model (presentation, fetch wrappers and
  I/O).

## Findings

| source | as written | input that shows it | evidently intended | confidence | as-written member | corrected member |
|---|---|---|---|---|---|---|
| frontend/src/components/Graph.jsx:58-59, 195 | a node's group is its first taste's table index `% 10`; the legend names a group after the taste whose index equals the group | the 17 backend tastes, and a drink whose first taste is `REFRESHING` (index 10): its group is 0, and its legend row reads `SWEET` | the legend row of a node's group names the node's first taste (the colour scale already cycles through ten colours) | not executed | Graph.NodeGroup, Graph.WrappedGroupMislabelled | Graph.IntendedNodeGroup, Graph.LegendNamesFirstTaste |
