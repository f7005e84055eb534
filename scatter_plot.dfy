/** The t-SNE scatter plot: the colour key of each dot, the colour domain
    per mode, the dots and the legend. */
module ScatterPlot {
  import opened Seqs
  import opened Keys
  import opened Palette
  import opened Drinks

  /** The taste-mode key: the first two tastes joined by `", "` when the
      drink has at least two, otherwise `"N/A"`. */
  function TastePairKey(d: Drink): (t: string)
    ensures |Tastes(d)| >= 2 ==> t == Tastes(d)[0] + ", " + Tastes(d)[1]
    ensures |Tastes(d)| < 2 ==> t == "N/A"
  {
    if d.taste.Some? && |d.taste.value| >= 2 then d.taste.value[0] + ", " + d.taste.value[1] else "N/A"
  }

  /** `colorFunction(d)`. */
  function ColorKey(d: Drink, mode: ColorBy): Key {
    match mode
    case ByCluster => ClusterKey(d.cluster)
    case ByCategory => TextKey(d.category)
    case ByTaste => TextKey(TastePairKey(d))
  }

  function DataKeys(data: seq<Drink>, mode: ColorBy): (ks: seq<Key>)
    ensures |ks| == |data|
    ensures forall i :: 0 <= i < |data| ==> ks[i] == ColorKey(data[i], mode)
  {
    seq(|data|, i requires 0 <= i < |data| => ColorKey(data[i], mode))
  }

  /** `colorDomain`: the distinct keys, sorted in category mode (string
      order) and cluster mode (numeric order), in first-seen order in
      taste mode. */
  function ColorDomain(data: seq<Drink>, mode: ColorBy): seq<Key> {
    var distinct := Dedup(DataKeys(data, mode));
    if mode == ByTaste then distinct else SortKeys(distinct)
  }

  /** Every record's key is in the domain, the domain holds only keys of
      records, and it has no duplicates. */
  lemma {:induction false} DomainCoversKeys(data: seq<Drink>, mode: ColorBy)
    ensures var domain := ColorDomain(data, mode);
      NoDup(domain) &&
      (forall i :: 0 <= i < |data| ==> ColorKey(data[i], mode) in domain) &&
      (forall k :: k in domain ==> exists i :: 0 <= i < |data| && ColorKey(data[i], mode) == k)
  {
    var ks := DataKeys(data, mode);
    var distinct := Dedup(ks);
    forall k ensures k in distinct <==> k in ks { DedupMembership(ks, k); }
    if mode != ByTaste { SortedNoDup(SortKeys(distinct)); }
    forall k | k in ColorDomain(data, mode) ensures exists i :: 0 <= i < |data| && ColorKey(data[i], mode) == k {
      var i :| 0 <= i < |ks| && ks[i] == k;
    }
  }

  /** Cluster and category domains are sorted ascending; the taste domain
      is in first-seen order. */
  lemma {:induction false} DomainOrder(data: seq<Drink>, mode: ColorBy)
    ensures mode != ByTaste ==> StrictlySorted(ColorDomain(data, mode))
    ensures mode == ByTaste ==> ColorDomain(data, mode) == Dedup(DataKeys(data, mode))
  {
  }

  /** The colour of a record's dot. */
  function DotColor(data: seq<Drink>, mode: ColorBy, i: nat): nat
    requires i < |data|
  {
    DomainCoversKeys(data, mode);
    OrdinalColor(ColorDomain(data, mode), ColorKey(data[i], mode))
  }

  datatype Dot = Dot(drink: Drink, color: nat)

  /** The dots: none when there is no data (the effect returns early). */
  function Dots(data: seq<Drink>, mode: ColorBy): seq<Dot> {
    seq(|data|, i requires 0 <= i < |data| => Dot(data[i], DotColor(data, mode, i)))
  }

  /** Exactly one dot per record, in order. */
  lemma OneDotPerRecord(data: seq<Drink>, mode: ColorBy)
    ensures |Dots(data, mode)| == |data|
    ensures forall i :: 0 <= i < |data| ==> Dots(data, mode)[i].drink == data[i]
  {
  }

  /** The legend iterates `colorDomain` itself; the sorted copy
      `sortedDomain` is computed but not used. */
  function Legend(data: seq<Drink>, mode: ColorBy): seq<LegendEntry> {
    var domain := ColorDomain(data, mode);
    DomainCoversKeys(data, mode);
    seq(|domain|, i requires 0 <= i < |domain| => LegendEntry(OrdinalColor(domain, domain[i]), LegendText(domain[i])))
  }

  /** One legend row per domain value, in domain order; with at most 25
      values, distinct rows have distinct colours. */
  lemma {:induction false} LegendFollowsDomain(data: seq<Drink>, mode: ColorBy)
    ensures var legend := Legend(data, mode); var domain := ColorDomain(data, mode);
      |legend| == |domain| &&
      (forall i :: 0 <= i < |legend| ==> legend[i].text == LegendText(domain[i])) &&
      (|domain| <= 25 ==> forall i, j :: 0 <= i < j < |legend| ==> legend[i].color != legend[j].color)
  {
    var legend := Legend(data, mode);
    var domain := ColorDomain(data, mode);
    DomainCoversKeys(data, mode);
    if |domain| <= 25 {
      forall i, j | 0 <= i < j < |legend| ensures legend[i].color != legend[j].color {
        OrdinalColorsDistinct(domain, domain[i], domain[j]);
      }
    }
  }

  /** Every dot is drawn in the colour of the legend row that names its
      key. */
  lemma DotMatchesLegend(data: seq<Drink>, mode: ColorBy, k: nat)
    requires k < |data|
    ensures exists i :: (0 <= i < |Legend(data, mode)| &&
      Legend(data, mode)[i].color == Dots(data, mode)[k].color &&
      Legend(data, mode)[i].text == LegendText(ColorKey(data[k], mode)))
  {
    var domain := ColorDomain(data, mode);
    DomainCoversKeys(data, mode);
    var i := IndexOf(domain, ColorKey(data[k], mode));
    assert Legend(data, mode)[i].color == Dots(data, mode)[k].color;
  }
}
