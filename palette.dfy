/** The ordinal colour scale the charts build with
    `d3.scaleOrdinal().domain(D).range(d3.schemeSpectral[|D|] || rainbow25)`.
    Colours are modelled as positions in the range; the library's colour
    values themselves are not part of this model. */
module Palette {
  import opened Seqs
  import opened Keys
  import opened ClusterDescriptions

  /** Number of colours in the range: the Spectral scheme exists for 3 to
      11 classes; otherwise the 25-colour rainbow palette is used. */
  function RangeSize(n: nat): (r: nat)
    ensures r > 0 && (n <= 25 ==> n <= r)
  {
    if 3 <= n <= 11 then n else 25
  }

  /** Colour of a domain value in a range of `size` colours: the range
      cycles over the domain. */
  function CycleColor<T(==)>(domain: seq<T>, v: T, size: nat): (c: nat)
    requires v in domain && size > 0
    ensures c < size
    ensures IndexOf(domain, v) < size ==> c == IndexOf(domain, v)
  {
    var i := IndexOf(domain, v);
    if i < size then i else i % size
  }

  /** When the domain fits in the range, distinct values get distinct
      colours. */
  lemma CycleColorsDistinct<T>(domain: seq<T>, a: T, b: T, size: nat)
    requires NoDup(domain) && 0 < |domain| <= size
    requires a in domain && b in domain && a != b
    ensures CycleColor(domain, a, size) != CycleColor(domain, b, size)
  {
  }

  /** Colour of a domain value in the Spectral/rainbow range. */
  function OrdinalColor<T(==)>(domain: seq<T>, v: T): (c: nat)
    requires v in domain
    ensures c < RangeSize(|domain|)
  {
    CycleColor(domain, v, RangeSize(|domain|))
  }

  /** With at most 25 distinct domain values, distinct values get distinct
      colours. */
  lemma OrdinalColorsDistinct<T>(domain: seq<T>, a: T, b: T)
    requires NoDup(domain) && |domain| <= 25
    requires a in domain && b in domain && a != b
    ensures OrdinalColor(domain, a) != OrdinalColor(domain, b)
  {
    CycleColorsDistinct(domain, a, b, RangeSize(|domain|));
  }

  lemma SmallModulus(x: nat, m: nat)
    requires x < m
    ensures x % m == x
  {
  }

  /** Size of `d3.schemeCategory10`. */
  const Category10: nat := 10

  /** One legend row: a swatch colour and its text. */
  datatype LegendEntry = LegendEntry(color: nat, text: string)

  /** Legend text: the cluster label for a cluster id, the value itself
      otherwise. */
  function LegendText(k: Key): string {
    match k
    case ClusterKey(id) => GetClusterLabel(NumberId(id))
    case TextKey(t) => t
  }
}
