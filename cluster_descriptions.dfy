/** The fixed table of cluster descriptions and the label lookup used by
    every chart legend and tooltip. */
module ClusterDescriptions {
  import opened Wrappers
  import opened Text

  datatype ClusterDescription = ClusterDescription(id: int, description: string)

  const Table: seq<ClusterDescription> := [
    ClusterDescription(0, "Floral, Sweet, Sour"),
    ClusterDescription(1, "Sweet, Sour, Spicy, Umami"),
    ClusterDescription(2, "Bitter, Floral, Sweet, Sour"),
    ClusterDescription(3, "Tart, Sweet, Sour"),
    ClusterDescription(4, "Citrusy, Floral, Sour"),
    ClusterDescription(5, "Floral, Sweet, Sour"),
    ClusterDescription(6, "Sweet, Creamy, Sour, Umami"),
    ClusterDescription(7, "Citrusy, Sour, Spicy, Sweet")
  ]

  /** The table holds ids 0 to 7, each at its own position, so the ids
      are distinct. */
  lemma TableIds()
    ensures |Table| == 8
    ensures forall i :: 0 <= i < |Table| ==> Table[i].id == i
    ensures forall i, j :: 0 <= i < j < |Table| ==> Table[i].id != Table[j].id
  {
  }

  /** A cluster id as callers pass it: a number, or its text. */
  datatype ClusterId = NumberId(n: int) | StringId(s: string)

  /** `Number(clusterId)`; `None` stands for `NaN`. */
  function ToNumber(c: ClusterId): Option<int> {
    match c
    case NumberId(n) => Some(n)
    case StringId(s) => NumberOf(s)
  }

  /** `${clusterId}`. */
  function IdText(c: ClusterId): string {
    match c
    case NumberId(n) => IntToString(n)
    case StringId(s) => s
  }

  /** `table.find(c => c.id === n)`, giving the description; `NaN` matches
      no entry. */
  function Find(table: seq<ClusterDescription>, n: Option<int>): (r: Option<string>)
    ensures r.Some? ==> n.Some? && exists i :: 0 <= i < |table| && table[i].id == n.value && table[i].description == r.value
    ensures r.None? ==> n.None? || forall i :: 0 <= i < |table| ==> table[i].id != n.value
  {
    if |table| == 0 || n.None? then None
    else if table[0].id == n.value then Some(table[0].description)
    else
      var r := Find(table[1..], n);
      assert r.Some? ==> exists i :: 0 <= i < |table[1..]| && table[1..][i].id == n.value && table[1..][i].description == r.value;
      assert forall i :: 0 < i < |table| ==> table[i] == table[1..][i - 1];
      r
  }

  /** The first entry with a given id is the one `Find` returns. */
  lemma {:induction false} FindFirst(table: seq<ClusterDescription>, n: int, k: nat)
    requires k < |table| && table[k].id == n
    requires forall j :: 0 <= j < k ==> table[j].id != n
    ensures Find(table, Some(n)) == Some(table[k].description)
  {
    if k > 0 { FindFirst(table[1..], n, k - 1); }
  }

  /** `getClusterLabel(clusterId)`: `"<id>: <description>"` for an id in
      the table, the bare id text otherwise. */
  function GetClusterLabel(c: ClusterId): (r: string)
    ensures |IdText(c)| <= |r| && r[..|IdText(c)|] == IdText(c)
    ensures Find(Table, ToNumber(c)).None? ==> r == IdText(c)
  {
    match Find(Table, ToNumber(c))
    case Some(description) => IdText(c) + ": " + description
    case None => IdText(c)
  }

  /** Ids 0 to 7 are labelled with their description. */
  lemma KnownLabel(n: int)
    requires 0 <= n < 8
    ensures GetClusterLabel(NumberId(n)) == IntToString(n) + ": " + Table[n].description
  {
    TableIds();
    FindFirst(Table, n, n);
  }

  /** Any other number is labelled by its text alone. */
  lemma UnknownLabel(n: int)
    requires n < 0 || n >= 8
    ensures GetClusterLabel(NumberId(n)) == IntToString(n)
  {
    TableIds();
  }

  /** Lookup goes through `Number`, so the text of an id and the id
      itself get the same label. */
  lemma TextAndNumberAgree(n: nat)
    ensures GetClusterLabel(StringId(NatToString(n))) == GetClusterLabel(NumberId(n))
  {
    ParseNatToString(n);
  }
}
