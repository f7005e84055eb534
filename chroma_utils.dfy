/** Flattening of a vector-store query result into the list of drink
    URIs and the list of distances returned to the client. */
module ChromaUtils {
  import opened Wrappers
  import opened Seqs
  import opened Json

  /** One metadata record of a query result. */
  type Metadata = map<string, Value>

  /** The two parts of a query result the backend reads: one group of
      metadata records (each possibly absent) and one group of distances
      per query embedding. */
  datatype QueryResult = QueryResult(
    metadatas: Option<seq<seq<Option<Metadata>>>>,
    distances: Option<seq<seq<real>>>
  )

  datatype SimilarityResponse = SimilarityResponse(uris: seq<string>, distances: seq<real>)

  /** The URI a metadata record contributes: its `"uri"` field when the
      record is present and the field is a string. */
  function UriOf(m: Option<Metadata>): (r: Option<string>)
    ensures r.Some? <==> m.Some? && "uri" in m.value && m.value["uri"].Str?
    ensures r.Some? ==> m.value["uri"] == Str(r.value)
  {
    if m.Some? && "uri" in m.value then AsStr(m.value["uri"]) else None
  }

  /** The URIs of one group, in order. */
  function GroupUris(group: seq<Option<Metadata>>): (r: seq<string>)
    ensures |r| <= |group|
  {
    if |group| == 0 then []
    else
      var last := group[|group| - 1];
      GroupUris(group[..|group| - 1]) + (if UriOf(last).Some? then [UriOf(last).value] else [])
  }

  /** The URIs of every group, group after group. */
  function ListUris(groups: seq<seq<Option<Metadata>>>): (r: seq<string>)
    ensures |r| <= TotalLength(groups)
  {
    if |groups| == 0 then [] else ListUris(groups[..|groups| - 1]) + GroupUris(groups[|groups| - 1])
  }

  /** The `uris` output: empty when the result has no metadata. */
  function Uris(q: QueryResult): seq<string> {
    if q.metadatas.Some? then ListUris(q.metadatas.value) else []
  }

  /** The `distances` output: every distance group concatenated, in order;
      empty when the result has no distances. */
  function Distances(q: QueryResult): seq<real> {
    if q.distances.Some? then Flatten(q.distances.value) else []
  }

  /** `extract_uris_and_distances`: the two nested loops that push into
      `uris` and `distances`. */
  method ExtractUrisAndDistances(q: QueryResult) returns (uris: seq<string>, distances: seq<real>)
    ensures uris == Uris(q)
    ensures distances == Distances(q)
  {
    uris := [];
    distances := [];
    if q.metadatas.Some? {
      var metadataList := q.metadatas.value;
      for i := 0 to |metadataList|
        invariant uris == ListUris(metadataList[..i])
      {
        var metadataGroup := metadataList[i];
        for j := 0 to |metadataGroup|
          invariant uris == ListUris(metadataList[..i]) + GroupUris(metadataGroup[..j])
        {
          var metadata := metadataGroup[j];
          assert metadataGroup[..j + 1][..j] == metadataGroup[..j];
          if metadata.Some? {
            var metadataMap := metadata.value;
            if "uri" in metadataMap {
              var uri := metadataMap["uri"];
              var uriStr := AsStr(uri);
              if uriStr.Some? {
                uris := uris + [uriStr.value];
              }
            }
          }
        }
        assert metadataGroup[..|metadataGroup|] == metadataGroup;
        assert metadataList[..i + 1][..i] == metadataList[..i];
      }
      assert metadataList[..|metadataList|] == metadataList;
    }
    if q.distances.Some? {
      var distanceList := q.distances.value;
      for i := 0 to |distanceList|
        invariant distances == Flatten(distanceList[..i])
      {
        var distanceGroup := distanceList[i];
        for j := 0 to |distanceGroup|
          invariant distances == Flatten(distanceList[..i]) + distanceGroup[..j]
        {
          distances := distances + [distanceGroup[j]];
          assert distanceGroup[..j + 1] == distanceGroup[..j] + [distanceGroup[j]];
        }
        assert distanceGroup[..|distanceGroup|] == distanceGroup;
        assert distanceList[..i + 1][..i] == distanceList[..i];
      }
      assert distanceList[..|distanceList|] == distanceList;
    }
  }

  /** No metadata gives no URIs and no distances give no distances; there
      are never more URIs than metadata records, and exactly one distance
      per inner distance entry. */
  lemma ExtractBounds(q: QueryResult)
    ensures q.metadatas.None? ==> Uris(q) == []
    ensures q.distances.None? ==> Distances(q) == []
    ensures q.metadatas.Some? ==> |Uris(q)| <= TotalLength(q.metadatas.value)
    ensures q.distances.Some? ==> |Distances(q)| == TotalLength(q.distances.value)
  {
  }

  /** A URI is returned exactly when some record of some group carries it
      as a string. */
  lemma {:induction false} GroupUrisMembers(group: seq<Option<Metadata>>, s: string)
    ensures s in GroupUris(group) <==> exists m :: 0 <= m < |group| && UriOf(group[m]) == Some(s)
  {
    if |group| > 0 {
      var p := group[..|group| - 1];
      GroupUrisMembers(p, s);
      if exists m :: 0 <= m < |group| && UriOf(group[m]) == Some(s) {
        var m :| 0 <= m < |group| && UriOf(group[m]) == Some(s);
        if m < |p| {
          assert p[m] == group[m];
        }
      }
      if s in GroupUris(p) {
        var m :| 0 <= m < |p| && UriOf(p[m]) == Some(s);
        assert group[m] == p[m];
      }
    }
  }

  lemma {:induction false} ListUrisMembers(groups: seq<seq<Option<Metadata>>>, s: string)
    ensures s in ListUris(groups) <==>
      exists k, m :: 0 <= k < |groups| && 0 <= m < |groups[k]| && UriOf(groups[k][m]) == Some(s)
  {
    if |groups| > 0 {
      var n := |groups| - 1;
      var p := groups[..n];
      ListUrisMembers(p, s);
      GroupUrisMembers(groups[n], s);
      if exists k, m :: 0 <= k < |groups| && 0 <= m < |groups[k]| && UriOf(groups[k][m]) == Some(s) {
        var k, m :| 0 <= k < |groups| && 0 <= m < |groups[k]| && UriOf(groups[k][m]) == Some(s);
        if k < n {
          assert p[k] == groups[k];
        }
      }
      if s in ListUris(p) {
        var k, m :| 0 <= k < |p| && 0 <= m < |p[k]| && UriOf(p[k][m]) == Some(s);
        assert groups[k] == p[k];
      }
    }
  }

  /** A group loses no record exactly when every record has a string
      `"uri"`. */
  lemma {:induction false} GroupUrisComplete(group: seq<Option<Metadata>>)
    ensures |GroupUris(group)| == |group| <==> forall m :: 0 <= m < |group| ==> UriOf(group[m]).Some?
  {
    if |group| > 0 {
      var p := group[..|group| - 1];
      GroupUrisComplete(p);
      assert forall m :: 0 <= m < |p| ==> p[m] == group[m];
    }
  }

  /** The URIs line up one-to-one with the metadata records, as the
      distances do with their entries, exactly when no record is skipped. */
  lemma {:induction false} ListUrisComplete(groups: seq<seq<Option<Metadata>>>)
    ensures |ListUris(groups)| == TotalLength(groups) <==>
      forall k, m :: 0 <= k < |groups| && 0 <= m < |groups[k]| ==> UriOf(groups[k][m]).Some?
  {
    if |groups| > 0 {
      var n := |groups| - 1;
      var p := groups[..n];
      ListUrisComplete(p);
      GroupUrisComplete(groups[n]);
      assert forall k :: 0 <= k < n ==> p[k] == groups[k];
    }
  }

  /** A record without a URI drops out of `uris` while its distance stays
      in `distances`, so the i-th URI need not belong to the i-th
      distance: here the only URI, `"b"`, is paired with the first
      record's distance. */
  lemma SkippedRecordMisaligns()
    ensures var q := QueryResult(Some([[None, Some(map["uri" := Str("b")])]]), Some([[0.25, 0.5]]));
      Uris(q) == ["b"] && Distances(q) == [0.25, 0.5]
  {
    var g: seq<Option<Metadata>> := [None, Some(map["uri" := Str("b")])];
    assert g[..1] == [None];
    var one: seq<Option<Metadata>> := [None];
    assert one[..0] == [];
    assert GroupUris(one) == [];
    assert GroupUris(g) == ["b"];
    var groups := [g];
    assert groups[..0] == [];
    var ds: seq<seq<real>> := [[0.25, 0.5]];
    assert ds[..0] == [];
  }

  /** The response built from a query result. */
  function Response(q: QueryResult): SimilarityResponse {
    SimilarityResponse(Uris(q), Distances(q))
  }

  /** `simiilarity_search`: the vector store answers a query for the
      embedding and the result count; both extracted lists go into the
      response unchanged. */
  method SimilaritySearch(query: (seq<real>, nat) -> QueryResult, embedding: seq<real>, nResults: nat)
    returns (r: SimilarityResponse)
    ensures r.uris == Uris(query(embedding, nResults))
    ensures r.distances == Distances(query(embedding, nResults))
  {
    var queryResult := query(embedding, nResults);
    var uris, distances := ExtractUrisAndDistances(queryResult);
    r := SimilarityResponse(uris, distances);
  }
}
