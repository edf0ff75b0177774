/** The query path: flattening the vector store's batched answer to one query
    into result records, and the rules by which results are displayed. */
module Query {
  import opened Wrappers
  import opened Values

  /** The store's answer to `query(query_texts=[q], n_results=k)`: for each query
      text, parallel lists of matched chunk texts, metadata and distances, nearest
      first. A field is None when the store leaves it out. */
  datatype QueryResponse = QueryResponse(
    documents: Option<seq<seq<string>>>,
    metadatas: Option<seq<seq<Metadata>>>,
    distances: Option<seq<seq<real>>>)

  /** One result record of `search`. */
  datatype SearchResult = SearchResult(content: string, metadata: Metadata, distance: Option<real>)

  /** `search` indexing past the end of, or into a None, metadata or distance list. */
  datatype QueryError = MalformedResponse

  /** Python truthiness of a list that may be None: present and non-empty. */
  predicate Truthy<T>(o: Option<seq<T>>)
  {
    o.Some? && o.value != []
  }

  /** The number of hits `search` walks over: `len(documents[0])`, or none when
      `documents` is falsy. */
  function Hits(response: QueryResponse): nat
  {
    if Truthy(response.documents) then |response.documents.value[0]| else 0
  }

  /** The metadata list (and the distance list, when distances are present) of
      the first query covers every hit, so `search` can index them all. */
  predicate Aligned(response: QueryResponse)
  {
    Hits(response) == 0
    || (&& Truthy(response.metadatas)
        && |response.metadatas.value[0]| >= Hits(response)
        && (Truthy(response.distances) ==> |response.distances.value[0]| >= Hits(response)))
  }

  /** Python's `QueryProcessor.search` after the store call: one record per hit of
      the first query, in the store's order. No documents is an empty answer, not
      an error; a metadata or distance list too short for the documents raises. */
  method Search(response: QueryResponse) returns (r: Result<seq<SearchResult>, QueryError>)
    ensures !Truthy(response.documents) ==> r == Success([])
    ensures r.Success? <==> Aligned(response)
    ensures r.Success? ==> |r.value| == Hits(response)
    ensures r.Success? ==> forall i :: 0 <= i < |r.value| ==>
      && r.value[i].content == response.documents.value[0][i]
      && r.value[i].metadata == response.metadatas.value[0][i]
      && r.value[i].distance == (if Truthy(response.distances) then Some(response.distances.value[0][i]) else None)
  {
    var formatted: seq<SearchResult> := [];
    if Truthy(response.documents) {
      var documents := response.documents.value[0];
      var i := 0;
      while i < |documents|
        invariant 0 <= i <= |documents|
        invariant |formatted| == i
        invariant i > 0 ==> Truthy(response.metadatas) && |response.metadatas.value[0]| >= i
        invariant i > 0 && Truthy(response.distances) ==> |response.distances.value[0]| >= i
        invariant forall j :: 0 <= j < i ==>
          && formatted[j].content == documents[j]
          && formatted[j].metadata == response.metadatas.value[0][j]
          && formatted[j].distance == (if Truthy(response.distances) then Some(response.distances.value[0][j]) else None)
      {
        if !Truthy(response.metadatas) || i >= |response.metadatas.value[0]| {
          return Failure(MalformedResponse);
        }
        var metadata := response.metadatas.value[0][i];
        var distance: Option<real> := None;
        if Truthy(response.distances) {
          if i >= |response.distances.value[0]| {
            return Failure(MalformedResponse);
          }
          distance := Some(response.distances.value[0][i]);
        }
        formatted := formatted + [SearchResult(documents[i], metadata, distance)];
        i := i + 1;
      }
    }
    return Success(formatted);
  }

  // ---------------------------------------------------------------------------
  // display_results
  // ---------------------------------------------------------------------------

  /** Longest content shown in full. */
  const PreviewLimit: nat := 300

  /** The content shown for a result: in full up to 300 characters, otherwise
      its first 300 characters followed by "...". */
  function Preview(content: string): (p: string)
    ensures |content| <= PreviewLimit ==> p == content
    ensures |content| > PreviewLimit ==> |p| == PreviewLimit + 3 && p == content[..PreviewLimit] + "..."
  {
    if |content| > PreviewLimit then content[..PreviewLimit] + "..." else content
  }

  /** A preview is never longer than 303 characters, and what it shows of the
      content is a prefix of the content. */
  lemma PreviewBounded(content: string)
    ensures |Preview(content)| <= PreviewLimit + 3
    ensures Preview(content) <= content || Preview(content)[..PreviewLimit] <= content
  {
  }

  /** Previewing a preview changes nothing. */
  lemma PreviewIdempotent(content: string)
    ensures Preview(Preview(content)) == Preview(content)
  {
    if |content| > PreviewLimit {
      var p := Preview(content);
      assert p[..PreviewLimit] == content[..PreviewLimit];
    }
  }

  /** `metadata.get("title", "Untitled")`: a title key that is present wins,
      whatever its value (None included). */
  function DisplayTitle(metadata: Metadata): (title: Value)
    ensures "title" in metadata ==> title == metadata["title"]
    ensures "title" !in metadata ==> title == Str("Untitled")
  {
    if "title" in metadata then metadata["title"] else Str("Untitled")
  }

  /** `metadata.get("source", "Unknown")`. */
  function DisplaySource(metadata: Metadata): (source: Value)
    ensures "source" in metadata ==> source == metadata["source"]
    ensures "source" !in metadata ==> source == Str("Unknown")
  {
    if "source" in metadata then metadata["source"] else Str("Unknown")
  }

  /** What is printed for one result: its 1-based rank, title, source, the
      distance its similarity line is computed from (None: no such line) and the
      content preview. */
  datatype Entry = Entry(rank: nat, title: Value, source: Value, similarityFrom: Option<real>, preview: string)

  datatype Listing = NoResults | Entries(entries: seq<Entry>)

  /** What `display_results` prints: the query banner, if any, and the listing. */
  datatype Screen = Screen(banner: Option<string>, listing: Listing)

  /** Python's `display_results`, with the printed output returned as a value.
      Results are listed in the order given, none dropped, ranked from 1. */
  method DisplayResults(results: seq<SearchResult>, query: Option<string>) returns (screen: Screen)
    ensures screen.banner == (if query.Some? && query.value != "" then query else None)
    ensures screen.listing == NoResults <==> results == []
    ensures screen.listing.Entries? ==> |screen.listing.entries| == |results|
    ensures screen.listing.Entries? ==> forall i :: 0 <= i < |results| ==>
      && screen.listing.entries[i].rank == i + 1
      && screen.listing.entries[i].title == DisplayTitle(results[i].metadata)
      && screen.listing.entries[i].source == DisplaySource(results[i].metadata)
      && screen.listing.entries[i].similarityFrom == results[i].distance
      && screen.listing.entries[i].preview == Preview(results[i].content)
  {
    var banner: Option<string> := None;
    if query.Some? && query.value != "" {
      banner := query;
    }
    if results == [] {
      return Screen(banner, NoResults);
    }
    var entries: seq<Entry> := [];
    for i := 0 to |results|
      invariant |entries| == i
      invariant forall j :: 0 <= j < i ==>
        entries[j] == Entry(j + 1, DisplayTitle(results[j].metadata), DisplaySource(results[j].metadata),
                            results[j].distance, Preview(results[j].content))
    {
      var result := results[i];
      var content := result.content;
      if |content| > PreviewLimit {
        content := content[..PreviewLimit] + "...";
      }
      entries := entries + [Entry(i + 1, DisplayTitle(result.metadata), DisplaySource(result.metadata),
                                  result.distance, content)];
    }
    return Screen(banner, Entries(entries));
  }
}
