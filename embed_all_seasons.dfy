/** `fetch_search_results`: the vector-index search behind the chat
    front end. The query is encoded, a nearest-neighbour query is sent to
    the index, and the documents it returns are projected onto four fields
    and sorted by ascending distance. The encoder and the index are outside
    the model: their calls are recorded in a trace, and the documents the
    index returns are an input. */
module EmbedAllSeasons {
  import opened Wrappers
  import opened JsonValues
  import opened Ranking
  import opened Config

  /** The index the query is sent to. */
  const IndexName := "idx:buffy_vss"

  /** The number of neighbours the query asks for, fixed in the query text. */
  const KnnCount := 3

  /** The fields copied into each result, in the order they are read. */
  const ProjectedProps: seq<string> := ["id", "vector_score", "summary", "synopsis"]

  /** A nearest-neighbour query: `count` neighbours of the query vector on
      `vectorField`, the distance named `scoreAlias`, sorted by `sortBy`,
      returning `returnFields`, in query dialect `dialect`. */
  datatype KnnQuery = KnnQuery(
    count: nat,
    vectorField: string,
    scoreAlias: string,
    sortBy: string,
    returnFields: seq<string>,
    dialect: nat)

  /** The query `fetch_search_results` builds. */
  const SummaryQuery := KnnQuery(KnnCount, "summary_embedding", "vector_score", "vector_score",
                                 ["vector_score", "synopsis", "summary"], 2)

  /** A call into code outside the model. */
  datatype Call =
    | Encode(text: string)
    | SearchIndex(index: string, query: KnnQuery)

  /** One returned document projected onto the four fields, or the name of
      the first field it lacks. */
  function Project(doc: Object): Result<Object, string>
  {
    if "id" !in doc then Err("id")
    else if "vector_score" !in doc then Err("vector_score")
    else if "summary" !in doc then Err("summary")
    else if "synopsis" !in doc then Err("synopsis")
    else Ok(map["id" := doc["id"], "vector_score" := doc["vector_score"],
                "summary" := doc["summary"], "synopsis" := doc["synopsis"]])
  }

  /** `o` has exactly the four projected keys, each with `doc`'s value. */
  predicate ProjectionOf(o: Object, doc: Object)
  {
    o.Keys == {"id", "vector_score", "summary", "synopsis"}
    && forall p :: p in o ==> p in doc && o[p] == doc[p]
  }

  /** A projection succeeds exactly when the document has the four fields;
      it then has exactly those keys, each with the document's value.
      Otherwise the error is the first of them, in reading order, that is
      missing. */
  lemma ProjectSpec(doc: Object)
    ensures var r := Project(doc);
      && (r.Ok? <==> forall i :: 0 <= i < |ProjectedProps| ==> ProjectedProps[i] in doc)
      && (r.Ok? ==> ProjectionOf(r.value, doc))
      && (r.Err? ==> exists i :: 0 <= i < |ProjectedProps| && ProjectedProps[i] == r.error && r.error !in doc
                                && forall j :: 0 <= j < i ==> ProjectedProps[j] in doc)
  {
    var r := Project(doc);
    if r.Err? {
      var i := if "id" !in doc then 0
               else if "vector_score" !in doc then 1
               else if "summary" !in doc then 2
               else 3;
      assert ProjectedProps[i] == r.error;
    }
  }

  /** The list the loop builds: the projections in the order the index
      returned the documents, or the first error. */
  function Projections(docs: seq<Object>): Result<seq<Object>, string>
  {
    if docs == [] then Ok([])
    else match Projections(docs[..|docs| - 1])
      case Err(e) => Err(e)
      case Ok(res) =>
        match Project(docs[|docs| - 1])
        case Err(e) => Err(e)
        case Ok(x) => Ok(res + [x])
  }

  /** One projection per returned document, in order; or the first
      document that lacks a field stops the loop with its error. */
  lemma {:induction false} ProjectionsSpec(docs: seq<Object>)
    ensures var r := Projections(docs);
      && (r.Ok? <==> forall i :: 0 <= i < |docs| ==> Project(docs[i]).Ok?)
      && (r.Ok? ==> |r.value| == |docs| && forall i :: 0 <= i < |docs| ==> Project(docs[i]) == Ok(r.value[i]))
      && (r.Err? ==> exists i :: 0 <= i < |docs| && Project(docs[i]) == Err(r.error)
                                && forall j :: 0 <= j < i ==> Project(docs[j]).Ok?)
    decreases |docs|
  {
    if docs != [] {
      var init := docs[..|docs| - 1];
      ProjectionsSpec(init);
      assert forall i :: 0 <= i < |init| ==> init[i] == docs[i];
    }
  }

  /** Once a prefix fails, later documents change nothing. */
  lemma {:induction false} ProjectionsStop(docs: seq<Object>, j: nat, k: nat)
    requires j <= k <= |docs|
    requires Projections(docs[..j]).Err?
    ensures Projections(docs[..k]) == Projections(docs[..j])
    decreases k
  {
    if k > j {
      ProjectionsStop(docs, j, k - 1);
      assert docs[..k][..k - 1] == docs[..k - 1];
    }
  }

  /** The sort key `lambda x: x["vector_score"]`, with `distance` standing
      for the order of the index's distance values. */
  function ByDistance(distance: Json -> real): Object -> real
  {
    o => distance(Get(o, "vector_score"))
  }

  /** What a call of `fetch_search_results` returns, and the calls it makes. */
  datatype Fetched = Fetched(result: Result<seq<Object>, string>, calls: seq<Call>)

  /** `fetch_search_results(query_text, k)` when the index answers with
      `returned`: an empty query returns `[]` without any call; otherwise
      the query is encoded, the index searched, and the projections sorted
      by ascending distance. */
  function Fetch(queryText: string, returned: seq<Object>, distance: Json -> real): Fetched
  {
    if queryText == "" then Fetched(Ok([]), [])
    else
      var calls := [Encode(queryText), SearchIndex(IndexName, SummaryQuery)];
      match Projections(returned)
      case Err(e) => Fetched(Err(e), calls)
      case Ok(res) => Fetched(Ok(StableSort(res, ByDistance(distance))), calls)
  }

  /** Only the empty string skips the encoder and the index (a query of
      blanks does not); every other query makes exactly one encoding call
      and one index search, which asks for three neighbours. */
  lemma FetchCalls(queryText: string, returned: seq<Object>, distance: Json -> real)
    ensures var f := Fetch(queryText, returned, distance);
      && (f.calls == [] <==> queryText == "")
      && (queryText == "" ==> f.result == Ok([]))
      && (queryText != "" ==> f.calls == [Encode(queryText), SearchIndex(IndexName, SummaryQuery)]
                              && f.calls[1].query.count == 3)
  {
  }

  /** A successful fetch returns a permutation of the projected documents,
      sorted by ascending distance, documents at the same distance in the
      order the index returned them. */
  lemma FetchSorted(queryText: string, returned: seq<Object>, distance: Json -> real)
    requires queryText != "" && Fetch(queryText, returned, distance).result.Ok?
    ensures var out := Fetch(queryText, returned, distance).result.value;
      var res := Projections(returned).value;
      && multiset(out) == multiset(res)
      && Ascending(out, ByDistance(distance))
      && (forall c :: WithKey(out, ByDistance(distance), c) == WithKey(res, ByDistance(distance), c))
  {
    var res := Projections(returned).value;
    var out := StableSort(res, ByDistance(distance));
    forall c ensures WithKey(out, ByDistance(distance), c) == WithKey(res, ByDistance(distance), c) {
      StableSortKeepsTies(res, ByDistance(distance), c);
    }
  }

  /** Each result of a successful fetch has exactly the four keys, with the
      values of one of the returned documents. */
  lemma FetchProjects(queryText: string, returned: seq<Object>, distance: Json -> real)
    requires queryText != "" && Fetch(queryText, returned, distance).result.Ok?
    ensures forall o :: o in Fetch(queryText, returned, distance).result.value ==>
              exists i :: 0 <= i < |returned| && ProjectionOf(o, returned[i])
  {
    var res := Projections(returned).value;
    var out := StableSort(res, ByDistance(distance));
    ProjectionsSpec(returned);
    forall o | o in out ensures exists i :: 0 <= i < |returned| && ProjectionOf(o, returned[i]) {
      assert o in multiset(res);
      var i :| 0 <= i < |res| && res[i] == o;
      ProjectSpec(returned[i]);
    }
  }

  /** `fetch_search_results`. `returned` is what the index answers to the
      query and `distance` its score for each. Both arguments of the code
      keep their defaults: the empty query, and `k` absent. The code
      replaces an absent `k` with `K_RESULTS`; `count` is that value. Nothing
      reads it afterwards, so the result does not depend on it. */
  method FetchSearchResults(returned: seq<Object>, distance: Json -> real, queryText: string := "", k: Option<int> := None)
    returns (r: Result<seq<Object>, string>, calls: seq<Call>, ghost count: int)
    ensures count == if k.None? then KResults else k.value
    ensures k.None? ==> count == 3
    ensures Fetched(r, calls) == Fetch(queryText, returned, distance)
  {
    count := if k.None? then KResults else k.value;
    if queryText == "" {
      return Ok([]), [], count;
    }
    calls := [Encode(queryText), SearchIndex(IndexName, SummaryQuery)];
    var res: seq<Object> := [];
    assert returned[..0] == [];
    for i := 0 to |returned|
      invariant Projections(returned[..i]) == Ok(res)
    {
      assert returned[..i + 1][..i] == returned[..i];
      var projected := Project(returned[i]);
      if projected.Err? {
        ProjectionsStop(returned, i + 1, |returned|);
        assert returned[..|returned|] == returned;
        return Err(projected.error), calls, count;
      }
      res := res + [projected.value];
    }
    assert returned[..|returned|] == returned;
    return Ok(StableSort(res, ByDistance(distance))), calls, count;
  }
}
