/** The `/search` route: every episode of the first season's data is
    scored against the query, the candidates are sorted by descending score
    (stably) and the first `top_k` are returned. The sentence encoder and
    the cosine similarity are one abstract score function of the query and
    the stored embedding. */
module SearchRoute {
  import opened Wrappers
  import opened JsonValues
  import opened PyText
  import opened Ranking

  /** The default of `SearchRequest.top_k`. */
  const DefaultTopK := 3

  /** The body of a search request. */
  datatype SearchRequest = SearchRequest(query: string, topK: int := DefaultTopK)

  /** One candidate: the four fields copied from the episode record, and
      its score. */
  datatype SearchResult = SearchResult(
    episodeNumber: Json,
    episodeTitle: Json,
    episodeAirdate: Json,
    episodeSummary: Json,
    score: real)

  /** The keys the loop reads from each record, in the order it reads them:
      the embedding first (for the score), then the four copied fields. */
  const ReadOrder: seq<string> :=
    ["summary_embedding", "episode_number", "episode_title", "episode_airdate", "episode_summary"]

  /** The candidate built from one record, or the `KeyError` naming the
      first key it lacks. */
  function Candidate(query: string, ep: Object, similarity: (string, Json) -> real): Result<SearchResult, string>
  {
    if "summary_embedding" !in ep then Err("summary_embedding")
    else
      var score := similarity(query, ep["summary_embedding"]);
      if "episode_number" !in ep then Err("episode_number")
      else if "episode_title" !in ep then Err("episode_title")
      else if "episode_airdate" !in ep then Err("episode_airdate")
      else if "episode_summary" !in ep then Err("episode_summary")
      else Ok(SearchResult(ep["episode_number"], ep["episode_title"], ep["episode_airdate"], ep["episode_summary"], score))
  }

  /** A record yields a candidate exactly when it has every key the loop
      reads; the candidate copies the four fields unchanged and is scored on
      the record's own embedding. Otherwise the error is the first key, in
      reading order, that is missing. */
  lemma CandidateSpec(query: string, ep: Object, similarity: (string, Json) -> real)
    ensures var r := Candidate(query, ep, similarity);
      && (r.Ok? <==> forall i :: 0 <= i < |ReadOrder| ==> ReadOrder[i] in ep)
      && (r.Ok? ==>
            && r.value.episodeNumber == ep["episode_number"]
            && r.value.episodeTitle == ep["episode_title"]
            && r.value.episodeAirdate == ep["episode_airdate"]
            && r.value.episodeSummary == ep["episode_summary"]
            && r.value.score == similarity(query, ep["summary_embedding"]))
      && (r.Err? ==> exists i :: 0 <= i < |ReadOrder| && ReadOrder[i] == r.error && r.error !in ep
                                && forall j :: 0 <= j < i ==> ReadOrder[j] in ep)
  {
    var r := Candidate(query, ep, similarity);
    if r.Err? {
      var i := if "summary_embedding" !in ep then 0
               else if "episode_number" !in ep then 1
               else if "episode_title" !in ep then 2
               else if "episode_airdate" !in ep then 3
               else 4;
      assert ReadOrder[i] == r.error;
    }
  }

  /** The list the loop builds: one candidate per record, in the order of
      the data, or the first error. */
  function Candidates(query: string, data: RawSeason, similarity: (string, Json) -> real): Result<seq<SearchResult>, string>
  {
    if data == [] then Ok([])
    else match Candidates(query, data[..|data| - 1], similarity)
      case Err(e) => Err(e)
      case Ok(c) =>
        match Candidate(query, data[|data| - 1].1, similarity)
        case Err(e) => Err(e)
        case Ok(x) => Ok(c + [x])
  }

  /** Every record produces exactly one candidate, in order and with no
      filtering; or the first record that lacks a key stops the loop with
      that record's error. */
  lemma {:induction false} CandidatesSpec(query: string, data: RawSeason, similarity: (string, Json) -> real)
    ensures var r := Candidates(query, data, similarity);
      && (r.Ok? <==> forall i :: 0 <= i < |data| ==> Candidate(query, data[i].1, similarity).Ok?)
      && (r.Ok? ==> |r.value| == |data|
                    && forall i :: 0 <= i < |data| ==> Candidate(query, data[i].1, similarity) == Ok(r.value[i]))
      && (r.Err? ==> exists i :: 0 <= i < |data| && Candidate(query, data[i].1, similarity) == Err(r.error)
                                && forall j :: 0 <= j < i ==> Candidate(query, data[j].1, similarity).Ok?)
    decreases |data|
  {
    if data != [] {
      var init := data[..|data| - 1];
      CandidatesSpec(query, init, similarity);
      assert forall i :: 0 <= i < |init| ==> init[i] == data[i];
    }
  }

  /** Once a prefix fails, later records change nothing. */
  lemma {:induction false} CandidatesStop(query: string, data: RawSeason, similarity: (string, Json) -> real, j: nat, k: nat)
    requires j <= k <= |data|
    requires Candidates(query, data[..j], similarity).Err?
    ensures Candidates(query, data[..k], similarity) == Candidates(query, data[..j], similarity)
    decreases k
  {
    if k > j {
      CandidatesStop(query, data, similarity, j, k - 1);
      assert data[..k][..k - 1] == data[..k - 1];
    }
  }

  /** The ascending key of `sorted(key=score, reverse=True)`. */
  function NegatedScore(r: SearchResult): real
  {
    -r.score
  }

  /** What `search_episodes` returns for `req` over `data`. */
  function Search(req: SearchRequest, data: RawSeason, similarity: (string, Json) -> real): Result<seq<SearchResult>, string>
  {
    match Candidates(req.query, data, similarity)
    case Err(e) => Err(e)
    case Ok(c) => Ok(PyPrefix(StableSort(c, NegatedScore), req.topK))
  }

  /** For `top_k >= 0` the route returns `min(top_k, |data|)` results (a
      negative `top_k` drops that many from the end, as Python's slice
      does), all of them candidates. */
  lemma SearchSize(req: SearchRequest, data: RawSeason, similarity: (string, Json) -> real)
    requires Search(req, data, similarity).Ok?
    ensures var out := Search(req, data, similarity).value;
      var cands := Candidates(req.query, data, similarity).value;
      && (req.topK >= 0 ==> |out| == if req.topK < |data| then req.topK else |data|)
      && (req.topK < 0 ==> |out| == if |data| + req.topK > 0 then |data| + req.topK else 0)
      && multiset(out) <= multiset(cands)
  {
    var cands := Candidates(req.query, data, similarity).value;
    CandidatesSpec(req.query, data, similarity);
    SortedPrefixCut(cands, NegatedScore, req.topK);
  }

  /** A request that gives only the query returns at most three results:
      three when there are at least three records. */
  lemma DefaultRequestSize(query: string, data: RawSeason, similarity: (string, Json) -> real)
    requires Search(SearchRequest(query), data, similarity).Ok?
    ensures |Search(SearchRequest(query), data, similarity).value| == if |data| < 3 then |data| else 3
  {
    SearchSize(SearchRequest(query), data, similarity);
  }

  /** The results are in non-increasing score order; equal scores keep the
      order of the data; and no candidate left out scores higher than one
      returned. */
  lemma SearchRanking(req: SearchRequest, data: RawSeason, similarity: (string, Json) -> real)
    requires Search(req, data, similarity).Ok?
    ensures var out := Search(req, data, similarity).value;
      var cands := Candidates(req.query, data, similarity).value;
      var ranked := StableSort(cands, NegatedScore);
      && (forall i, j :: 0 <= i < j < |out| ==> out[i].score >= out[j].score)
      && (forall c :: IsPrefix(WithKey(out, NegatedScore, c), WithKey(cands, NegatedScore, c)))
      && (forall i, j :: 0 <= i < |out| <= j < |ranked| ==> ranked[j].score <= out[i].score)
  {
    var cands := Candidates(req.query, data, similarity).value;
    var ranked := StableSort(cands, NegatedScore);
    var out := PyPrefix(ranked, req.topK);
    SortedPrefixCut(cands, NegatedScore, req.topK);
    forall c ensures IsPrefix(WithKey(out, NegatedScore, c), WithKey(cands, NegatedScore, c)) {
      SortedPrefixTies(cands, NegatedScore, req.topK, c);
    }
    forall i, j | 0 <= i < j < |out| ensures out[i].score >= out[j].score {
      assert NegatedScore(ranked[i]) <= NegatedScore(ranked[j]);
    }
    forall i, j | 0 <= i < |out| <= j < |ranked| ensures ranked[j].score <= out[i].score {
      assert NegatedScore(out[i]) <= NegatedScore(ranked[j]);
    }
  }

  /** `search_episodes`: score every record of `data` in order, then sort
      and cut. A record that lacks a key raises `KeyError` (`Err`). */
  method SearchEpisodes(req: SearchRequest, data: RawSeason, similarity: (string, Json) -> real)
    returns (r: Result<seq<SearchResult>, string>)
    ensures r == Search(req, data, similarity)
  {
    var results: seq<SearchResult> := [];
    assert data[..0] == [];
    for i := 0 to |data|
      invariant Candidates(req.query, data[..i], similarity) == Ok(results)
    {
      assert data[..i + 1][..i] == data[..i];
      var candidate := Candidate(req.query, data[i].1, similarity);
      if candidate.Err? {
        CandidatesStop(req.query, data, similarity, i + 1, |data|);
        assert data[..|data|] == data;
        return Err(candidate.error);
      }
      results := results + [candidate.value];
    }
    assert data[..|data|] == data;
    results := StableSort(results, NegatedScore);
    return Ok(PyPrefix(results, req.topK));
  }
}
