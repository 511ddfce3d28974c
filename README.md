# tvshowchat core, modelled in Dafny

A model of the storage, validation and ranking rules of tvshowchat, a
semantic search over an episode corpus of *Buffy the Vampire Slayer*. Four
parts are modelled, each in its own module:

- **The episode document store** (`DocumentStore`, document_store.dfy).
  - `EpisodeDocument` is a datatype with the dataclass's 37 fields. `None` is
    `JNull`.
  - `BuffyDocumentStore` is a class whose two fields stand for the two
    directories of JSON files: `content` (season -> episode key -> record) and
    `embeddings` (the same, for the three embedding fields).
  - A third field, `backups`, collects the snapshots `backup` takes.
  - The methods `SaveEpisode`, `GetEpisode`, `GetSeason`, `SearchEpisodes`,
    `Backup` and `ImportFromJson` change or read those fields as the Python
    methods change or read the files.
  - Each method is proved against a function of the store's value,
    `StoreState`: `AfterSave`, `Episode`, `Season`, `IsHit`, `SaveAll`.
  - The lemmas about those functions give the store's properties: what a save
    writes; what it leaves alone; the save/get round trip; the shape every
    reachable state keeps; what an import saves; and that importing the same
    data again leaves the store as it was, adding only a backup.
- **The corpus validation rules** (`Validation`, validation.dfy). These are
  pure functions:
  - the field validators of `EpisodeSummary`: the two-digit episode number,
    `strptime` with `'%B %d, %Y'`, the summary paragraphs, and the
    384-element embedding;
  - the schema check of a whole dataset;
  - the season and episode numbering rules;
  - the two entry points, which wrap every failure in a `ValueError` with a
    fixed prefix.
- **The `/search` route** (`SearchRoute`, search_route.dfy).
  - One candidate is built per record of the first season.
  - The candidates are stably sorted by descending score and cut to `top_k`,
    with Python's slice semantics.
- **`fetch_search_results`** (`EmbedAllSeasons`, embed_all_seasons.dfy).
  - The `k` argument: an absent `k` becomes `K_RESULTS` (3), a ghost result
    of the method, since nothing reads it afterwards.
  - The empty-query guard.
  - The fixed three-neighbour query sent to the index, recorded as a trace of
    calls.
  - The four-field projection of the returned documents, and the stable sort
    by ascending distance.

Shared modules:

- `Wrappers`: `Option`, `Result`, `Outcome`.
- `JsonValues`: JSON values, and `dict.get` as `Get`/`GetOr`.
- `PyText`: Python's `str.split`, `int()`, `str()` and `s[:k]`.
- `Ranking`: `sorted(key=...)` as a stable insertion sort, with its stability
  and top-k lemmas.
- `Config`: `K_RESULTS`.

Scores are abstract. The sentence encoder followed by cosine similarity is a
function parameter (`similarity`), and so is the order of the index's
distance values (`distance`). What is proved about the ranking holds for every
such function.

Where the intended design of the store differs from the code, the model
follows the code:

- `import_from_json` is not all-or-nothing. The records saved before a failing
  record stay saved. Nothing is validated before the import writes.
- The backup is taken after the import, not before it. A failed import takes
  no backup.
- Both searches order results by non-increasing score, not strictly
  descending. Equal scores keep their scan order.
- `save_episode` checks no required field.

## Model

| member | source | states |
|---|---|---|
| DocumentStore.ToDictExact | app/services/storage/document_store.py:67-69 | `to_dict` has a key exactly for each field whose value is not `None`, and maps it to that field's value unchanged |
| DocumentStore.KeyFieldsInDict | app/services/storage/document_store.py:67-69 | the season number and the episode number are always in `to_dict`, with the document's values |
| DocumentStore.SplitParts | app/services/storage/document_store.py:125-129 | the content part and the embeddings part together are `to_dict`, with no loss and no overlap; the embeddings part holds only embedding keys, and is empty exactly when the document has no embedding |
| DocumentStore.PopEmbeddings | app/services/storage/document_store.py:126-129 | the pop loop leaves the record without the three embedding keys, and collects exactly those of them that were present, with their values |
| DocumentStore.EmptyConsistent | app/services/storage/document_store.py:72-82 | a store over empty directories is consistent, and every episode and season read gives `None`/`{}` |
| DocumentStore.SaveWritesContent | app/services/storage/document_store.py:123-134 | after a save, the content entry at the document's key is `to_dict` minus the embedding keys, and holds no embedding key |
| DocumentStore.SaveWritesEmbeddings | app/services/storage/document_store.py:126-140 | the embeddings entry is written, as the document's embedding fields, exactly when the document carries an embedding; otherwise the whole embeddings partition is unchanged |
| DocumentStore.SaveFrame | app/services/storage/document_store.py:112-140 | a save changes no other episode key of the same season and nothing of another season, in either partition or as read by `get_episode`/`get_season` |
| DocumentStore.SaveThenGetSeason | app/services/storage/document_store.py:173-181 | after a save, `get_season` returns the earlier season with only the document's entry replaced by its content part |
| DocumentStore.SaveThenGet | app/services/storage/document_store.py:142-167 | round trip: when the document has an embedding or no earlier embeddings entry exists for its key, `get_episode` after `save_episode` returns `to_dict(doc)` |
| DocumentStore.SaveKeepsStaleEmbeddings | app/services/storage/document_store.py:137-167 | otherwise the earlier embeddings entry survives and `get_episode` returns `to_dict(doc)` merged with it |
| DocumentStore.SavePreservesConsistency | app/services/storage/document_store.py:106-140 | a save keeps the store consistent: content records hold no embedding key and name their own season and episode; embeddings entries are non-empty, hold only embedding keys and belong to an episode that has content |
| DocumentStore.ConsistentReads | app/services/storage/document_store.py:142-185 | in a consistent store, `get_season` returns no embedding key, and `get_episode` returns a record that names its own season and episode and whose non-embedding part is the content record |
| DocumentStore.SaveAllHas | app/services/storage/document_store.py:237-278 | after saving a sequence of documents, an episode has content exactly when it had before or one of the documents has its key |
| DocumentStore.SaveAllLastWriter | app/services/storage/document_store.py:132 | after saving a sequence, an episode's content is that of the last document with its key |
| DocumentStore.SaveAllPreservesConsistency | app/services/storage/document_store.py:235-278 | saving any sequence of documents keeps the store consistent |
| DocumentStore.ToDocumentSpec | app/services/storage/document_store.py:239-277 | a raw record converts exactly when it has `episode_number` (a string), `episode_title` and `episode_airdate`; the document has the given season number and the record's own `episode_number`; `summary` defaults to `[]`; every other field is read from its renamed source key (`episode_title`, `cast_main_cast`, `continuity`, ...) or is `None` |
| DocumentStore.PlanSeasonSpec | app/services/storage/document_store.py:237-278 | one season's records are converted in order; a failing record stops the season, and every record before it was converted |
| DocumentStore.PlanSeasonStops | app/services/storage/document_store.py:283-285 | once a record has failed, the later records of the season are not saved |
| DocumentStore.ImportPlanStops | app/services/storage/document_store.py:283-285 | once a season key or record has failed, the later seasons are not saved |
| DocumentStore.ImportPlanKeys | app/services/storage/document_store.py:236 | a successful import parsed every season key as `int(key.split('_')[1])` |
| DocumentStore.ImportPlanCovers | app/services/storage/document_store.py:235-278 | a successful import converts every raw record of every season, and saves the converted document |
| DocumentStore.ImportSavesEveryRecord | app/services/storage/document_store.py:235-278 | after a successful import, an entry exists under every raw record's season number and its own `episode_number` (when two records share both, the later one's content is the one stored, by SaveAllLastWriter) |
| DocumentStore.SaveOverwritten | app/services/storage/document_store.py:123-140 | a save that the same document repeats after any other saves leaves no trace: only the last save of a key decides its content and embeddings entries |
| DocumentStore.SaveAllIdempotent | app/services/storage/document_store.py:235-278 | saving the same sequence of documents a second time leaves the store unchanged |
| DocumentStore.RankedHits | app/services/storage/document_store.py:222-223 | the sorted and cut hits are hits of the store, in non-increasing score order, and no hit left out scores higher than one returned |
| DocumentStore.BuffyDocumentStore.constructor | app/services/storage/document_store.py:72-82 | the store serves whatever its directories already hold (`initial`, `Empty` for new directories), and has taken no backup |
| DocumentStore.BuffyDocumentStore.SaveEpisode | app/services/storage/document_store.py:106-140 | the new state is `AfterSave(doc)` of the old one; backups are unchanged |
| DocumentStore.BuffyDocumentStore.GetEpisode | app/services/storage/document_store.py:142-171 | `None` when the season has no content or lacks the episode key; otherwise the content record updated with the embeddings record, if any |
| DocumentStore.BuffyDocumentStore.GetSeason | app/services/storage/document_store.py:173-185 | the season's content partition, `{}` for an absent season |
| DocumentStore.BuffyDocumentStore.ScoreSeason | app/services/storage/document_store.py:207-219 | the hits of one season are exactly its episodes whose embeddings entry has a `summary_embedding`, each with its season, episode key, content record and score, and no episode twice |
| DocumentStore.BuffyDocumentStore.SearchEpisodes | app/services/storage/document_store.py:187-227 | the hits are exactly the episodes with a `summary_embedding`, each once; the output is the hits stably sorted by descending score and cut to `limit`; at most `limit` results; every result is a hit; no omitted hit scores higher than a returned one |
| DocumentStore.BuffyDocumentStore.Backup | app/services/storage/document_store.py:92-104 | the store is unchanged, and a snapshot equal to the whole current store is appended to the backups |
| DocumentStore.BuffyDocumentStore.ImportFromJson | app/services/storage/document_store.py:229-285 | the new state is the old one with the planned documents saved in order; on failure the first error is returned and no backup is taken; on success a backup equal to the new store is appended |
| DocumentStore.ImportTwice | app/services/storage/document_store.py:229-285 | two imports of the same data end the same way; the store after the second is the store after the first; each successful import appends one backup of that store, a failing one none |
| DocumentStore.BuffyDocumentStore.ImportSeason | app/services/storage/document_store.py:237-278 | the season's records are converted and saved in order until the first failure, which is returned |
| PyText.SplitJoin | app/services/pipeline/validation.py:57 | `split` on a separator is undone by `join`, and no piece contains the separator |
| PyText.SeasonKeyRoundTrip | app/services/storage/document_store.py:200 | `int(f"season_{n}".split('_')[1]) == n` for every integer `n` |
| PyText.IntToStringRoundTrip | app/services/storage/document_store.py:86 | `int(str(n)) == n` for every integer `n` |
| PyText.SeparatorIsNotIntSpace | app/services/pipeline/validation.py:57 | the separator 0x1C is whitespace for `\s` but not for `int()`: `int('\x1c1')` fails, while `int(' 1 ')` is 1 |
| PyText.SeparatorSeasonKeyRejected | app/services/pipeline/validation.py:57 | a season key `season_` followed by 0x1C and a digit does not parse, and the error names that key |
| PyText.PyPrefix | app/api/routes/search.py:68 | `s[:k]` is a prefix of `s` of length `min(k, len(s))` for `k >= 0`, and `max(len(s) + k, 0)` for negative `k` |
| Ranking.StableSort | app/api/routes/search.py:68 | the sorted sequence is a permutation of the input, ordered by the key |
| Ranking.StableSortKeepsTies | app/api/routes/search.py:68 | for every key value, the elements with that key appear in the sorted sequence in their original order (stability) |
| Ranking.StableSortUnique | app/api/routes/search.py:68 | any ordered sequence that keeps every key's elements in their original order is the stable sort |
| Ranking.SortedPrefixTop | app/services/storage/document_store.py:222-223 | the first `k` of the sorted sequence come from the input, are ordered, and no element left out sorts before one that is kept |
| Ranking.SortedPrefixCut | app/api/routes/search.py:68 | the first `k` of the sorted sequence are a sub-multiset of the input, and every element after the cut sorts no earlier than every element before it |
| Ranking.SortedPrefixTies | app/api/routes/search.py:68 | each key's elements among the first `k` are the first elements of that key in the input |
| Validation.MonthOf | app/services/pipeline/validation.py:18 | `%B` matches exactly the twelve English month names, ignoring case, and yields that month's number |
| Validation.ParseAirdate | app/services/pipeline/validation.py:18 | a parsed airdate is a calendar date: year 1..9999, month 1..12, a day that exists in that month |
| Validation.AirdateRoundTrip | app/services/pipeline/validation.py:14-21 | every calendar date written as `'%B %d, %Y'` parses back to the same date |
| Validation.ParsedDayYearShape | app/services/pipeline/validation.py:18 | the day-and-year part that parses is one or two digits spelling the day, a comma, whitespace, and four digits spelling the year |
| Validation.ParsedMonthShape | app/services/pipeline/validation.py:18 | a string that parses is a month name in any case, whitespace, and a rest that parses as the day and year of that month |
| Validation.ParsedAirdateShape | app/services/pipeline/validation.py:18 | converse of the round trip: every string that parses is a month name, whitespace, one or two day digits, a comma, whitespace and four year digits, spelling the parsed date |
| Validation.ValidateAirdate | app/services/pipeline/validation.py:14-21 | the airdate is accepted exactly when it parses, and is then returned unchanged; otherwise the error is the invalid-format error |
| Validation.AnyShorterThan | app/services/pipeline/validation.py:28 | `any(len(p) < n for p in ps)` is true exactly when some paragraph is shorter than `n` |
| Validation.ValidateSummary | app/services/pipeline/validation.py:23-30 | the summary is accepted exactly when it is non-empty and every paragraph has at least 10 characters, and is then returned unchanged; the empty-summary error is given exactly for the empty list |
| Validation.ValidateEmbedding | app/services/pipeline/validation.py:32-39 | the embedding is accepted exactly when it has 384 elements, and is then returned unchanged; the empty error is given exactly for the empty list, and otherwise the error reports the wrong length |
| Validation.SummaryAccepted | app/services/pipeline/validation.py:6-12 | an episode that passes every field validator yields a summary whose fields are the record's values, unchanged, each meeting its rule, including the `^\d{2}$` pattern |
| Validation.AcceptedUnique | app/services/pipeline/validation.py:6-12 | the record determines the accepted summary in every field, the embedding included |
| Validation.ValidateSingleEpisode | app/services/pipeline/validation.py:83-88 | succeeds exactly when every field validator passes, with the record's values; otherwise raises with the `Episode validation failed: ` prefix, listing every failing field |
| Validation.SeasonErrorsEmpty | app/services/pipeline/validation.py:41-43 | a season has no schema error exactly when every one of its episodes passes |
| Validation.CorpusErrors | app/services/pipeline/validation.py:71 | the dataset has no schema error exactly when every episode of every season passes |
| Validation.ParseCorpus | app/services/pipeline/validation.py:71 | the validated dataset keeps every season and episode key, in order, and each summary is accepted from its record |
| Validation.ContiguousAt | app/services/pipeline/validation.py:58 | `ns == list(range(1, len(ns) + 1))` exactly when position `i` holds `i + 1` |
| Validation.ContiguousIff | app/services/pipeline/validation.py:58 | the numbers are `[1..n]` exactly when they are strictly increasing and all within `1..n`; so a gap, a duplicate or a wrong order breaks the rule |
| Validation.SeasonNumbers | app/services/pipeline/validation.py:57 | one number per season key, in order, each `int(key.split('_')[1])`; or the error of the first key that does not parse |
| Validation.ValidateSeasonNumbers | app/services/pipeline/validation.py:55-58 | true exactly when the season key in position `i` is numbered `i + 1` (so an empty dataset passes and an out-of-order one fails); an error exactly when some key does not parse |
| Validation.EpisodeNumbers | app/services/pipeline/validation.py:63 | one `int(episode_number)` per record of the season, in order; an error exactly when some number does not parse |
| Validation.ValidateEpisodeNumbers | app/services/pipeline/validation.py:60-66 | true exactly when every season's records are numbered 1, 2, ... in order by their own `episode_number`; false only when some season is not; an error only when some number does not parse |
| Validation.EpisodeNumberParses | app/services/pipeline/validation.py:8 | a number matching `^\d{2}$` always converts with `int`, to its two-digit value |
| Validation.CheckEpisodeNumberAsWritten | app/services/pipeline/validation.py:8 | as the code runs under pydantic v1, the episode number is accepted exactly when it is a JSON string, and unchanged |
| Validation.PatternNotEnforcedAsWritten | app/services/pipeline/validation.py:8 | `"1"` and `"x"` pass as written but not under the intended pattern, and an `"x"` makes the numbering check raise naming it |
| Validation.EpisodeNumbersOfValidData | app/services/pipeline/validation.py:60-66 | on data that passed the schema, the episode-numbering check never raises |
| Validation.ValidateEpisodeData | app/services/pipeline/validation.py:68-81 | succeeds, with the validated data, exactly when the schema, the season numbering and the episode numbering all pass; every failure carries the `Data validation failed: ` prefix; a schema failure comes first and lists pydantic's errors; a season key that does not parse and a season-numbering failure come before the episode check, each with its own error; an episode-numbering failure gives the episode-sequence error |
| SearchRoute.CandidateSpec | app/api/routes/search.py:57-66 | a record yields a candidate exactly when it has the five keys read; the candidate copies the four fields unchanged and is scored on the record's own embedding; otherwise the error is the first missing key, in reading order |
| SearchRoute.CandidatesSpec | app/api/routes/search.py:57-66 | every record produces exactly one candidate, in order and without filtering; or the first failing record's error is returned |
| SearchRoute.SearchSize | app/api/routes/search.py:68 | for `top_k >= 0` the route returns `min(top_k, len(DATA))` results, for negative `top_k` Python's slice length; all of them candidates |
| SearchRoute.DefaultRequestSize | app/api/routes/search.py:32-34 | a request with only a query returns `min(3, len(DATA))` results |
| SearchRoute.SearchRanking | app/api/routes/search.py:68 | results are in non-increasing score order; equal scores keep the order of `DATA`; no candidate cut off scores higher than one returned |
| SearchRoute.SearchEpisodes | app/api/routes/search.py:53-69 | the loop and the final sort compute `Search`: the candidates of every record, stably sorted by descending score and cut to `top_k`, or the `KeyError` of the first record that lacks a key |
| EmbedAllSeasons.ProjectSpec | app/services/embeddings/embed_all_seasons.py:140-147 | a document projects exactly when it has the four fields; the projection has exactly the keys `id`, `vector_score`, `summary` and `synopsis`, with the document's values; otherwise the error is the first missing field |
| EmbedAllSeasons.ProjectionsSpec | app/services/embeddings/embed_all_seasons.py:140-147 | one projection per returned document, in order; or the first failing document's error |
| EmbedAllSeasons.FetchCalls | app/services/embeddings/embed_all_seasons.py:121-138 | only the empty query (not one of blanks) returns `[]` without calling the encoder or the index; every other query encodes once and searches `idx:buffy_vss` once, asking for 3 neighbours whatever `k` is |
| EmbedAllSeasons.FetchSorted | app/services/embeddings/embed_all_seasons.py:149 | the output is a permutation of the projected documents, sorted by ascending distance, documents at equal distance in the index's order |
| EmbedAllSeasons.FetchProjects | app/services/embeddings/embed_all_seasons.py:140-149 | every output record has exactly the four keys, with the values of one of the returned documents |
| EmbedAllSeasons.FetchSearchResults | app/services/embeddings/embed_all_seasons.py:118-149 | an absent `k` becomes `K_RESULTS`, which is 3, and a given `k` is kept; the result and the trace of calls are those of `Fetch`, which does not depend on `k` |

## Left out

- File and JSON I/O are not modelled. This covers `open`, `json.load`/`json.dump`, `mkdir`, `glob` and `shutil.copy2`. The two directories are the two map fields. A season file that does not exist is a season missing from the map.
- The `datetime.now()` name of a backup directory, and the `FileExistsError` of two backups in the same second, are not modelled. A backup is an appended snapshot. DocumentStore.ImportTwice therefore assumes the two imports' backups fall in different seconds.
- The `except Exception` paths of `get_episode`, `get_season` and `search_episodes` are not modelled. Those of `get_episode` and `get_season` catch read and parse failures of files, which the model has not.
  - The `try` of `search_episodes` (document_store.py:189-227) also catches any failure of the encoder and the `ValueError` of `np.dot` on a stored embedding whose length differs from the query's. `save_episode` checks no length, so such an embedding can be stored. The code then returns `[]` (lines 225-227). The model has a total score function, so its search never fails.
- DocumentStore.BuffyDocumentStore.constructor: the files already in the directories are an arbitrary initial `StoreState`. The `mkdir` calls and the loading of the sentence encoder are not modelled, and `backups` lists only the backups taken through this store, not earlier backup directories on disk.
- The sentence encoder, NumPy, and float arithmetic (`cosine_similarity`, NaN, division by a zero norm) are not modelled. A score is an abstract total function of the stored embedding, to `real`. The ranking lemmas hold for every such function.
- The Redis client is not modelled: the index, its server-side KNN search, the byte encoding of the query vector, and `create_pipeline`, `execute_pipeline`, `create_index` and `main`.
  - The documents the index returns are an input.
  - `document[prop]` is a key lookup, and a missing attribute is an error naming the field.
  - The order of the `vector_score` values the index returns is the abstract `distance` function.
- EmbedAllSeasons.FetchSearchResults: the code replaces `k = None` with `K_RESULTS` (3), then nothing reads the value. The model computes it as the ghost result `count`; Fetch does not take `k`, and FetchCalls states that the query asks for 3 neighbours whatever `k` is.
- DocumentStore.BuffyDocumentStore.SearchEpisodes: it visits seasons and episodes in an unspecified order, not glob order and file order.
  - Its contract therefore states the hits as a set: each once, plus the sorted and cut output.
  - It does not state which of several equal-score hits is kept at the cut.
  - The hits list is a ghost out-parameter for that reason.
- The season number that `search_episodes` reads back from a file name is `int(f"season_{n}".split('_')[1])`, as in the code. PyText.SeasonKeyRoundTrip proves it is `n`.
- Python's `list.sort`/`sorted` are modelled as the function `StableSort`, which computes a value. The in-place update of `results.sort(...)` is a reassignment.
- DocumentStore.ToDocument: an `episode_number` that is not a JSON string stops the import with an error. The dataclass would accept it and then use it as a dict key.
- pydantic's type coercions are not modelled: int to float in `List[float]`, the strictness of the `str` fields, and `response_model` validation of the search response. A string field must be a JSON string, a float list a list of JSON numbers.
- The text of pydantic's error messages is not modelled. Errors are listed as datatype values.
- Unicode is not modelled: `\d` in the pattern, `%d`/`%Y` in `strptime` and Python's `int()` accept ASCII digits only, and only ASCII characters count as whitespace.
  - The whitespace sets differ, as in Python: `int()` strips only space and tab through carriage return, while `\s` in `strptime` also matches the separators 0x1C..0x1F.
  - PyText.PyInt: underscores between digit groups are not accepted, though `int('1_0') == 10` in Python. A season key never gives `int()` one, since `split('_')[1]` stops at the next `_`. An episode number with one fails the intended pattern; only CheckEpisodeNumberAsWritten lets it through, and the model's `int()` then rejects it where Python's would not.
  - Python's `$` also matches before a final newline. The model requires exactly two digits and nothing else.
  - `strptime` is modelled for this one format. A one-digit day is accepted, and whitespace in the format matches one or more whitespace characters.
- SummaryAccepted, ValidateSingleEpisode, EpisodeNumbersOfValidData: these check the `^\d{2}$` pattern on `episode_number` as the code intends. The code as written does not enforce it (see Findings), and CheckEpisodeNumberAsWritten models that.
- Concurrency is not modelled, and neither is a crash between the content write and the embeddings write of `save_episode`.
- Scraping, the FastAPI app and routing, the health endpoints, logging, and the frontend are not modelled. They are transport and presentation around this core.

## Findings

| source | as written | input that shows it | evidently intended | confidence | as-written member | corrected member |
|---|---|---|---|---|---|---|
| app/services/pipeline/validation.py:8 | `Field(..., pattern=...)` on a model that uses `__root__`, which only pydantic v1 accepts; v1 names this keyword `regex=` and ignores `pattern=`, so any string passes | `episode_number` `"1"` or `"x"`; `"x"` then makes `int()` raise at validation.py:63 | `episode_number` is exactly two ASCII digits | not executed | Validation.PatternNotEnforcedAsWritten | Validation.EpisodeNumbersOfValidData |
