/** The episode document store: a per-season content partition and a
    per-season embeddings partition, each mapping an episode number to a
    record. The two directories of JSON files are modelled as two maps held
    by the store object; a backup is a snapshot of both. */
module DocumentStore {
  import opened Wrappers
  import opened JsonValues
  import opened PyText
  import opened Ranking

  // ---------------------------------------------------------------------------
  // EpisodeDocument

  /** The fields of `EpisodeDocument`, in declaration order. */
  datatype Field =
    | SeasonNumber | EpisodeNumber | Title | Airdate
    | Summary | Synopsis | Quotes | Trivia
    | Director | Writer | ProductionCode | UsViewersMillions | OriginalAirDate
    | FilmingLocation | Network | RunningTime | Budget
    | MainCast | GuestStars | RecurringCharacters | FirstAppearances | LastAppearances
    | CharactersIntroduced | CharactersMentioned | CharactersDied
    | ContinuityNotes | CulturalReferences | Music | MythologyReferences | Prophecies | ArcConnections
    | Awards | DeathCount | BodyCount
    | SummaryEmbedding | SynopsisEmbedding | QuotesEmbedding

  const AllFields: set<Field> := {
    SeasonNumber, EpisodeNumber, Title, Airdate,
    Summary, Synopsis, Quotes, Trivia,
    Director, Writer, ProductionCode, UsViewersMillions, OriginalAirDate,
    FilmingLocation, Network, RunningTime, Budget,
    MainCast, GuestStars, RecurringCharacters, FirstAppearances, LastAppearances,
    CharactersIntroduced, CharactersMentioned, CharactersDied,
    ContinuityNotes, CulturalReferences, Music, MythologyReferences, Prophecies, ArcConnections,
    Awards, DeathCount, BodyCount,
    SummaryEmbedding, SynopsisEmbedding, QuotesEmbedding }

  /** The keys `save_episode` moves to the embeddings partition, in the
      order it pops them. */
  const EmbeddingKeys: seq<Field> := [SummaryEmbedding, SynopsisEmbedding, QuotesEmbedding]
  const EmbeddingFields: set<Field> := {SummaryEmbedding, SynopsisEmbedding, QuotesEmbedding}

  lemma AllFieldsCover(f: Field)
    ensures f in AllFields
  {
  }

  /** A stored record: a dictionary from field name to JSON value. */
  type Record = map<Field, Json>

  /** One episode's data. The two key fields are typed; every other field
      holds whatever JSON value it was given (the dataclass checks no types),
      and `JNull` is `None`. The fields after `summary` default to `None`. */
  datatype EpisodeDocument = EpisodeDocument(
    seasonNumber: int,
    episodeNumber: string,
    title: Json,
    airdate: Json,
    summary: Json,
    synopsis: Json := JNull,
    quotes: Json := JNull,
    trivia: Json := JNull,
    director: Json := JNull,
    writer: Json := JNull,
    productionCode: Json := JNull,
    usViewersMillions: Json := JNull,
    originalAirDate: Json := JNull,
    filmingLocation: Json := JNull,
    network: Json := JNull,
    runningTime: Json := JNull,
    budget: Json := JNull,
    mainCast: Json := JNull,
    guestStars: Json := JNull,
    recurringCharacters: Json := JNull,
    firstAppearances: Json := JNull,
    lastAppearances: Json := JNull,
    charactersIntroduced: Json := JNull,
    charactersMentioned: Json := JNull,
    charactersDied: Json := JNull,
    continuityNotes: Json := JNull,
    culturalReferences: Json := JNull,
    music: Json := JNull,
    mythologyReferences: Json := JNull,
    prophecies: Json := JNull,
    arcConnections: Json := JNull,
    awards: Json := JNull,
    deathCount: Json := JNull,
    bodyCount: Json := JNull,
    summaryEmbedding: Json := JNull,
    synopsisEmbedding: Json := JNull,
    quotesEmbedding: Json := JNull)

  /** The value `asdict` gives a field. */
  function Value(doc: EpisodeDocument, f: Field): Json
  {
    match f
    case SeasonNumber => JInt(doc.seasonNumber)
    case EpisodeNumber => JString(doc.episodeNumber)
    case Title => doc.title
    case Airdate => doc.airdate
    case Summary => doc.summary
    case Synopsis => doc.synopsis
    case Quotes => doc.quotes
    case Trivia => doc.trivia
    case Director => doc.director
    case Writer => doc.writer
    case ProductionCode => doc.productionCode
    case UsViewersMillions => doc.usViewersMillions
    case OriginalAirDate => doc.originalAirDate
    case FilmingLocation => doc.filmingLocation
    case Network => doc.network
    case RunningTime => doc.runningTime
    case Budget => doc.budget
    case MainCast => doc.mainCast
    case GuestStars => doc.guestStars
    case RecurringCharacters => doc.recurringCharacters
    case FirstAppearances => doc.firstAppearances
    case LastAppearances => doc.lastAppearances
    case CharactersIntroduced => doc.charactersIntroduced
    case CharactersMentioned => doc.charactersMentioned
    case CharactersDied => doc.charactersDied
    case ContinuityNotes => doc.continuityNotes
    case CulturalReferences => doc.culturalReferences
    case Music => doc.music
    case MythologyReferences => doc.mythologyReferences
    case Prophecies => doc.prophecies
    case ArcConnections => doc.arcConnections
    case Awards => doc.awards
    case DeathCount => doc.deathCount
    case BodyCount => doc.bodyCount
    case SummaryEmbedding => doc.summaryEmbedding
    case SynopsisEmbedding => doc.synopsisEmbedding
    case QuotesEmbedding => doc.quotesEmbedding
  }

  /** `EpisodeDocument.to_dict`. */
  function ToDict(doc: EpisodeDocument): Record
  {
    map f | f in AllFields && Value(doc, f) != JNull :: Value(doc, f)
  }

  /** `to_dict` keeps exactly the fields that are not `None`, each with its
      value unchanged; the two key fields are always kept. */
  lemma ToDictExact(doc: EpisodeDocument)
    ensures forall f :: f in ToDict(doc) <==> Value(doc, f) != JNull
    ensures forall f :: f in ToDict(doc) ==> ToDict(doc)[f] == Value(doc, f)
  {
    forall f | Value(doc, f) != JNull
      ensures f in ToDict(doc)
    {
      AllFieldsCover(f);
    }
  }

  /** The two key fields are always in `to_dict`. */
  lemma KeyFieldsInDict(doc: EpisodeDocument)
    ensures SeasonNumber in ToDict(doc) && ToDict(doc)[SeasonNumber] == JInt(doc.seasonNumber)
    ensures EpisodeNumber in ToDict(doc) && ToDict(doc)[EpisodeNumber] == JString(doc.episodeNumber)
  {
    assert Value(doc, SeasonNumber) == JInt(doc.seasonNumber);
    assert Value(doc, EpisodeNumber) == JString(doc.episodeNumber);
    assert SeasonNumber in AllFields && EpisodeNumber in AllFields;
  }

  /** `m` restricted to the keys in `keys`. */
  function Restrict(m: Record, keys: set<Field>): Record
  {
    map f | f in m && f in keys :: m[f]
  }

  /** The record `save_episode` writes to the content partition. */
  function ContentPart(doc: EpisodeDocument): Record
  {
    ToDict(doc) - EmbeddingFields
  }

  /** The record `save_episode` writes to the embeddings partition, if it
      is not empty. */
  function EmbeddingPart(doc: EpisodeDocument): Record
  {
    Restrict(ToDict(doc), EmbeddingFields)
  }

  predicate HasEmbedding(doc: EpisodeDocument)
  {
    doc.summaryEmbedding != JNull || doc.synopsisEmbedding != JNull || doc.quotesEmbedding != JNull
  }

  /** The three embedding fields are in `to_dict` exactly when not `None`. */
  lemma EmbeddingKeysInDict(doc: EpisodeDocument)
    ensures SummaryEmbedding in ToDict(doc) <==> doc.summaryEmbedding != JNull
    ensures SynopsisEmbedding in ToDict(doc) <==> doc.synopsisEmbedding != JNull
    ensures QuotesEmbedding in ToDict(doc) <==> doc.quotesEmbedding != JNull
  {
    assert Value(doc, SummaryEmbedding) == doc.summaryEmbedding;
    assert Value(doc, SynopsisEmbedding) == doc.synopsisEmbedding;
    assert Value(doc, QuotesEmbedding) == doc.quotesEmbedding;
    assert SummaryEmbedding in AllFields && SynopsisEmbedding in AllFields && QuotesEmbedding in AllFields;
  }

  /** Splitting a record by a key set loses nothing. */
  lemma RestrictSplit(m: Record, keys: set<Field>)
    ensures (m - keys) + Restrict(m, keys) == m
    ensures forall f :: f in m - keys ==> f !in keys
    ensures forall f :: f in Restrict(m, keys) ==> f in keys
    ensures Restrict(m, keys) == map[] <==> forall f :: f in keys ==> f !in m
  {
    if Restrict(m, keys) == map[] {
      forall f | f in keys ensures f !in m {
        assert f !in Restrict(m, keys);
      }
    }
  }

  /** The two parts split `to_dict` without loss or overlap, and the
      embeddings part is empty exactly when the document has no embedding. */
  lemma SplitParts(doc: EpisodeDocument)
    ensures ContentPart(doc) + EmbeddingPart(doc) == ToDict(doc)
    ensures forall f :: f in ContentPart(doc) ==> f !in EmbeddingFields
    ensures forall f :: f in EmbeddingPart(doc) ==> f in EmbeddingFields
    ensures EmbeddingPart(doc) == map[] <==> !HasEmbedding(doc)
    ensures !HasEmbedding(doc) ==> ContentPart(doc) == ToDict(doc)
  {
    var d := ToDict(doc);
    RestrictSplit(d, EmbeddingFields);
    EmbeddingKeysInDict(doc);
    if !HasEmbedding(doc) {
      assert d - EmbeddingFields == d;
    }
  }

  // ---------------------------------------------------------------------------
  // The store's state

  /** A content record: no embedding key, and the key fields of episode `e`
      of season `s`. */
  predicate ContentRecord(r: Record, s: int, e: string)
  {
    && (forall f :: f in r ==> f !in EmbeddingFields)
    && SeasonNumber in r && r[SeasonNumber] == JInt(s)
    && EpisodeNumber in r && r[EpisodeNumber] == JString(e)
  }

  /** An embeddings record: non-empty, embedding keys only. */
  predicate EmbeddingRecord(r: Record)
  {
    r != map[] && forall f :: f in r ==> f in EmbeddingFields
  }

  type Partition = map<int, map<string, Record>>

  /** Every content record names its own season and episode and holds no
      embedding key. */
  ghost predicate ContentConsistent(content: Partition)
  {
    forall s, e :: s in content && e in content[s] ==> ContentRecord(content[s][e], s, e)
  }

  /** Every embeddings record is well formed and belongs to an episode that
      has content. */
  ghost predicate EmbeddingsConsistent(embeddings: Partition, content: Partition)
  {
    forall s, e :: s in embeddings && e in embeddings[s] ==>
      EmbeddingRecord(embeddings[s][e]) && s in content && e in content[s]
  }

  /** The contents of the two directories: `season_{n}.json` for each
      season of `content`, `season_{n}_embeddings.json` for each season of
      `embeddings`. */
  datatype StoreState = StoreState(content: Partition, embeddings: Partition)
  {
    /** The state after `save_episode(doc)`. */
    function AfterSave(doc: EpisodeDocument): StoreState
    {
      var s, e := doc.seasonNumber, doc.episodeNumber;
      var seasonData := if s in content then content[s] else map[];
      var embeddingsData := if s in embeddings then embeddings[s] else map[];
      StoreState(
        content[s := seasonData[e := ContentPart(doc)]],
        if EmbeddingPart(doc) == map[] then embeddings
        else embeddings[s := embeddingsData[e := EmbeddingPart(doc)]])
    }

    /** What `get_episode(season, episode)` returns: the content record with
        the embeddings entry merged over it, or `None`. */
    function Episode(season: int, episode: string): Option<Record>
    {
      if season !in content || episode !in content[season] then None
      else if season in embeddings && episode in embeddings[season]
      then Some(content[season][episode] + embeddings[season][episode])
      else Some(content[season][episode])
    }

    /** The content partition has an entry for episode `e` of season `s`. */
    predicate HasEpisode(s: int, e: string)
    {
      s in content && e in content[s]
    }

    /** What `get_season(season)` returns. */
    function Season(season: int): map<string, Record>
    {
      if season in content then content[season] else map[]
    }

    /** The shape every state the store produces has: content records hold
        no embedding key and name their own season and episode; every
        embeddings entry is non-empty, holds only embedding keys and belongs
        to an episode that has content. */
    ghost predicate Consistent()
    {
      ContentConsistent(content) && EmbeddingsConsistent(embeddings, content)
    }

    /** `h` is what `search_episodes` reports for an episode with a
        `summary_embedding`: its season, its episode key, its content record
        and the score of that embedding. */
    ghost predicate IsHit(h: SearchHit, similarity: Json -> real)
    {
      && HasEpisode(h.season, h.episode)
      && h.data == content[h.season][h.episode]
      && h.season in embeddings && h.episode in embeddings[h.season]
      && SummaryEmbedding in embeddings[h.season][h.episode]
      && h.score == similarity(embeddings[h.season][h.episode][SummaryEmbedding])
    }

    /** The state after saving `docs` in order. */
    function SaveAll(docs: seq<EpisodeDocument>): StoreState
    {
      if docs == [] then this
      else SaveAll(docs[..|docs| - 1]).AfterSave(docs[|docs| - 1])
    }
  }

  const Empty := StoreState(map[], map[])

  /** One result of `search_episodes`. */
  datatype SearchHit = SearchHit(season: int, episode: string, data: Record, score: real)

  /** The sort key of `sort(key=score, reverse=True)`, as an ascending key. */
  function NegatedScore(h: SearchHit): real
  {
    -h.score
  }

  /** No two hits are for the same episode. */
  predicate DistinctEpisodes(hits: seq<SearchHit>)
  {
    forall i, j :: 0 <= i < j < |hits| ==> hits[i].season != hits[j].season || hits[i].episode != hits[j].episode
  }

  lemma EmptyConsistent()
    ensures Empty.Consistent()
    ensures forall s, e :: Empty.Episode(s, e) == None && Empty.Season(s) == map[]
  {
  }

  // ---------------------------------------------------------------------------
  // save_episode

  /** After a save, the content entry at the document's key is `to_dict`
      without the embedding keys, and it holds no embedding key. */
  lemma SaveWritesContent(st: StoreState, doc: EpisodeDocument)
    ensures var after := st.AfterSave(doc);
      && doc.seasonNumber in after.content && doc.episodeNumber in after.content[doc.seasonNumber]
      && after.content[doc.seasonNumber][doc.episodeNumber] == ToDict(doc) - EmbeddingFields
      && forall f :: f in after.content[doc.seasonNumber][doc.episodeNumber] ==> f !in EmbeddingFields
  {
  }

  /** The embeddings entry is written exactly when the document carries an
      embedding; otherwise the embeddings partition is left as it was. */
  lemma SaveWritesEmbeddings(st: StoreState, doc: EpisodeDocument)
    ensures var after := st.AfterSave(doc);
      && (HasEmbedding(doc) ==>
            && doc.seasonNumber in after.embeddings && doc.episodeNumber in after.embeddings[doc.seasonNumber]
            && after.embeddings[doc.seasonNumber][doc.episodeNumber] == Restrict(ToDict(doc), EmbeddingFields))
      && (!HasEmbedding(doc) ==> after.embeddings == st.embeddings)
  {
    SplitParts(doc);
  }

  /** A save changes no other episode of the same season and nothing of any
      other season, in either partition. */
  lemma SaveFrame(st: StoreState, doc: EpisodeDocument, s: int, e: string)
    requires s != doc.seasonNumber || e != doc.episodeNumber
    ensures var after := st.AfterSave(doc);
      && after.Episode(s, e) == st.Episode(s, e)
      && (s in after.content && e in after.content[s] <==> s in st.content && e in st.content[s])
      && (s in after.content && e in after.content[s] ==> after.content[s][e] == st.content[s][e])
      && (s in after.embeddings && e in after.embeddings[s] <==> s in st.embeddings && e in st.embeddings[s])
      && (s in after.embeddings && e in after.embeddings[s] ==> after.embeddings[s][e] == st.embeddings[s][e])
      && (s != doc.seasonNumber ==> after.Season(s) == st.Season(s))
  {
  }

  /** `get_season` after a save sees the new content entry and every other
      entry of the season as before. */
  lemma SaveThenGetSeason(st: StoreState, doc: EpisodeDocument)
    ensures st.AfterSave(doc).Season(doc.seasonNumber) == st.Season(doc.seasonNumber)[doc.episodeNumber := ContentPart(doc)]
  {
  }

  /** Round trip: when the document carries an embedding, or no earlier
      embeddings entry exists for its key, `get_episode` returns `to_dict`. */
  lemma SaveThenGet(st: StoreState, doc: EpisodeDocument)
    requires HasEmbedding(doc)
             || doc.seasonNumber !in st.embeddings
             || doc.episodeNumber !in st.embeddings[doc.seasonNumber]
    ensures st.AfterSave(doc).Episode(doc.seasonNumber, doc.episodeNumber) == Some(ToDict(doc))
  {
    var s, e := doc.seasonNumber, doc.episodeNumber;
    var after := st.AfterSave(doc);
    SplitParts(doc);
    AfterSaveWrites(st, doc);
    assert after.content[s][e] == ContentPart(doc);
    if HasEmbedding(doc) {
      assert after.embeddings[s][e] == EmbeddingPart(doc);
    } else {
      assert after.embeddings == st.embeddings;
    }
  }

  /** Otherwise the stale embeddings entry survives the save and is merged
      into what `get_episode` returns. */
  lemma SaveKeepsStaleEmbeddings(st: StoreState, doc: EpisodeDocument)
    requires !HasEmbedding(doc)
    requires doc.seasonNumber in st.embeddings && doc.episodeNumber in st.embeddings[doc.seasonNumber]
    ensures st.AfterSave(doc).Episode(doc.seasonNumber, doc.episodeNumber)
            == Some(ToDict(doc) + st.embeddings[doc.seasonNumber][doc.episodeNumber])
  {
    SplitParts(doc);
  }

  /** The content part of a document is a content record for its key. */
  lemma OwnContentRecord(doc: EpisodeDocument)
    ensures ContentRecord(ContentPart(doc), doc.seasonNumber, doc.episodeNumber)
  {
    SplitParts(doc);
    KeyFieldsInDict(doc);
  }

  lemma SaveKeepsContentConsistent(st: StoreState, doc: EpisodeDocument)
    requires ContentConsistent(st.content)
    ensures ContentConsistent(st.AfterSave(doc).content)
  {
    var s0, e0 := doc.seasonNumber, doc.episodeNumber;
    AfterSaveWrites(st, doc);
    OwnContentRecord(doc);
    var c := st.content[s0 := SeasonOf(st.content, s0)[e0 := ContentPart(doc)]];
    forall s, e | s in c && e in c[s] ensures ContentRecord(c[s][e], s, e) {
      if s != s0 || e != e0 {
        assert c[s][e] == st.content[s][e];
      }
    }
  }

  lemma SaveKeepsEmbeddingsConsistent(st: StoreState, doc: EpisodeDocument)
    requires EmbeddingsConsistent(st.embeddings, st.content)
    ensures EmbeddingsConsistent(st.AfterSave(doc).embeddings, st.AfterSave(doc).content)
  {
    SplitParts(doc);
    var after := st.AfterSave(doc);
    assert EmbeddingPart(doc) != map[] ==> EmbeddingRecord(EmbeddingPart(doc));
    forall s, e | s in after.embeddings && e in after.embeddings[s]
      ensures EmbeddingRecord(after.embeddings[s][e]) && s in after.content && e in after.content[s]
    {
      if s != doc.seasonNumber || e != doc.episodeNumber {
        assert after.embeddings[s][e] == st.embeddings[s][e];
      }
    }
  }

  /** Saving keeps the store consistent. */
  lemma SavePreservesConsistency(st: StoreState, doc: EpisodeDocument)
    requires st.Consistent()
    ensures st.AfterSave(doc).Consistent()
  {
    SaveKeepsContentConsistent(st, doc);
    SaveKeepsEmbeddingsConsistent(st, doc);
  }

  /** In a consistent store `get_season` returns content only, and
      `get_episode` returns a record naming its own season and episode whose
      non-embedding fields are the content record. */
  lemma ConsistentReads(st: StoreState, s: int, e: string)
    requires st.Consistent()
    ensures forall k, f :: k in st.Season(s) && f in st.Season(s)[k] ==> f !in EmbeddingFields
    ensures st.Episode(s, e).Some? ==>
      && SeasonNumber in st.Episode(s, e).value && st.Episode(s, e).value[SeasonNumber] == JInt(s)
      && EpisodeNumber in st.Episode(s, e).value && st.Episode(s, e).value[EpisodeNumber] == JString(e)
      && st.Episode(s, e).value - EmbeddingFields == st.Season(s)[e]
  {
    if st.Episode(s, e).Some? {
      var c := st.content[s][e];
      var x := if s in st.embeddings && e in st.embeddings[s] then st.embeddings[s][e] else map[];
      assert st.Episode(s, e).value == c + x;
      assert ContentRecord(c, s, e);
      assert x == map[] || EmbeddingRecord(x);
      assert SeasonNumber !in x && EpisodeNumber !in x;
      assert (c + x) - EmbeddingFields == c;
    }
  }

  // ---------------------------------------------------------------------------
  // Saving a sequence of documents

  lemma SaveAllSnoc(st: StoreState, docs: seq<EpisodeDocument>, doc: EpisodeDocument)
    ensures st.SaveAll(docs + [doc]) == st.SaveAll(docs).AfterSave(doc)
  {
    assert (docs + [doc])[..|docs|] == docs;
  }

  predicate HasKey(doc: EpisodeDocument, s: int, e: string)
  {
    doc.seasonNumber == s && doc.episodeNumber == e
  }

  lemma AfterSaveHas(st: StoreState, doc: EpisodeDocument, s: int, e: string)
    ensures st.AfterSave(doc).HasEpisode(s, e) <==> st.HasEpisode(s, e) || HasKey(doc, s, e)
  {
  }

  predicate SomeHasKey(docs: seq<EpisodeDocument>, s: int, e: string)
  {
    exists i :: 0 <= i < |docs| && HasKey(docs[i], s, e)
  }

  lemma SomeHasKeySnoc(docs: seq<EpisodeDocument>, s: int, e: string)
    requires docs != []
    ensures SomeHasKey(docs, s, e) <==> SomeHasKey(docs[..|docs| - 1], s, e) || HasKey(docs[|docs| - 1], s, e)
  {
    var init := docs[..|docs| - 1];
    if SomeHasKey(docs, s, e) && !HasKey(docs[|docs| - 1], s, e) {
      var i :| 0 <= i < |docs| && HasKey(docs[i], s, e);
      assert init[i] == docs[i];
    }
    if SomeHasKey(init, s, e) {
      var i :| 0 <= i < |init| && HasKey(init[i], s, e);
      assert init[i] == docs[i];
    }
  }

  lemma SaveOwnContent(st: StoreState, doc: EpisodeDocument)
    ensures st.AfterSave(doc).HasEpisode(doc.seasonNumber, doc.episodeNumber)
    ensures st.AfterSave(doc).content[doc.seasonNumber][doc.episodeNumber] == ContentPart(doc)
  {
  }

  lemma SaveOtherContent(st: StoreState, doc: EpisodeDocument, s: int, e: string)
    requires !HasKey(doc, s, e)
    ensures st.AfterSave(doc).HasEpisode(s, e) == st.HasEpisode(s, e)
    ensures st.HasEpisode(s, e) ==> st.AfterSave(doc).content[s][e] == st.content[s][e]
  {
  }

  /** After saving `docs`, an episode has content exactly when it had
      before or one of the documents has its key. */
  lemma {:induction false} SaveAllHas(st: StoreState, docs: seq<EpisodeDocument>, s: int, e: string)
    ensures st.SaveAll(docs).HasEpisode(s, e) <==> st.HasEpisode(s, e) || SomeHasKey(docs, s, e)
    decreases |docs|
  {
    if docs != [] {
      var init, last := docs[..|docs| - 1], docs[|docs| - 1];
      var before := st.SaveAll(init);
      assert st.SaveAll(docs) == before.AfterSave(last);
      SaveAllHas(st, init, s, e);
      AfterSaveHas(before, last, s, e);
      SomeHasKeySnoc(docs, s, e);
    }
  }

  /** ... and its content is that of the last document with its key. */
  lemma {:induction false} SaveAllLastWriter(st: StoreState, docs: seq<EpisodeDocument>, i: nat)
    requires i < |docs|
    requires forall j :: i < j < |docs| ==> !HasKey(docs[j], docs[i].seasonNumber, docs[i].episodeNumber)
    ensures st.SaveAll(docs).HasEpisode(docs[i].seasonNumber, docs[i].episodeNumber)
    ensures st.SaveAll(docs).content[docs[i].seasonNumber][docs[i].episodeNumber] == ContentPart(docs[i])
    decreases |docs|
  {
    var init, last := docs[..|docs| - 1], docs[|docs| - 1];
    var before := st.SaveAll(init);
    var s, e := docs[i].seasonNumber, docs[i].episodeNumber;
    if i == |docs| - 1 {
      SaveOwnContent(before, last);
    } else {
      assert init[i] == docs[i];
      assert forall j :: i < j < |init| ==> init[j] == docs[j];
      SaveAllLastWriter(st, init, i);
      assert !HasKey(last, s, e);
      SaveOtherContent(before, last, s, e);
    }
  }

  /** Saving keeps the store consistent whatever the documents. */
  lemma {:induction false} SaveAllPreservesConsistency(st: StoreState, docs: seq<EpisodeDocument>)
    requires st.Consistent()
    ensures st.SaveAll(docs).Consistent()
    decreases |docs|
  {
    if docs != [] {
      SaveAllPreservesConsistency(st, docs[..|docs| - 1]);
      SavePreservesConsistency(st.SaveAll(docs[..|docs| - 1]), docs[|docs| - 1]);
    }
  }

  // ---------------------------------------------------------------------------
  // Saving the same documents twice

  /** Season `s` of a partition, `{}` when its file does not exist. */
  function SeasonOf(p: Partition, s: int): map<string, Record>
  {
    if s in p then p[s] else map[]
  }

  /** Two partitions that are equal except, possibly, at episode `e` of
      season `s` (an absent season counting as an empty one). */
  ghost predicate AgreeOff(a: Partition, b: Partition, s: int, e: string)
  {
    && (forall t :: t != s ==> (t in a <==> t in b))
    && (forall t :: t != s && t in a ==> a[t] == b[t])
    && (forall k :: k != e ==> (k in SeasonOf(a, s) <==> k in SeasonOf(b, s)))
    && (forall k :: k != e && k in SeasonOf(a, s) ==> SeasonOf(a, s)[k] == SeasonOf(b, s)[k])
  }

  /** Two states that differ at most where `doc` is about to write: its
      content entry, and its embeddings entry when it carries an embedding. */
  ghost predicate Shadowed(x: StoreState, y: StoreState, doc: EpisodeDocument)
  {
    && AgreeOff(x.content, y.content, doc.seasonNumber, doc.episodeNumber)
    && if EmbeddingPart(doc) == map[] then x.embeddings == y.embeddings
       else AgreeOff(x.embeddings, y.embeddings, doc.seasonNumber, doc.episodeNumber)
  }

  /** A write of one entry keeps two partitions agreeing off `(s, e)`. */
  lemma AgreeOffWrite(a: Partition, b: Partition, s: int, e: string, s2: int, e2: string, r: Record)
    requires AgreeOff(a, b, s, e)
    ensures AgreeOff(a[s2 := SeasonOf(a, s2)[e2 := r]], b[s2 := SeasonOf(b, s2)[e2 := r]], s, e)
  {
    if s2 != s {
      AgreeOffWriteOther(a, b, s, e, s2, e2, r);
    } else {
      AgreeOffWriteSame(a, b, s, e, e2, r);
    }
  }

  lemma AgreeOffWriteOther(a: Partition, b: Partition, s: int, e: string, s2: int, e2: string, r: Record)
    requires AgreeOff(a, b, s, e) && s2 != s
    ensures AgreeOff(a[s2 := SeasonOf(a, s2)[e2 := r]], b[s2 := SeasonOf(b, s2)[e2 := r]], s, e)
  {
    var a', b' := a[s2 := SeasonOf(a, s2)[e2 := r]], b[s2 := SeasonOf(b, s2)[e2 := r]];
    assert SeasonOf(a, s2) == SeasonOf(b, s2);
    assert SeasonOf(a', s) == SeasonOf(a, s) && SeasonOf(b', s) == SeasonOf(b, s);
  }

  lemma AgreeOffWriteSame(a: Partition, b: Partition, s: int, e: string, e2: string, r: Record)
    requires AgreeOff(a, b, s, e)
    ensures AgreeOff(a[s := SeasonOf(a, s)[e2 := r]], b[s := SeasonOf(b, s)[e2 := r]], s, e)
  {
    var a', b' := a[s := SeasonOf(a, s)[e2 := r]], b[s := SeasonOf(b, s)[e2 := r]];
    assert SeasonOf(a', s) == SeasonOf(a, s)[e2 := r] && SeasonOf(b', s) == SeasonOf(b, s)[e2 := r];
  }

  /** A write at `(s, e)` itself makes two partitions that agree off
      `(s, e)` equal. */
  lemma AgreeOffClose(a: Partition, b: Partition, s: int, e: string, r: Record)
    requires AgreeOff(a, b, s, e)
    ensures a[s := SeasonOf(a, s)[e := r]] == b[s := SeasonOf(b, s)[e := r]]
  {
    var ma, mb := SeasonOf(a, s)[e := r], SeasonOf(b, s)[e := r];
    assert forall k :: k in ma <==> k in mb;
    assert forall k :: k in ma ==> ma[k] == mb[k];
    assert ma == mb;
    var a', b' := a[s := ma], b[s := mb];
    assert forall t :: t in a' <==> t in b';
    assert forall t :: t in a' ==> a'[t] == b'[t];
  }

  /** A write at `(s, e)` changes a partition only there. */
  lemma AgreeOffOwnWrite(a: Partition, s: int, e: string, r: Record)
    ensures AgreeOff(a[s := SeasonOf(a, s)[e := r]], a, s, e)
  {
  }

  /** `save_episode(doc)` writes exactly where `Shadowed` lets states differ. */
  lemma ShadowedBySave(st: StoreState, doc: EpisodeDocument)
    ensures Shadowed(st.AfterSave(doc), st, doc)
  {
    var s, e := doc.seasonNumber, doc.episodeNumber;
    AfterSaveWrites(st, doc);
    AgreeOffOwnWrite(st.content, s, e, ContentPart(doc));
    if EmbeddingPart(doc) != map[] {
      AgreeOffOwnWrite(st.embeddings, s, e, EmbeddingPart(doc));
    }
  }

  /** `save_episode(doc)` as two writes, one per partition. */
  lemma AfterSaveWrites(st: StoreState, doc: EpisodeDocument)
    ensures var s, e := doc.seasonNumber, doc.episodeNumber;
      && st.AfterSave(doc).content == st.content[s := SeasonOf(st.content, s)[e := ContentPart(doc)]]
      && st.AfterSave(doc).embeddings ==
           if EmbeddingPart(doc) == map[] then st.embeddings
           else st.embeddings[s := SeasonOf(st.embeddings, s)[e := EmbeddingPart(doc)]]
  {
  }

  /** Any later save keeps two states shadowed. */
  lemma ShadowedStep(x: StoreState, y: StoreState, doc: EpisodeDocument, next: EpisodeDocument)
    requires Shadowed(x, y, doc)
    ensures Shadowed(x.AfterSave(next), y.AfterSave(next), doc)
  {
    var s, e := doc.seasonNumber, doc.episodeNumber;
    var s2, e2 := next.seasonNumber, next.episodeNumber;
    AfterSaveWrites(x, next);
    AfterSaveWrites(y, next);
    AgreeOffWrite(x.content, y.content, s, e, s2, e2, ContentPart(next));
    if EmbeddingPart(doc) != map[] && EmbeddingPart(next) != map[] {
      AgreeOffWrite(x.embeddings, y.embeddings, s, e, s2, e2, EmbeddingPart(next));
    }
  }

  lemma {:induction false} ShadowedSaveAll(x: StoreState, y: StoreState, doc: EpisodeDocument, docs: seq<EpisodeDocument>)
    requires Shadowed(x, y, doc)
    ensures Shadowed(x.SaveAll(docs), y.SaveAll(docs), doc)
    decreases |docs|
  {
    if docs != [] {
      ShadowedSaveAll(x, y, doc, docs[..|docs| - 1]);
      ShadowedStep(x.SaveAll(docs[..|docs| - 1]), y.SaveAll(docs[..|docs| - 1]), doc, docs[|docs| - 1]);
    }
  }

  /** Saving `doc` makes two shadowed states equal. */
  lemma ShadowedClose(x: StoreState, y: StoreState, doc: EpisodeDocument)
    requires Shadowed(x, y, doc)
    ensures x.AfterSave(doc) == y.AfterSave(doc)
  {
    var s, e := doc.seasonNumber, doc.episodeNumber;
    AfterSaveWrites(x, doc);
    AfterSaveWrites(y, doc);
    AgreeOffClose(x.content, y.content, s, e, ContentPart(doc));
    if EmbeddingPart(doc) != map[] {
      AgreeOffClose(x.embeddings, y.embeddings, s, e, EmbeddingPart(doc));
    }
  }

  /** A save that the same document saves over again later leaves no
      trace: only the last save of a key decides its entries. */
  lemma SaveOverwritten(st: StoreState, doc: EpisodeDocument, docs: seq<EpisodeDocument>)
    ensures st.AfterSave(doc).SaveAll(docs).AfterSave(doc) == st.SaveAll(docs).AfterSave(doc)
  {
    ShadowedBySave(st, doc);
    ShadowedSaveAll(st.AfterSave(doc), st, doc, docs);
    ShadowedClose(st.AfterSave(doc).SaveAll(docs), st.SaveAll(docs), doc);
  }

  /** Saving the same documents a second time changes nothing. */
  lemma {:induction false} SaveAllIdempotent(st: StoreState, docs: seq<EpisodeDocument>)
    ensures st.SaveAll(docs).SaveAll(docs) == st.SaveAll(docs)
    decreases |docs|
  {
    if docs != [] {
      var init, last := docs[..|docs| - 1], docs[|docs| - 1];
      var before := st.SaveAll(init);
      calc {
        st.SaveAll(docs).SaveAll(docs);
        before.AfterSave(last).SaveAll(init).AfterSave(last);
        { SaveOverwritten(before, last, init); }
        before.SaveAll(init).AfterSave(last);
        { SaveAllIdempotent(st, init); }
        before.AfterSave(last);
      }
    }
  }

  // ---------------------------------------------------------------------------
  // import_from_json: field mapping

  /** Why an import stops. */
  datatype ImportError =
    | BadSeasonKey(keyError: KeyError)
    | MissingKey(key: string)
    | EpisodeNumberNotString(value: Json)

  /** The key of the raw record each field is imported from. */
  function SourceKey(f: Field): string
    requires f != SeasonNumber
  {
    match f
    case EpisodeNumber => "episode_number"
    case Title => "episode_title"
    case Airdate => "episode_airdate"
    case Summary => "episode_summary"
    case Synopsis => "episode_synopsis"
    case Quotes => "episode_quotes"
    case Trivia => "episode_trivia"
    case Director => "director"
    case Writer => "writer"
    case ProductionCode => "production_code"
    case UsViewersMillions => "us_viewers_millions"
    case OriginalAirDate => "original_air_date"
    case FilmingLocation => "filming_location"
    case Network => "network"
    case RunningTime => "running_time"
    case Budget => "budget"
    case MainCast => "cast_main_cast"
    case GuestStars => "cast_guest_stars"
    case RecurringCharacters => "cast_recurring_characters"
    case FirstAppearances => "cast_first_appearances"
    case LastAppearances => "cast_last_appearances"
    case CharactersIntroduced => "characters_introduced"
    case CharactersMentioned => "characters_mentioned"
    case CharactersDied => "characters_died"
    case ContinuityNotes => "continuity"
    case CulturalReferences => "cultural_references"
    case Music => "music"
    case MythologyReferences => "mythology_references"
    case Prophecies => "prophecies"
    case ArcConnections => "arc_connections"
    case Awards => "awards"
    case DeathCount => "death_count"
    case BodyCount => "body_count"
    case SummaryEmbedding => "summary_embedding"
    case SynopsisEmbedding => "synopsis_embedding"
    case QuotesEmbedding => "quotes_embedding"
  }

  /** The `EpisodeDocument` built from one raw record of season `season`:
      the conversion fails on a missing required key. */
  function ToDocument(season: int, raw: Object): Result<EpisodeDocument, ImportError>
  {
    if "episode_number" !in raw then Err(MissingKey("episode_number"))
    else if !raw["episode_number"].JString? then Err(EpisodeNumberNotString(raw["episode_number"]))
    else if "episode_title" !in raw then Err(MissingKey("episode_title"))
    else if "episode_airdate" !in raw then Err(MissingKey("episode_airdate"))
    else Ok(BuildDocument(season, raw))
  }

  /** The document of a record that has the required keys. The record's own
      `episode_number`, not its outer key, becomes the episode key. */
  function BuildDocument(season: int, raw: Object): EpisodeDocument
    requires "episode_number" in raw && raw["episode_number"].JString?
    requires "episode_title" in raw && "episode_airdate" in raw
  {
    EpisodeDocument(
      seasonNumber := season,
      episodeNumber := raw["episode_number"].s,
      title := raw["episode_title"],
      airdate := raw["episode_airdate"],
      summary := GetOr(raw, "episode_summary", JList([])),
      synopsis := Get(raw, "episode_synopsis"),
      quotes := Get(raw, "episode_quotes"),
      trivia := Get(raw, "episode_trivia"),
      director := Get(raw, "director"),
      writer := Get(raw, "writer"),
      productionCode := Get(raw, "production_code"),
      usViewersMillions := Get(raw, "us_viewers_millions"),
      originalAirDate := Get(raw, "original_air_date"),
      filmingLocation := Get(raw, "filming_location"),
      network := Get(raw, "network"),
      runningTime := Get(raw, "running_time"),
      budget := Get(raw, "budget"),
      mainCast := Get(raw, "cast_main_cast"),
      guestStars := Get(raw, "cast_guest_stars"),
      recurringCharacters := Get(raw, "cast_recurring_characters"),
      firstAppearances := Get(raw, "cast_first_appearances"),
      lastAppearances := Get(raw, "cast_last_appearances"),
      charactersIntroduced := Get(raw, "characters_introduced"),
      charactersMentioned := Get(raw, "characters_mentioned"),
      charactersDied := Get(raw, "characters_died"),
      continuityNotes := Get(raw, "continuity"),
      culturalReferences := Get(raw, "cultural_references"),
      music := Get(raw, "music"),
      mythologyReferences := Get(raw, "mythology_references"),
      prophecies := Get(raw, "prophecies"),
      arcConnections := Get(raw, "arc_connections"),
      awards := Get(raw, "awards"),
      deathCount := Get(raw, "death_count"),
      bodyCount := Get(raw, "body_count"),
      summaryEmbedding := Get(raw, "summary_embedding"),
      synopsisEmbedding := Get(raw, "synopsis_embedding"),
      quotesEmbedding := Get(raw, "quotes_embedding"))
  }

  /** The conversion fails exactly when a required key is missing (or the
      episode number is not a string); otherwise the document has the season
      it was given, the record's own `episode_number`, `summary` defaulting
      to `[]`, and every other field read from its source key. */
  lemma ToDocumentSpec(season: int, raw: Object)
    ensures var r := ToDocument(season, raw);
      && (r.Err? <==> "episode_number" !in raw || !raw["episode_number"].JString?
                      || "episode_title" !in raw || "episode_airdate" !in raw)
      && ("episode_number" !in raw ==> r == Err(MissingKey("episode_number")))
      && (r.Ok? ==>
            && r.value.seasonNumber == season
            && raw["episode_number"] == JString(r.value.episodeNumber)
            && r.value.summary == GetOr(raw, "episode_summary", JList([]))
            && forall f :: f != SeasonNumber && f != EpisodeNumber && f != Summary ==> Value(r.value, f) == Get(raw, SourceKey(f)))
  {
  }

  // ---------------------------------------------------------------------------
  // import_from_json: the order of saves

  /** The documents an import saves, in order, and the error that stops it. */
  datatype Plan = Plan(docs: seq<EpisodeDocument>, error: Option<ImportError>)

  /** The records of one season, converted in order until the first one
      that fails. */
  function PlanSeason(season: int, eps: RawSeason): Plan
  {
    if eps == [] then Plan([], None)
    else
      var init := eps[..|eps| - 1];
      var p := PlanSeason(season, init);
      if p.error.Some? then p
      else match ToDocument(season, eps[|eps| - 1].1)
        case Err(e) => Plan(p.docs, Some(e))
        case Ok(doc) => Plan(p.docs + [doc], None)
  }

  /** `import_from_json`'s loops: seasons in order, each season key parsed
      first, then its records; the first failure stops the import. */
  function ImportPlan(data: RawCorpus): Plan
  {
    if data == [] then Plan([], None)
    else
      var init := data[..|data| - 1];
      var p := ImportPlan(init);
      if p.error.Some? then p
      else match SeasonNumberOf(data[|data| - 1].0)
        case Err(k) => Plan(p.docs, Some(BadSeasonKey(k)))
        case Ok(n) =>
          var q := PlanSeason(n, data[|data| - 1].1);
          Plan(p.docs + q.docs, q.error)
  }

  /** A season's records are converted in order; the first that fails stops
      the season, and every record before it was converted. */
  lemma {:induction false} PlanSeasonSpec(season: int, eps: RawSeason)
    ensures var p := PlanSeason(season, eps);
      && (p.error.None? ==> |p.docs| == |eps|)
      && (p.error.Some? ==> |p.docs| < |eps| && ToDocument(season, eps[|p.docs|].1) == Err(p.error.value))
      && forall j :: 0 <= j < |p.docs| ==> ToDocument(season, eps[j].1) == Ok(p.docs[j])
    decreases |eps|
  {
    if eps != [] {
      var init := eps[..|eps| - 1];
      PlanSeasonSpec(season, init);
      assert forall j :: 0 <= j < |init| ==> init[j] == eps[j];
    }
  }

  /** A successful import succeeded on every prefix and parsed the last
      season key. */
  lemma ImportPlanLast(data: RawCorpus)
    requires data != [] && ImportPlan(data).error.None?
    ensures ImportPlan(data[..|data| - 1]).error.None?
    ensures SeasonNumberOf(data[|data| - 1].0).Ok?
  {
  }

  /** A successful import parsed every season key. */
  lemma {:induction false} ImportPlanKeys(data: RawCorpus, i: nat)
    requires i < |data| && ImportPlan(data).error.None?
    ensures SeasonNumberOf(data[i].0).Ok?
    decreases |data|
  {
    ImportPlanLast(data);
    if i < |data| - 1 {
      var init := data[..|data| - 1];
      assert init[i] == data[i];
      ImportPlanKeys(init, i);
    }
  }

  /** One more season: its key is parsed and, if that works, its records
      are planned after the documents so far. */
  lemma ImportPlanStep(data: RawCorpus, i: nat)
    requires i < |data|
    requires ImportPlan(data[..i]).error.None?
    ensures ImportPlan(data[..i + 1])
      == match SeasonNumberOf(data[i].0)
         case Err(k) => Plan(ImportPlan(data[..i]).docs, Some(BadSeasonKey(k)))
         case Ok(n) => Plan(ImportPlan(data[..i]).docs + PlanSeason(n, data[i].1).docs, PlanSeason(n, data[i].1).error)
  {
    assert data[..i + 1][..i] == data[..i];
  }

  /** One more record of a season: either it converts and is appended, or
      its error stops the season. */
  lemma PlanSeasonStep(season: int, eps: RawSeason, j: nat)
    requires j < |eps|
    requires PlanSeason(season, eps[..j]).error.None?
    ensures var r := ToDocument(season, eps[j].1);
      PlanSeason(season, eps[..j + 1])
      == if r.Ok? then Plan(PlanSeason(season, eps[..j]).docs + [r.value], None)
         else Plan(PlanSeason(season, eps[..j]).docs, Some(r.error))
  {
    assert eps[..j + 1][..j] == eps[..j];
  }

  /** Once a prefix of a season fails, later records change nothing. */
  lemma {:induction false} PlanSeasonStops(season: int, eps: RawSeason, j: nat, k: nat)
    requires j <= k <= |eps|
    requires PlanSeason(season, eps[..j]).error.Some?
    ensures PlanSeason(season, eps[..k]) == PlanSeason(season, eps[..j])
    decreases k
  {
    if k > j {
      PlanSeasonStops(season, eps, j, k - 1);
      assert eps[..k][..k - 1] == eps[..k - 1];
    }
  }

  /** Once a prefix of the data fails, later seasons change nothing. */
  lemma {:induction false} ImportPlanStops(data: RawCorpus, i: nat, k: nat)
    requires i <= k <= |data|
    requires ImportPlan(data[..i]).error.Some?
    ensures ImportPlan(data[..k]) == ImportPlan(data[..i])
    decreases k
  {
    if k > i {
      ImportPlanStops(data, i, k - 1);
      assert data[..k][..k - 1] == data[..k - 1];
    }
  }

  /** A successful import converts every raw record; the converted document
      is among those saved. */
  lemma {:induction false} ImportPlanCovers(data: RawCorpus, i: nat, j: nat)
    requires i < |data| && j < |data[i].1|
    requires ImportPlan(data).error.None?
    ensures SeasonNumberOf(data[i].0).Ok?
    ensures ToDocument(SeasonNumberOf(data[i].0).value, data[i].1[j].1).Ok?
    ensures ToDocument(SeasonNumberOf(data[i].0).value, data[i].1[j].1).value in ImportPlan(data).docs
    decreases |data|
  {
    ImportPlanKeys(data, i);
    var init := data[..|data| - 1];
    var n := SeasonNumberOf(data[|data| - 1].0).value;
    assert ImportPlan(data).docs == ImportPlan(init).docs + PlanSeason(n, data[|data| - 1].1).docs;
    if i < |data| - 1 {
      assert init[i] == data[i];
      ImportPlanCovers(init, i, j);
    } else {
      var q := PlanSeason(n, data[i].1);
      PlanSeasonSpec(n, data[i].1);
      assert ToDocument(n, data[i].1[j].1) == Ok(q.docs[j]);
    }
  }

  /** So after a successful import every raw record can be read back by
      its season number and its own `episode_number`. */
  lemma ImportSavesEveryRecord(st: StoreState, data: RawCorpus, i: nat, j: nat)
    requires i < |data| && j < |data[i].1|
    requires ImportPlan(data).error.None?
    ensures SeasonNumberOf(data[i].0).Ok?
    ensures "episode_number" in data[i].1[j].1 && data[i].1[j].1["episode_number"].JString?
    ensures st.SaveAll(ImportPlan(data).docs).Episode(SeasonNumberOf(data[i].0).value, data[i].1[j].1["episode_number"].s).Some?
  {
    ImportPlanCovers(data, i, j);
    var docs := ImportPlan(data).docs;
    var n, raw := SeasonNumberOf(data[i].0).value, data[i].1[j].1;
    var doc := ToDocument(n, raw).value;
    assert doc == BuildDocument(n, raw);
    var k :| 0 <= k < |docs| && docs[k] == doc;
    assert HasKey(docs[k], n, raw["episode_number"].s);
    SaveAllHas(st, docs, n, raw["episode_number"].s);
  }

  // ---------------------------------------------------------------------------
  // The store object

  /** The embedding keys `save_episode` has popped after `k` turns of its loop. */
  function Popped(k: nat): set<Field>
    requires k <= |EmbeddingKeys|
  {
    set i | 0 <= i < k :: EmbeddingKeys[i]
  }

  lemma PoppedAll()
    ensures Popped(|EmbeddingKeys|) == EmbeddingFields
  {
    assert EmbeddingKeys[0] == SummaryEmbedding && EmbeddingKeys[1] == SynopsisEmbedding
           && EmbeddingKeys[2] == QuotesEmbedding;
    assert SummaryEmbedding in Popped(3) && SynopsisEmbedding in Popped(3) && QuotesEmbedding in Popped(3);
  }

  lemma DistinctAppend(a: seq<SearchHit>, b: seq<SearchHit>)
    requires DistinctEpisodes(a) && DistinctEpisodes(b)
    requires forall x, y :: x in a && y in b ==> x.season != y.season
    ensures DistinctEpisodes(a + b)
  {
    forall i, j | 0 <= i < j < |a + b|
      ensures (a + b)[i].season != (a + b)[j].season || (a + b)[i].episode != (a + b)[j].episode
    {
      if i < |a| && j >= |a| {
        assert (a + b)[i] in a && (a + b)[j] in b;
      } else if i >= |a| {
        assert (a + b)[i] == b[i - |a|] && (a + b)[j] == b[j - |a|];
      }
    }
  }

  /** What the ranking step of `search_episodes` promises about `out`. */
  lemma RankedHits(st: StoreState, similarity: Json -> real, hits: seq<SearchHit>, limit: int)
    requires forall h :: h in hits <==> st.IsHit(h, similarity)
    ensures var out := PyPrefix(StableSort(hits, NegatedScore), limit);
      && (forall h :: h in out ==> st.IsHit(h, similarity))
      && (forall i, j :: 0 <= i < j < |out| ==> out[i].score >= out[j].score)
      && (forall h, g :: h in out && st.IsHit(g, similarity) && g !in out ==> g.score <= h.score)
  {
    SortedPrefixTop(hits, NegatedScore, limit);
    var out := PyPrefix(StableSort(hits, NegatedScore), limit);
    forall i, j | 0 <= i < j < |out| ensures out[i].score >= out[j].score {
      assert NegatedScore(out[i]) <= NegatedScore(out[j]);
    }
    forall h, g | h in out && st.IsHit(g, similarity) && g !in out ensures g.score <= h.score {
      assert g in hits;
      assert NegatedScore(h) <= NegatedScore(g);
    }
  }

  lemma AppendSnoc<T>(a: seq<T>, b: seq<T>, x: T)
    ensures a + (b + [x]) == (a + b) + [x]
  {
  }

  lemma NonEmptyHasElement(r: set<int>)
    requires r != {}
    ensures exists x :: x in r
  {
    if forall x :: x !in r {
      assert false;
    }
  }

  /** `save_episode`'s loop: each embedding key present in `d` is popped
      out of it into a record of its own. */
  method PopEmbeddings(d: Record) returns (rest: Record, popped: Record)
    ensures rest == d - EmbeddingFields
    ensures popped == Restrict(d, EmbeddingFields)
  {
    rest, popped := d, map[];
    for k := 0 to |EmbeddingKeys|
      invariant rest == d - Popped(k)
      invariant popped == Restrict(d, Popped(k))
    {
      var key := EmbeddingKeys[k];
      assert Popped(k + 1) == Popped(k) + {key};
      if key in rest {
        popped := popped[key := rest[key]];
        rest := rest - {key};
      }
    }
    PoppedAll();
  }

  class BuffyDocumentStore {
    /** `episodes/season_{n}.json` for each season n. */
    var content: Partition
    /** `embeddings/season_{n}_embeddings.json` for each season n. */
    var embeddings: Partition
    /** The snapshots taken by `backup` through this store, oldest first. */
    var backups: seq<StoreState>

    function State(): StoreState
      reads this
    {
      StoreState(content, embeddings)
    }

    /** A store over the directories as they are found: `initial` is what
        their files hold (`Empty` when they are new). The directories are
        created if missing and nothing in them is changed. */
    constructor(initial: StoreState)
      ensures State() == initial && backups == []
    {
      content := initial.content;
      embeddings := initial.embeddings;
      backups := [];
    }

    /** `save_episode`: upsert the content record and, when the document
        carries an embedding, the embeddings record. */
    method SaveEpisode(doc: EpisodeDocument)
      modifies this
      ensures State() == old(State()).AfterSave(doc)
      ensures backups == old(backups)
    {
      var season, episode := doc.seasonNumber, doc.episodeNumber;
      var seasonData: map<string, Record> := map[];
      if season in content {
        seasonData := content[season];
      }
      var embeddingsData: map<string, Record> := map[];
      if season in embeddings {
        embeddingsData := embeddings[season];
      }
      var episodeDict, episodeEmbeddings := PopEmbeddings(ToDict(doc));
      seasonData := seasonData[episode := episodeDict];
      content := content[season := seasonData];
      if episodeEmbeddings != map[] {
        embeddingsData := embeddingsData[episode := episodeEmbeddings];
        embeddings := embeddings[season := embeddingsData];
      }
    }

    /** `get_episode`: the content record updated with the embeddings
        record, or `None` when there is no content for the key. */
    method GetEpisode(season: int, episode: string) returns (r: Option<Record>)
      ensures r == State().Episode(season, episode)
    {
      if season !in content {
        return None;
      }
      var seasonData := content[season];
      if episode !in seasonData {
        return None;
      }
      var episodeData := seasonData[episode];
      if season in embeddings {
        var embeddingsData := embeddings[season];
        if episode in embeddingsData {
          episodeData := episodeData + embeddingsData[episode];
        }
      }
      return Some(episodeData);
    }

    /** `get_season`: the season's content partition, `{}` when absent. */
    method GetSeason(season: int) returns (r: map<string, Record>)
      ensures r == State().Season(season)
    {
      if season !in content {
        return map[];
      }
      return content[season];
    }

    /** `search_episodes`: every episode whose embeddings record has a
        `summary_embedding`, scored by `similarity` (which stands for the
        cosine similarity with the encoded query), sorted by descending score
        and cut to `limit`. Seasons and episodes are visited in an unspecified
        order; `hits` is the list before sorting. */
    method SearchEpisodes(similarity: Json -> real, limit: int := 5) returns (out: seq<SearchHit>, ghost hits: seq<SearchHit>)
      ensures forall h :: h in hits <==> State().IsHit(h, similarity)
      ensures DistinctEpisodes(hits)
      ensures out == PyPrefix(StableSort(hits, NegatedScore), limit)
      ensures forall h :: h in out ==> State().IsHit(h, similarity)
      ensures forall i, j :: 0 <= i < j < |out| ==> out[i].score >= out[j].score
      ensures limit >= 0 ==> |out| <= limit
      ensures forall h, g :: h in out && State().IsHit(g, similarity) && g !in out ==> g.score <= h.score
    {
      var results: seq<SearchHit> := [];
      var remaining := content.Keys;
      while remaining != {}
        invariant remaining <= content.Keys
        invariant forall h :: h in results <==> State().IsHit(h, similarity) && h.season !in remaining
        invariant DistinctEpisodes(results)
        decreases |remaining|
      {
        NonEmptyHasElement(remaining);
        var s :| s in remaining;
        SeasonKeyRoundTrip(s);
        var seasonNum := SeasonNumberOf(SeasonKey(s)).value;
        var found := ScoreSeason(seasonNum, similarity);
        DistinctAppend(results, found);
        results := results + found;
        remaining := remaining - {s};
      }
      hits := results;
      results := StableSort(results, NegatedScore);
      out := PyPrefix(results, limit);
      RankedHits(State(), similarity, hits, limit);
    }

    /** The body of `search_episodes`' loop over the episodes of one season
        file: the hits of that season, in an unspecified order. */
    method ScoreSeason(season: int, similarity: Json -> real) returns (found: seq<SearchHit>)
      requires season in content
      ensures forall h :: h in found <==> State().IsHit(h, similarity) && h.season == season
      ensures DistinctEpisodes(found)
    {
      var seasonData := content[season];
      var embeddingsData: map<string, Record> := map[];
      if season in embeddings {
        embeddingsData := embeddings[season];
      }
      found := [];
      var episodes := seasonData.Keys;
      while episodes != {}
        invariant episodes <= seasonData.Keys
        invariant forall h :: h in found <==> State().IsHit(h, similarity) && h.season == season && h.episode !in episodes
        invariant DistinctEpisodes(found)
        decreases |episodes|
      {
        var e :| e in episodes;
        var entry: Record := map[];
        if e in embeddingsData {
          entry := embeddingsData[e];
        }
        if SummaryEmbedding in entry {
          var hit := SearchHit(season, e, seasonData[e], similarity(entry[SummaryEmbedding]));
          found := found + [hit];
        }
        episodes := episodes - {e};
      }
    }

    /** `backup`: a snapshot of both partitions. */
    method Backup()
      modifies this
      ensures State() == old(State())
      ensures backups == old(backups) + [old(State())]
    {
      backups := backups + [State()];
    }

    /** `import_from_json`: convert and save every record, season by season,
        then take a backup. A failure stops the import where it happens: the
        records saved before it stay saved and no backup is taken. */
    method ImportFromJson(data: RawCorpus) returns (r: Outcome<ImportError>)
      modifies this
      ensures State() == old(State()).SaveAll(ImportPlan(data).docs)
      ensures ImportPlan(data).error.Some? ==> r == Fail(ImportPlan(data).error.value) && backups == old(backups)
      ensures ImportPlan(data).error.None? ==> r == Pass && backups == old(backups) + [State()]
    {
      ghost var start := State();
      assert data[..0] == [];
      for i := 0 to |data|
        invariant ImportPlan(data[..i]).error.None?
        invariant State() == start.SaveAll(ImportPlan(data[..i]).docs)
        invariant backups == old(backups)
      {
        ImportPlanStep(data, i);
        ghost var done := ImportPlan(data[..i]).docs;
        var parsed := SeasonNumberOf(data[i].0);
        if parsed.Err? {
          ImportPlanStops(data, i + 1, |data|);
          assert data[..|data|] == data;
          return Fail(BadSeasonKey(parsed.error));
        }
        var failure := ImportSeason(parsed.value, data[i].1, start, done);
        if failure.Some? {
          ImportPlanStops(data, i + 1, |data|);
          assert data[..|data|] == data;
          return Fail(failure.value);
        }
      }
      assert data[..|data|] == data;
      Backup();
      return Pass;
    }

    /** The body of `import_from_json`'s loop over the records of one season;
        `start` and `done` are the state before the import and the documents
        it has saved so far. */
    method ImportSeason(season: int, seasonData: RawSeason, ghost start: StoreState, ghost done: seq<EpisodeDocument>)
      returns (failure: Option<ImportError>)
      requires State() == start.SaveAll(done)
      modifies this
      ensures State() == start.SaveAll(done + PlanSeason(season, seasonData).docs)
      ensures failure == PlanSeason(season, seasonData).error
      ensures backups == old(backups)
    {
      ghost var saved := done;
      assert seasonData[..0] == [];
      for j := 0 to |seasonData|
        invariant PlanSeason(season, seasonData[..j]).error.None?
        invariant saved == done + PlanSeason(season, seasonData[..j]).docs
        invariant State() == start.SaveAll(saved)
        invariant backups == old(backups)
      {
        PlanSeasonStep(season, seasonData, j);
        var converted := ToDocument(season, seasonData[j].1);
        if converted.Err? {
          PlanSeasonStops(season, seasonData, j + 1, |seasonData|);
          assert seasonData[..|seasonData|] == seasonData;
          return Some(converted.error);
        }
        var doc := converted.value;
        AppendSnoc(done, PlanSeason(season, seasonData[..j]).docs, doc);
        SaveAllSnoc(start, saved, doc);
        SaveEpisode(doc);
        saved := saved + [doc];
      }
      assert seasonData[..|seasonData|] == seasonData;
      return None;
    }
  }

  /** `import_from_json` run twice on the same data: both runs end the same
      way, the second leaves the store as the first left it, and each
      successful run appends one backup of that store. */
  method ImportTwice(store: BuffyDocumentStore, data: RawCorpus)
    returns (first: Outcome<ImportError>, second: Outcome<ImportError>)
    modifies store
    ensures first == second
    ensures store.State() == old(store.State()).SaveAll(ImportPlan(data).docs)
    ensures first == Pass ==> store.backups == old(store.backups) + [store.State(), store.State()]
    ensures first.Fail? ==> store.backups == old(store.backups)
  {
    first := store.ImportFromJson(data);
    second := store.ImportFromJson(data);
    SaveAllIdempotent(old(store.State()), ImportPlan(data).docs);
  }
}
