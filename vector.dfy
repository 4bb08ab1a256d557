/** Semantic search over a table of embeddings: embed the query, try the server's own
    distance function, and fall back to ranking the fetched vectors locally. The model,
    the database and the similarity arithmetic are foreign; their answers are given as
    parameters, and what is modelled is which tier runs, what each returns, which rows
    take part in the ranking, and the error each failure becomes. */
module Vector {
  import opened Outcomes
  import opened EmbText
  import Ranking
  import Connection

  // ---------------------------------------------------------------------------
  // The embedding model

  const ModelVariable := "MARIADB_MAGICS_EMBED_MODEL"
  const DefaultModel := "paraphrase-MiniLM-L3-v2"
  const LocalProvider := "local"

  /** The model name, read once from the environment with a default. */
  function ModelName(env: map<string, string>): (name: string)
    ensures ModelVariable in env ==> name == env[ModelVariable]
    ensures ModelVariable !in env ==> name == DefaultModel
  {
    if ModelVariable in env then env[ModelVariable] else DefaultModel
  }

  /** A loaded sentence-embedding model. */
  class Encoder {
    const model: string

    constructor (model: string)
      ensures this.model == model
    {
      this.model := model;
    }
  }

  /** The module-level encoder slot: empty until a load succeeds, then the same
      encoder for every later call. `loads` counts the models constructed. */
  class EncoderCache {
    const model: string
    var encoder: Option<Encoder>
    ghost var loads: nat

    ghost predicate Valid()
      reads this, if encoder.Some? then {encoder.value} else {}
    {
      && loads <= 1
      && (encoder.None? <==> loads == 0)
      && (encoder.Some? ==> encoder.value.model == model)
    }

    constructor (env: map<string, string>)
      ensures Valid() && encoder.None? && loads == 0
      ensures model == ModelName(env)
    {
      model := ModelName(env);
      encoder := None;
      loads := 0;
    }

    /** `_ensure_local_encoder()`: construct the encoder while the slot is empty,
        otherwise hand back the one already held. `loadOk` says whether constructing
        the model succeeds; when it raises, the slot stays empty, so the next call
        tries again. */
    method Ensure(loadOk: bool) returns (r: Result<Encoder, EmbedError>)
      requires Valid()
      modifies this
      ensures Valid()
      ensures old(encoder).Some? ==> r == Ok(old(encoder).value) && encoder == old(encoder) && loads == old(loads)
      ensures old(encoder).None? && loadOk ==>
        r.Ok? && fresh(r.value) && r.value.model == model && encoder == Some(r.value) && loads == 1
      ensures old(encoder).None? && !loadOk ==> r == Err(LoadFailed(model)) && encoder.None? && loads == 0
    {
      if encoder.Some? {
        return Ok(encoder.value);
      }
      if !loadOk {
        return Err(LoadFailed(model));
      }
      var e := new Encoder(model);
      encoder := Some(e);
      loads := loads + 1;
      r := Ok(e);
    }
  }

  /** Why `embed_texts` raises: a provider other than the local one (a `ValueError`),
      a model that cannot be constructed, or an `encode` call that raises. The last
      two are the model library's exceptions and reach the caller as they are. */
  datatype EmbedError = UnknownProvider | LoadFailed(model: string) | EncodeFailed(message: string)

  /** What `model.encode(texts)` does for the model of the given name: the vectors, or
      the message of the exception it raises. */
  type EncodeOracle = (string, seq<string>) -> Result<seq<Vec>, string>

  /** The outcome `embed_texts` has, given whether an encoder is at hand (held already,
      or constructed now) and what the model computes. */
  function Embedding(provider: string, model: string, encoderReady: bool, encode: EncodeOracle, texts: seq<string>)
    : (r: Result<seq<Vec>, EmbedError>)
    ensures r.Ok? <==> provider == LocalProvider && encoderReady && encode(model, texts).Ok?
    ensures r.Ok? ==> r.value == encode(model, texts).value
    ensures provider != LocalProvider ==> r == Err(UnknownProvider)
    ensures provider == LocalProvider && !encoderReady ==> r == Err(LoadFailed(model))
    ensures provider == LocalProvider && encoderReady && encode(model, texts).Err? ==>
      r == Err(EncodeFailed(encode(model, texts).error))
  {
    if provider != LocalProvider then Err(UnknownProvider)
    else if !encoderReady then Err(LoadFailed(model))
    else
      match encode(model, texts)
      case Ok(vs) => Ok(vs)
      case Err(m) => Err(EncodeFailed(m))
  }

  /** `embed_texts(texts, provider)`: only the local provider loads (at most once) and
      uses the encoder; any other provider fails without touching it. A failed load
      leaves the slot empty, and a failed encode keeps the encoder. */
  method EmbedTexts(cache: EncoderCache, texts: seq<string>, provider: string, loadOk: bool, encode: EncodeOracle)
    returns (r: Result<seq<Vec>, EmbedError>)
    requires cache.Valid()
    modifies cache
    ensures cache.Valid()
    ensures r == Embedding(provider, cache.model, old(cache.encoder).Some? || loadOk, encode, texts)
    ensures provider != LocalProvider ==> cache.encoder == old(cache.encoder) && cache.loads == old(cache.loads)
    ensures provider == LocalProvider ==> (cache.encoder.Some? <==> old(cache.encoder).Some? || loadOk)
    ensures provider == LocalProvider && old(cache.encoder).Some? ==>
      cache.encoder == old(cache.encoder) && cache.loads == old(cache.loads)
  {
    if provider != LocalProvider {
      return Err(UnknownProvider);
    }
    var e := cache.Ensure(loadOk);
    if e.Err? {
      return Err(e.error);
    }
    match encode(e.value.model, texts) {
      case Ok(vs) => r := Ok(vs);
      case Err(m) => r := Err(EncodeFailed(m));
    }
  }

  // ---------------------------------------------------------------------------
  // Rows and frames

  /** A row id as the driver returns it. */
  datatype RowId = IntId(n: int) | TextId(s: string)

  /** A row of the server query: an id and its cosine distance to the query. */
  datatype ServerRow = ServerRow(id: RowId, distance: real)

  /** A server row with its `_score` column. */
  datatype ScoredRow = ScoredRow(id: RowId, distance: real, score: real)

  /** A row of the fallback fetch: an id and its embedding cell. */
  datatype FetchedRow = FetchedRow(id: RowId, emb: Cell)

  /** A row of the locally ranked result. */
  datatype Candidate = Candidate(id: RowId, score: real)

  /** The frames the search can return: the server's (scored when not empty), the
      fetched rows as they came, or the local ranking. */
  datatype Frame =
    | ServerFrame(scored: seq<ScoredRow>)
    | FetchedFrame(fetched: seq<FetchedRow>)
    | RankedFrame(ranked: seq<Candidate>)

  /** What the database does with the server query and with the fallback fetch; a
      raised exception carries its message. */
  datatype ServerReply = ServerRows(rows: seq<ServerRow>) | ServerRaised(message: string)
  datatype FetchReply = FetchRows(rows: seq<FetchedRow>) | FetchRaised(message: string)

  datatype Warning = ServerFallback(message: string) | SkippedRow(id: RowId, error: ParseError)

  /** The errors the client tier raises (each becomes the wrapped `RuntimeError`): the
      fetch failed, or the parsed vectors and the query do not form a proper matrix. */
  datatype ClientError = FetchFailed(message: string) | ShapeMismatch

  datatype SearchError =
    | EmbedFailed(embed: EmbedError)
    | NoQueryVector
    | LookupFailed(lookup: Connection.LookupError)
    | BothFailed(cause: ClientError)

  datatype SearchOutcome = SearchOutcome(result: Result<Frame, SearchError>, warnings: seq<Warning>)

  function ScoreOf(c: ScoredRow): real {
    c.score
  }

  function CandidateScore(c: Candidate): real {
    c.score
  }

  // ---------------------------------------------------------------------------
  // Server tier

  /** `_score = 1 - _distance`, row by row. */
  function Rescore(rows: seq<ServerRow>): (r: seq<ScoredRow>)
    ensures |r| == |rows|
    ensures forall k :: 0 <= k < |rows| ==>
      r[k] == ScoredRow(rows[k].id, rows[k].distance, 1.0 - rows[k].distance)
  {
    seq(|rows|, k requires 0 <= k < |rows| => ScoredRow(rows[k].id, rows[k].distance, 1.0 - rows[k].distance))
  }

  /** What a successful server query returns: an empty frame as it is; otherwise the
      rows scored and sorted by score, highest first. */
  function ServerResult(rows: seq<ServerRow>): (f: Frame)
    ensures f.ServerFrame? && |f.scored| == |rows|
  {
    if rows == [] then ServerFrame([])
    else ServerFrame(Ranking.SortDescending(Rescore(rows), ScoreOf))
  }

  /** A non-empty server answer keeps every row, adds `1 - distance` as its score and
      orders the rows by non-increasing score; closer rows come first. */
  lemma ServerResultRanks(rows: seq<ServerRow>)
    ensures ServerResult(rows).ServerFrame?
    ensures var out := ServerResult(rows).scored;
      && multiset(out) == multiset(Rescore(rows))
      && Ranking.Descending(out, ScoreOf)
      && (forall k :: 0 <= k < |out| ==> out[k].score == 1.0 - out[k].distance)
      && forall i, j :: 0 <= i < j < |out| ==> out[i].distance <= out[j].distance
  {
    var out := ServerResult(rows).scored;
    forall k | 0 <= k < |out|
      ensures out[k].score == 1.0 - out[k].distance
    {
      assert out[k] in multiset(Rescore(rows));
    }
  }

  // ---------------------------------------------------------------------------
  // Client tier: which fetched rows are ranked

  /** The rows the loop keeps (those whose cell parses to a vector), as ascending
      positions in the fetch. */
  function KeptPositions(rows: seq<FetchedRow>, p: Parsers): (r: seq<nat>)
    ensures forall k :: 0 <= k < |r| ==> r[k] < |rows| && ParseEmbText(rows[r[k]].emb, p).Parsed?
    decreases |rows|
  {
    if rows == [] then []
    else
      var n := |rows| - 1;
      var before := KeptPositions(rows[..n], p);
      if ParseEmbText(rows[n].emb, p).Parsed? then before + [n] else before
  }

  /** The rows the loop skips with a warning (those whose parse raised), ascending. */
  function FailedPositions(rows: seq<FetchedRow>, p: Parsers): (r: seq<nat>)
    ensures forall k :: 0 <= k < |r| ==> r[k] < |rows| && ParseEmbText(rows[r[k]].emb, p).Failed?
    decreases |rows|
  {
    if rows == [] then []
    else
      var n := |rows| - 1;
      var before := FailedPositions(rows[..n], p);
      if ParseEmbText(rows[n].emb, p).Failed? then before + [n] else before
  }

  /** The kept positions are ascending, so the kept ids are an order-preserving
      subsequence of the fetched ones, and every row that parses is among them. */
  lemma {:induction false} KeptPositionsInOrder(rows: seq<FetchedRow>, p: Parsers)
    ensures var r := KeptPositions(rows, p);
      && (forall i, j :: 0 <= i < j < |r| ==> r[i] < r[j])
      && forall j :: 0 <= j < |rows| && ParseEmbText(rows[j].emb, p).Parsed? ==> j in r
    decreases |rows|
  {
    if rows != [] {
      var n := |rows| - 1;
      var before := KeptPositions(rows[..n], p);
      var r := KeptPositions(rows, p);
      KeptPositionsInOrder(rows[..n], p);
      assert r == before + (if ParseEmbText(rows[n].emb, p).Parsed? then [n] else []);
      forall j | 0 <= j < n && ParseEmbText(rows[j].emb, p).Parsed?
        ensures j in r
      {
        assert rows[..n][j] == rows[j];
        assert j in before;
      }
    }
  }

  /** The failed positions are ascending, and every row whose parse raised is among
      them: each malformed row is warned about once, in fetch order. */
  lemma {:induction false} FailedPositionsInOrder(rows: seq<FetchedRow>, p: Parsers)
    ensures var r := FailedPositions(rows, p);
      && (forall i, j :: 0 <= i < j < |r| ==> r[i] < r[j])
      && forall j :: 0 <= j < |rows| && ParseEmbText(rows[j].emb, p).Failed? ==> j in r
    decreases |rows|
  {
    if rows != [] {
      var n := |rows| - 1;
      var before := FailedPositions(rows[..n], p);
      var r := FailedPositions(rows, p);
      FailedPositionsInOrder(rows[..n], p);
      assert r == before + (if ParseEmbText(rows[n].emb, p).Failed? then [n] else []);
      forall j | 0 <= j < n && ParseEmbText(rows[j].emb, p).Failed?
        ensures j in r
      {
        assert rows[..n][j] == rows[j];
        assert j in before;
      }
    }
  }

  /** One more row extends the kept or the failed positions by its own position. */
  lemma PositionsStep(rows: seq<FetchedRow>, p: Parsers, i: nat)
    requires i < |rows|
    ensures var o := ParseEmbText(rows[i].emb, p);
      && KeptPositions(rows[..i + 1], p) == KeptPositions(rows[..i], p) + (if o.Parsed? then [i] else [])
      && FailedPositions(rows[..i + 1], p) == FailedPositions(rows[..i], p) + (if o.Failed? then [i] else [])
  {
    assert rows[..i + 1][..i] == rows[..i];
  }

  /** The warnings of the skipped rows, in fetch order. */
  function SkipWarnings(rows: seq<FetchedRow>, p: Parsers): (w: seq<Warning>)
    ensures var f := FailedPositions(rows, p);
      && |w| == |f|
      && forall k :: 0 <= k < |w| ==>
        && w[k].SkippedRow? && w[k].id == rows[f[k]].id
        && ParseEmbText(rows[f[k]].emb, p) == Failed(w[k].error)
  {
    var f := FailedPositions(rows, p);
    seq(|f|, k requires 0 <= k < |f| => SkippedRow(rows[f[k]].id, ParseEmbText(rows[f[k]].emb, p).error))
  }

  /** `ids` and `embs` are the ids and vectors of the rows at `kept`, in order. */
  predicate KeptAgree(rows: seq<FetchedRow>, p: Parsers, kept: seq<nat>, ids: seq<RowId>, embs: seq<Vec>) {
    && |ids| == |kept| && |embs| == |kept|
    && forall k :: 0 <= k < |kept| ==>
      kept[k] < |rows| && ids[k] == rows[kept[k]].id && ParseEmbText(rows[kept[k]].emb, p) == Parsed(embs[k])
  }

  /** `warnings` are the skip warnings of the rows at `failed`, in order. */
  predicate WarningsAgree(rows: seq<FetchedRow>, p: Parsers, failed: seq<nat>, warnings: seq<Warning>) {
    && |warnings| == |failed|
    && forall k :: 0 <= k < |failed| ==>
      && failed[k] < |rows| && warnings[k].SkippedRow? && warnings[k].id == rows[failed[k]].id
      && ParseEmbText(rows[failed[k]].emb, p) == Failed(warnings[k].error)
  }

  lemma KeptAgreeExtend(rows: seq<FetchedRow>, p: Parsers, kept: seq<nat>, ids: seq<RowId>, embs: seq<Vec>, i: nat)
    requires KeptAgree(rows, p, kept, ids, embs)
    requires i < |rows| && ParseEmbText(rows[i].emb, p).Parsed?
    ensures KeptAgree(rows, p, kept + [i], ids + [rows[i].id], embs + [ParseEmbText(rows[i].emb, p).vec])
  {
  }

  lemma WarningsAgreeExtend(rows: seq<FetchedRow>, p: Parsers, failed: seq<nat>, warnings: seq<Warning>, i: nat)
    requires WarningsAgree(rows, p, failed, warnings)
    requires i < |rows| && ParseEmbText(rows[i].emb, p).Failed?
    ensures WarningsAgree(rows, p, failed + [i], warnings + [SkippedRow(rows[i].id, ParseEmbText(rows[i].emb, p).error)])
  {
  }

  /** The loop over the fetched rows: parse each cell, skip NULLs silently and
      malformed cells with a warning, and collect the ids and vectors of the rest. */
  method CollectParsed(rows: seq<FetchedRow>, p: Parsers)
    returns (embs: seq<Vec>, ids: seq<RowId>, warnings: seq<Warning>)
    ensures KeptAgree(rows, p, KeptPositions(rows, p), ids, embs)
    ensures warnings == SkipWarnings(rows, p)
  {
    embs, ids, warnings := [], [], [];
    ghost var kept: seq<nat> := [];
    ghost var failed: seq<nat> := [];
    var i := 0;
    while i < |rows|
      invariant 0 <= i <= |rows|
      invariant kept == KeptPositions(rows[..i], p) && failed == FailedPositions(rows[..i], p)
      invariant KeptAgree(rows, p, kept, ids, embs)
      invariant WarningsAgree(rows, p, failed, warnings)
    {
      PositionsStep(rows, p, i);
      var v := ParseEmbText(rows[i].emb, p);
      match v {
        case NoVector =>
        case Parsed(vec) =>
          KeptAgreeExtend(rows, p, kept, ids, embs, i);
          embs := embs + [vec];
          ids := ids + [rows[i].id];
          kept := kept + [i];
        case Failed(e) =>
          WarningsAgreeExtend(rows, p, failed, warnings, i);
          warnings := warnings + [SkippedRow(rows[i].id, e)];
          failed := failed + [i];
      }
      i := i + 1;
    }
    assert rows[..i] == rows;
    SkipWarningsAgree(rows, p, warnings);
  }

  /** Warnings that agree with the failed positions are the skip warnings. */
  lemma SkipWarningsAgree(rows: seq<FetchedRow>, p: Parsers, warnings: seq<Warning>)
    requires WarningsAgree(rows, p, FailedPositions(rows, p), warnings)
    ensures warnings == SkipWarnings(rows, p)
  {
  }

  /** The ids at the given positions of the fetch. */
  function IdsAt(rows: seq<FetchedRow>, positions: seq<nat>): (ids: seq<RowId>)
    requires forall k :: 0 <= k < |positions| ==> positions[k] < |rows|
    ensures |ids| == |positions|
    ensures forall k :: 0 <= k < |positions| ==> ids[k] == rows[positions[k]].id
  {
    seq(|positions|, k requires 0 <= k < |positions| => rows[positions[k]].id)
  }

  /** The vectors the kept rows parse to, in fetch order. */
  function KeptVectors(rows: seq<FetchedRow>, p: Parsers): (vs: seq<Vec>)
    ensures |vs| == |KeptPositions(rows, p)|
  {
    var kept := KeptPositions(rows, p);
    seq(|kept|, k requires 0 <= k < |kept| => ParseEmbText(rows[kept[k]].emb, p).vec)
  }

  // ---------------------------------------------------------------------------
  // Client tier: ranking

  /** `np.vstack` of the vectors and `cosine_similarity` with the query succeed only
      when every vector has the query's length and that length is not zero. */
  predicate SameShape(q: Vec, vs: seq<Vec>) {
    |q| > 0 && forall k :: 0 <= k < |vs| ==> |vs[k]| == |q|
  }

  /** The score of each kept row: the cosine similarity of the normalised query and
      vector, as the numeric library computes it. */
  type Similarity = (Vec, Vec) -> real

  function Candidates(ids: seq<RowId>, vs: seq<Vec>, q: Vec, sim: Similarity): (cs: seq<Candidate>)
    requires |ids| == |vs|
    ensures |cs| == |ids|
    ensures forall k :: 0 <= k < |cs| ==> cs[k] == Candidate(ids[k], sim(q, vs[k]))
  {
    seq(|ids|, k requires 0 <= k < |ids| => Candidate(ids[k], sim(q, vs[k])))
  }

  /** The client tier once the fetch is in: the fetch unmodified when it is empty or
      nothing in it parses, the shape error, or the top `topK` candidates. */
  function ClientTier(q: Vec, fetch: FetchReply, p: Parsers, sim: Similarity, topK: int): (o: SearchOutcome)
    ensures o.result.Err? ==> o.result.error.BothFailed?
    ensures fetch.FetchRaised? ==> o.warnings == []
    ensures fetch.FetchRows? && fetch.rows != [] ==> o.warnings == SkipWarnings(fetch.rows, p)
    ensures o.result.Ok? && o.result.value.FetchedFrame? ==> fetch == FetchRows(o.result.value.fetched)
  {
    match fetch
    case FetchRaised(m) => SearchOutcome(Err(BothFailed(FetchFailed(m))), [])
    case FetchRows(rows) =>
      if rows == [] then SearchOutcome(Ok(FetchedFrame(rows)), [])
      else
        var kept := KeptPositions(rows, p);
        var warnings := SkipWarnings(rows, p);
        if kept == [] then SearchOutcome(Ok(FetchedFrame(rows)), warnings)
        else if !SameShape(q, KeptVectors(rows, p)) then SearchOutcome(Err(BothFailed(ShapeMismatch)), warnings)
        else
          var cs := Candidates(IdsAt(rows, kept), KeptVectors(rows, p), q, sim);
          SearchOutcome(Ok(RankedFrame(Ranking.TopK(cs, CandidateScore, topK))), warnings)
  }

  /** `vector_search` given what the encoder, the registry and the database answer:
      embedding and lookup errors come first and unwrapped; a server answer ends the
      search; a server exception becomes a warning and the client tier runs. */
  function SearchSpec(embedded: Result<seq<Vec>, EmbedError>, lookup: Result<Connection.ConnectionWrapper, Connection.LookupError>,
                      server: ServerReply, fetch: FetchReply, p: Parsers, sim: Similarity, topK: int): (o: SearchOutcome)
    ensures o.result.Ok? ==> embedded.Ok? && lookup.Ok?
    ensures o.warnings != [] ==> server.ServerRaised? && o.warnings[0] == ServerFallback(server.message)
    ensures o.result.Err? && o.result.error.BothFailed? ==> server.ServerRaised?
  {
    match embedded
    case Err(e) => SearchOutcome(Err(EmbedFailed(e)), [])
    case Ok(vs) =>
      if vs == [] then SearchOutcome(Err(NoQueryVector), [])
      else
        match lookup
        case Err(e) => SearchOutcome(Err(LookupFailed(e)), [])
        case Ok(_) =>
          match server
          case ServerRows(rows) => SearchOutcome(Ok(ServerResult(rows)), [])
          case ServerRaised(m) =>
            var client := ClientTier(vs[0], fetch, p, sim, topK);
            SearchOutcome(client.result, [ServerFallback(m)] + client.warnings)
  }

  // ---------------------------------------------------------------------------
  // Properties of the tiers

  /** Failures before the tiers are reported as they are, whatever the database
      would have answered. */
  lemma EarlyErrorsUnwrapped(embedded: Result<seq<Vec>, EmbedError>, lookup: Result<Connection.ConnectionWrapper, Connection.LookupError>,
                             server: ServerReply, fetch: FetchReply, p: Parsers, sim: Similarity, topK: int)
    ensures embedded.Err? ==>
      SearchSpec(embedded, lookup, server, fetch, p, sim, topK).result == Err(EmbedFailed(embedded.error))
    ensures embedded.Ok? && embedded.value != [] && lookup.Err? ==>
      SearchSpec(embedded, lookup, server, fetch, p, sim, topK).result == Err(LookupFailed(lookup.error))
    ensures SearchSpec(embedded, lookup, server, fetch, p, sim, topK).result.Err? <==>
      || embedded.Err? || embedded.value == [] || lookup.Err?
      || (server.ServerRaised? && ClientTier(embedded.value[0], fetch, p, sim, topK).result.Err?)
  {
  }

  /** A server answer, empty or not, is the result; the client tier is not consulted
      and nothing is warned. */
  lemma ServerAnswerIsFinal(embedded: Result<seq<Vec>, EmbedError>, lookup: Result<Connection.ConnectionWrapper, Connection.LookupError>,
                            rows: seq<ServerRow>, fetch: FetchReply, p: Parsers, sim: Similarity, topK: int)
    requires embedded.Ok? && embedded.value != [] && lookup.Ok?
    ensures var o := SearchSpec(embedded, lookup, ServerRows(rows), fetch, p, sim, topK);
      && o.warnings == []
      && (rows == [] ==> o.result == Ok(ServerFrame([])))
      && (rows != [] ==> (
            && o.result.Ok? && o.result.value.ServerFrame?
            && multiset(o.result.value.scored) == multiset(Rescore(rows))
            && Ranking.Descending(o.result.value.scored, ScoreOf)))
  {
    ServerResultRanks(rows);
  }

  /** A server exception never escapes: it is warned about first, and the outcome is
      the client tier's, whatever the exception said. */
  lemma ServerFailureFallsBack(embedded: Result<seq<Vec>, EmbedError>, lookup: Result<Connection.ConnectionWrapper, Connection.LookupError>,
                               message: string, fetch: FetchReply, p: Parsers, sim: Similarity, topK: int)
    requires embedded.Ok? && embedded.value != [] && lookup.Ok?
    ensures var o := SearchSpec(embedded, lookup, ServerRaised(message), fetch, p, sim, topK);
      var client := ClientTier(embedded.value[0], fetch, p, sim, topK);
      && o.result == client.result
      && o.warnings == [ServerFallback(message)] + client.warnings
      && (o.result.Err? ==> o.result.error.BothFailed?)
  {
  }

  /** The fetch is handed back unmodified when it is empty or no row in it parses. */
  lemma NothingToRankReturnsFetch(q: Vec, rows: seq<FetchedRow>, p: Parsers, sim: Similarity, topK: int)
    requires forall j :: 0 <= j < |rows| ==> !ParseEmbText(rows[j].emb, p).Parsed?
    ensures ClientTier(q, FetchRows(rows), p, sim, topK).result == Ok(FetchedFrame(rows))
  {
    NoneKept(rows, p);
  }

  /** Nothing is kept when no row parses. */
  lemma {:induction false} NoneKept(rows: seq<FetchedRow>, p: Parsers)
    requires forall j :: 0 <= j < |rows| ==> !ParseEmbText(rows[j].emb, p).Parsed?
    ensures KeptPositions(rows, p) == []
    decreases |rows|
  {
    if rows != [] {
      var n := |rows| - 1;
      assert forall j :: 0 <= j < n ==> rows[..n][j] == rows[j];
      NoneKept(rows[..n], p);
    }
  }

  /** Every failure in the client tier is the one wrapped error. */
  lemma ClientFailuresWrapped(q: Vec, fetch: FetchReply, p: Parsers, sim: Similarity, topK: int)
    ensures var r := ClientTier(q, fetch, p, sim, topK).result;
      && (fetch.FetchRaised? ==> r == Err(BothFailed(FetchFailed(fetch.message))))
      && (r.Err? ==> r.error.BothFailed?)
  {
  }

  /** The client tier ranks exactly when the fetch has rows, some parse, and the
      shapes fit; the ranking is the top `topK` of the kept rows' candidates. */
  lemma ClientRankedWhen(q: Vec, rows: seq<FetchedRow>, p: Parsers, sim: Similarity, topK: int)
    ensures var r := ClientTier(q, FetchRows(rows), p, sim, topK).result;
      var kept := KeptPositions(rows, p);
      (r.Ok? && r.value.RankedFrame?) <==> (kept != [] && SameShape(q, KeptVectors(rows, p)))
    ensures var r := ClientTier(q, FetchRows(rows), p, sim, topK).result;
      var kept := KeptPositions(rows, p);
      r.Ok? && r.value.RankedFrame? ==>
        r.value.ranked == Ranking.TopK(Candidates(IdsAt(rows, kept), KeptVectors(rows, p), q, sim), CandidateScore, topK)
  {
    if rows == [] {
      assert KeptPositions(rows, p) == [];
    }
  }

  /** A ranked client result holds `min(topK, #parsed rows)` rows, highest score
      first, each an id of a row that parsed, scored by its similarity to the query;
      no parsed row left out scores higher than one kept. */
  lemma ClientRanking(q: Vec, rows: seq<FetchedRow>, p: Parsers, sim: Similarity, topK: int)
    requires topK >= 0
    requires ClientTier(q, FetchRows(rows), p, sim, topK).result.Ok?
    requires ClientTier(q, FetchRows(rows), p, sim, topK).result.value.RankedFrame?
    ensures var kept := KeptPositions(rows, p);
      var out := ClientTier(q, FetchRows(rows), p, sim, topK).result.value.ranked;
      var cs := Candidates(IdsAt(rows, kept), KeptVectors(rows, p), q, sim);
      && |out| == (if topK < |kept| then topK else |kept|)
      && Ranking.Descending(out, CandidateScore)
      && multiset(out) <= multiset(cs)
      && (forall c :: c in out ==> c.id in IdsAt(rows, kept))
      && forall x, y :: x in out && y in multiset(cs) - multiset(out) ==> x.score >= y.score
  {
    var kept := KeptPositions(rows, p);
    var ids := IdsAt(rows, kept);
    var cs := Candidates(ids, KeptVectors(rows, p), q, sim);
    ClientRankedWhen(q, rows, p, sim, topK);
    var out := Ranking.TopK(cs, CandidateScore, topK);
    assert ClientTier(q, FetchRows(rows), p, sim, topK).result.value.ranked == out;
    Ranking.TopKRanks(cs, CandidateScore, topK);
    RankedIdsFromCandidates(ids, KeptVectors(rows, p), q, sim, out);
  }

  /** Rows taken from the candidates carry ids of the candidates. */
  lemma RankedIdsFromCandidates(ids: seq<RowId>, vs: seq<Vec>, q: Vec, sim: Similarity, out: seq<Candidate>)
    requires |ids| == |vs|
    requires multiset(out) <= multiset(Candidates(ids, vs, q, sim))
    ensures forall c :: c in out ==> c.id in ids
  {
    var cs := Candidates(ids, vs, q, sim);
    forall c | c in out
      ensures c.id in ids
    {
      assert c in multiset(out);
      assert c in multiset(cs);
      var k :| 0 <= k < |cs| && cs[k] == c;
      assert c.id == ids[k];
    }
  }

  // ---------------------------------------------------------------------------
  // The search

  /** What the loop collected is what the client tier ranks. */
  lemma KeptAgreeIsKept(rows: seq<FetchedRow>, p: Parsers, ids: seq<RowId>, embs: seq<Vec>)
    requires KeptAgree(rows, p, KeptPositions(rows, p), ids, embs)
    ensures ids == IdsAt(rows, KeptPositions(rows, p)) && embs == KeptVectors(rows, p)
  {
  }

  /** `vector_search(conn_name, table, text_query, top_k=topK, provider=provider)`,
      with the database's answers to the server query and to the fallback fetch given. */
  method VectorSearch(cache: EncoderCache, mgr: Connection.ConnectionManager, connName: string, textQuery: string,
                      topK: int, provider: string, loadOk: bool, encode: EncodeOracle,
                      server: ServerReply, fetch: FetchReply, p: Parsers, sim: Similarity)
    returns (o: SearchOutcome)
    requires cache.Valid()
    modifies cache
    ensures cache.Valid()
    ensures o == SearchSpec(Embedding(provider, cache.model, old(cache.encoder).Some? || loadOk, encode, [textQuery]),
                            Connection.GetConnection(mgr, connName), server, fetch, p, sim, topK)
    ensures provider != LocalProvider ==> cache.encoder == old(cache.encoder) && cache.loads == old(cache.loads)
    ensures provider == LocalProvider ==> (cache.encoder.Some? <==> old(cache.encoder).Some? || loadOk)
    ensures provider == LocalProvider && old(cache.encoder).Some? ==>
      cache.encoder == old(cache.encoder) && cache.loads == old(cache.loads)
  {
    var embedded := EmbedTexts(cache, [textQuery], provider, loadOk, encode);
    if embedded.Err? {
      return SearchOutcome(Err(EmbedFailed(embedded.error)), []);
    }
    if embedded.value == [] {
      return SearchOutcome(Err(NoQueryVector), []);
    }
    var vec := embedded.value[0];
    var lookup := Connection.GetConnection(mgr, connName);
    if lookup.Err? {
      return SearchOutcome(Err(LookupFailed(lookup.error)), []);
    }
    // Server tier: any answer ends the search; an exception is only warned about.
    var warnings: seq<Warning> := [];
    match server {
      case ServerRows(rows) =>
        return SearchOutcome(Ok(ServerResult(rows)), []);
      case ServerRaised(m) =>
        warnings := [ServerFallback(m)];
    }
    // Client tier.
    match fetch {
      case FetchRaised(m) =>
        return SearchOutcome(Err(BothFailed(FetchFailed(m))), warnings);
      case FetchRows(rows) =>
        if rows == [] {
          return SearchOutcome(Ok(FetchedFrame(rows)), warnings);
        }
        var embs, ids, skipped := CollectParsed(rows, p);
        KeptAgreeIsKept(rows, p, ids, embs);
        warnings := warnings + skipped;
        if embs == [] {
          return SearchOutcome(Ok(FetchedFrame(rows)), warnings);
        }
        if !SameShape(vec, embs) {
          return SearchOutcome(Err(BothFailed(ShapeMismatch)), warnings);
        }
        var ranked := Ranking.TopK(Candidates(ids, embs, vec, sim), CandidateScore, topK);
        return SearchOutcome(Ok(RankedFrame(ranked)), warnings);
    }
  }
}
