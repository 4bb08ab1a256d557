# mariadb-magics core, modelled in Dafny

mariadb-magics adds notebook commands for MariaDB: `%mariadb_connect` opens a named
connection, `%mariadb` / `%%mariadb` run SQL, `%mariadb_vector` runs a semantic search
over a table of embeddings, and `%mariadb_time` runs a query against a system-versioned
table at a given instant. This project models the logic under those commands and
proves what it promises:

- `temporal.dfy` — the temporal rewriter. Python's `re.search` for
  ``FROM\s+([`"']?[\w\.]+[`"']?)`` (case-insensitive) is modelled as a greedy matcher
  (`MatchAt`) tried from left to right (`SearchFrom`). It is proved sound, complete and
  longest-group against a declarative reading of the pattern (`PatternAt`). Then
  `str.replace(token, …, 1)` splices the clause after the first textual copy of the
  token. That copy may lie before the `FROM`. Also here: the keyword choice of
  `temporal_query`.
- `connection.dfy` — the registry. It is a class holding a dictionary from names to
  wrappers plus the dictionary's key order. `connect` does a ping-or-replace step, and
  there are `get`, `close`, `close_all` and `get_connection`. A handle counts how often
  it was closed, so "closed exactly once" can be stated.
- `vector.dfy` — the tiers of `vector_search`:
  - the memoised local encoder, and the provider check of `embed_texts`;
  - the server tier;
  - the fallback to the client tier;
  - the row loop, which keeps parsed rows and warns about malformed ones;
  - the ranking, and the single wrapped error.
- `emb_text.dfy` — the case dispatch of `parse_emb_text`, with the comma-split
  fallback.
- `ranking.dfy` — pandas' `sort_values(ascending=False)` and `head(n)` as a sorted
  permutation and a prefix.
- `magics.dfy` — the commands' handling of the token list:
  - the `--key value` scans, as imperative loops proved against a recursive `Scan`;
  - the `int` conversion of the port and the `isdigit` conversion of vector options;
  - the line/cell choice of `%mariadb`;
  - the `as_of` split and the date-to-midnight rule of `%mariadb_time`.
- `text.dfy` and `outcomes.dfy` — the Python string builtins the core relies on
  (`strip`, `split`, `join`, `index`, `int`, ASCII `\s`/`\w`/`\d`/`isdigit`), plus
  `Option`/`Result`.

The database driver, the embedding model, JSON/float parsing and the similarity
arithmetic are foreign code. They appear as parameters:
- `DriverReplies`;
- `EncodeOracle`;
- `Parsers`;
- `Similarity`;
- `ServerReply` / `FetchReply`.

A raised exception becomes an error value.

The wrapped `RuntimeError` of the client tier carries only the client failure
(vector.py:133-136); the server error goes only into the earlier warning. In the
model, `BothFailed` holds the `ClientError`, and the server message stays in the
`ServerFallback` warning.

## Model

| member | source | states |
|---|---|---|
| Temporal.MatchAt | mariadb_magics/temporal.py:13 | When the engine matches at `p`, the group starts after at least one space past `FROM` and is non-empty. |
| Temporal.MatchAtSound | mariadb_magics/temporal.py:13 | What the engine reports at `p` is a way the pattern `FROM\s+[quote?][\w.]+[quote?]` matches there. |
| Temporal.MatchAtComplete | mariadb_magics/temporal.py:13 | Wherever the pattern can match, the engine matches. Its group starts at the same place and is at least as long as any group the pattern admits. |
| Temporal.QuotedNameEndsGroup | mariadb_magics/temporal.py:13-17 | After a quoted name the group ends at the closing quote. For `` `schema`.`table` `` only `` `schema` `` is captured. |
| Temporal.SearchFrom | mariadb_magics/temporal.py:13 | The search returns the first position at or after `p` where the engine matches. No earlier position matches. |
| Temporal.SearchFindsLeftmost | mariadb_magics/temporal.py:13-17 | The search fails exactly when the query has no `FROM <table>`. Otherwise it reports the leftmost match with its longest group. |
| Temporal.LeftmostIsFound | mariadb_magics/temporal.py:13-17 | The leftmost-longest match is the one the search reports. |
| Temporal.ExpandTemporalSql | mariadb_magics/temporal.py:12-19 | A successful rewrite is longer than the query by exactly the inserted clause: 1 + len(keyword) + 27 + len(as_of) + 2 characters. |
| Temporal.ExpandFailsIffNoFrom | mariadb_magics/temporal.py:13-16 | The rewrite raises exactly when there is no `FROM` followed by spaces and a table token. |
| Temporal.ExpandSplice | mariadb_magics/temporal.py:13-19 | For the leftmost match, the output is three parts: the text before the first occurrence `i` of the group, then `token + " " + keyword + "ADD(MICROSECOND, 1000000, '" + as_of + "')"`, then everything after that copy, later copies included. `i` is never after the group itself. |
| Temporal.SpliceFrame | mariadb_magics/temporal.py:18 | For the output of the splice: the prefix is unchanged; `token + " " + keyword + "ADD("...` sits at `i`, with the keyword glued to `ADD(`; the suffix after the replaced copy is unchanged; the length grows by 1 + len(keyword) + 27 + len(as_of) + 2. |
| Temporal.DefaultGrowth | mariadb_magics/temporal.py:6-18 | With the default keyword, a rewritten query is exactly 61 + len(as_of) characters longer. |
| Temporal.SelectKeyword | mariadb_magics/temporal.py:28-30 | The override's `temporal_keyword` is used when present. Without an override, or without the key, the default `FOR SYSTEM_TIME AS OF TIMESTAMP` is used. |
| Temporal.TemporalQuery | mariadb_magics/temporal.py:21-32 | A query without `FROM <table>` fails in the rewriter before any lookup. Otherwise an unknown connection fails the lookup. Success happens exactly when both hold, and then the statement is the rewrite under the selected keyword, on the registered wrapper. |
| Temporal.ExperimentsExample | mariadb_magics/temporal.py:6-19 | `SELECT * FROM experiments WHERE metric > 0.5` at `2024-01-01 00:00:00` becomes the same query with `experiments FOR SYSTEM_TIME AS OF TIMESTAMPADD(MICROSECOND, 1000000, '2024-01-01 00:00:00')` in place of the table name. |
| Connection.ConnectionWrapper.constructor | mariadb_magics/connection.py:10-13 | A wrapper holds the handle, the configuration and the current time as last use. |
| Connection.ConnectionWrapper.Cursor | mariadb_magics/connection.py:15-17 | Opening a cursor refreshes `lastUsed` and runs on the wrapped handle. |
| Connection.ConnectionWrapper.Close | mariadb_magics/connection.py:19-23 | Closing calls the driver's close once and returns normally even when the driver raises. |
| Connection.Without | mariadb_magics/connection.py:44-45 | Deleting a key keeps exactly the other keys, without repetitions, and changes nothing when the key is absent. |
| Connection.WithoutAt | mariadb_magics/connection.py:44-45 | In a list without repetitions, deleting the name at position `i` leaves the names before it and the names after it, each in their order. |
| Connection.WithoutHead | mariadb_magics/connection.py:62-66 | Deleting the first of a list of distinct names leaves the rest of the list. |
| Connection.ConnectionManager.constructor | mariadb_magics/connection.py:27-29 | The registry starts empty. |
| Connection.ConnectionManager.Connect | mariadb_magics/connection.py:31-50 | If the name is registered and the ping succeeds, the existing wrapper is returned, the registry is unchanged and its handle is not closed. If the ping fails, the old handle is closed once and the entry dropped. Then a successful driver connect registers a fresh wrapper with the given config under the name, last in key order, leaving other entries as they were. A failed connect leaves no entry for the name. |
| Connection.ConnectionManager.Open | mariadb_magics/connection.py:47-50 | For a name not yet registered, a driver connect creates one fresh wrapper with the given config and adds only that entry. A failed connect changes nothing. |
| Connection.ConnectionManager.Get | mariadb_magics/connection.py:52-54 | The lookup never changes the registry. It returns the stored wrapper exactly when the name is registered. |
| Connection.ConnectionManager.Close | mariadb_magics/connection.py:56-60 | Only that entry is removed, and its handle is closed once. Every other handle is untouched. An unknown name is a no-op. |
| Connection.ConnectionManager.CloseAll | mariadb_magics/connection.py:62-66 | Afterwards the registry is empty and every previously held handle was closed exactly once. |
| Connection.GetConnection | mariadb_magics/connection.py:78-82 | The call fails with `NotConnected(name)` exactly when `get` finds nothing. Otherwise it returns the registered wrapper. |
| Vector.ModelName | mariadb_magics/vector.py:10 | The model comes from `MARIADB_MAGICS_EMBED_MODEL` when set, else `paraphrase-MiniLM-L3-v2`. |
| Vector.EncoderCache.constructor | mariadb_magics/vector.py:10-11 | The encoder slot starts empty, for the configured model. |
| Vector.EncoderCache.Ensure | mariadb_magics/vector.py:13-17 | A held encoder is returned without loading again. With an empty slot, a successful load stores one fresh encoder. A load that raises returns `LoadFailed` and leaves the slot empty, so the next call tries again. |
| Vector.Embedding | mariadb_magics/vector.py:19-25 | Embedding succeeds exactly for provider `local` with an encoder at hand and an `encode` that returns, giving what it encodes. Otherwise the error is `UnknownProvider`, `LoadFailed`, or `EncodeFailed` with the exception's message, in that order. |
| Vector.EmbedTexts | mariadb_magics/vector.py:19-25 | The method returns `Embedding`'s outcome, where an encoder is at hand when one was held or the load succeeds. Only the local provider loads, at most once. A failed load leaves the slot empty. Another provider leaves the cache untouched. |
| Vector.Rescore | mariadb_magics/vector.py:68 | Each server row gets `_score = 1 - _distance` and keeps its id and distance. |
| Vector.ServerResult | mariadb_magics/vector.py:65-70 | A successful server query gives a server frame with one scored row per returned row. |
| Vector.ServerResultRanks | mariadb_magics/vector.py:65-70 | A non-empty server answer keeps exactly its rows, scored. They are ordered by non-increasing score, so by non-decreasing distance. |
| Vector.KeptPositions | mariadb_magics/vector.py:107-113 | Each kept position is a row whose cell parses to a vector. |
| Vector.FailedPositions | mariadb_magics/vector.py:114-116 | Each skipped-with-warning position is a row whose parse raised. |
| Vector.FailedPositionsInOrder | mariadb_magics/vector.py:105-116 | Failed positions are strictly ascending, and every row whose parse raised is among them. |
| Vector.KeptPositionsInOrder | mariadb_magics/vector.py:105-113 | Kept positions are strictly ascending, so the kept ids are an order-preserving subsequence of the fetched ids. Every row that parses is kept. |
| Vector.SkipWarnings | mariadb_magics/vector.py:114-116 | The `k`-th warning names the id of the `k`-th failed row and carries that row's parse error, so each malformed row is warned about once, in fetch order. |
| Vector.CollectParsed | mariadb_magics/vector.py:105-116 | The loop keeps equal-length `ids`/`embs`: the ids and vectors of exactly the parsed rows, in fetch order. NULL cells are skipped silently. The warnings are those of the malformed rows, in order. |
| Vector.Candidates | mariadb_magics/vector.py:126-129 | Each kept row becomes one candidate with its id and its similarity to the query. |
| Vector.ClientTier | mariadb_magics/vector.py:78-136 | Every failure of the fallback is the wrapped `BothFailed`. A non-empty fetch warns exactly the skip warnings. A fetched frame handed back is the fetch itself. |
| Vector.SearchSpec | mariadb_magics/vector.py:31-136 | A result needs the embedding and the lookup to succeed. Any warning implies the server raised, and the first warning is then the fallback warning with the server's message. A wrapped failure implies the server raised. |
| Vector.EarlyErrorsUnwrapped | mariadb_magics/vector.py:48-51 | Embedding and lookup errors are reported unwrapped before either tier runs. The search fails exactly when one of them fails, or when the server raised and the client tier fails. |
| Vector.ServerAnswerIsFinal | mariadb_magics/vector.py:65-70 | A server answer is the result. An empty one is returned as is. A non-empty one is rescored and sorted by non-increasing score. Nothing is warned. |
| Vector.ServerFailureFallsBack | mariadb_magics/vector.py:72-76 | A server exception never escapes. It becomes the first warning, and the outcome is the client tier's. |
| Vector.NothingToRankReturnsFetch | mariadb_magics/vector.py:81-119 | An empty fetch, or one where no row parses, is returned unmodified. |
| Vector.ClientFailuresWrapped | mariadb_magics/vector.py:133-136 | Every client-tier failure, the failed fetch included, is the one wrapped error. |
| Vector.ClientRankedWhen | mariadb_magics/vector.py:118-131 | The client tier ranks exactly when some row parses and the shapes fit. The ranking is the top `top_k` of the kept rows' candidates. |
| Vector.ClientRanking | mariadb_magics/vector.py:126-131 | For `top_k >= 0` the result has `min(top_k, #parsed)` rows, ordered by non-increasing score, each with an id of a parsed row. It draws from the candidates, and no candidate left out scores above one kept. |
| Vector.VectorSearch | mariadb_magics/vector.py:31-136 | The imperative search returns exactly `SearchSpec`, given the encoder, the registry and the database answers. The properties above are proved of `SearchSpec`. The encoder cache ends as `embed_texts` leaves it: a held encoder is reused without loading, a failed load leaves the slot empty, and another provider leaves the cache untouched. |
| EmbText.AllFloats | mariadb_magics/vector.py:98 | Converting the pieces succeeds exactly when `float` accepts every piece. The result has one number per piece, in order. |
| EmbText.Shown | mariadb_magics/vector.py:100 | The error shows the first `min(200, len)` characters of the text. |
| EmbText.ParseText | mariadb_magics/vector.py:92-100 | JSON wins when it converts. Otherwise the comma split is used. The parse fails, with the shortened text, exactly when both fail. |
| EmbText.ParseEmbText | mariadb_magics/vector.py:86-103 | Only a NULL cell gives no vector. Bytes are decoded and parsed as text, and so are strings. Lists and tuples parse exactly when the numeric conversion accepts them. Every other type is an error. |
| EmbText.CommaFallback | mariadb_magics/vector.py:96-98 | Non-JSON text whose comma pieces all convert parses to those numbers, one per piece, in order. |
| EmbText.CommaPiecesCoverText | mariadb_magics/vector.py:98 | The pieces of the fallback join back, with commas, to the stripped text. |
| EmbText.BlankTextNeedsJson | mariadb_magics/vector.py:93-100 | Blank text that is not JSON is unparseable unless `float("")` converts. |
| Ranking.Insert | mariadb_magics/vector.py:130 | Inserting into a descending sequence keeps it descending and adds exactly the one row. |
| Ranking.SortDescending | mariadb_magics/vector.py:130 | `sort_values(ascending=False)` is a permutation ordered by non-increasing score. |
| Ranking.Head | mariadb_magics/vector.py:130 | `head(n)` is a prefix: `min(n, len)` rows for `n >= 0`, and all but the last `-n` for negative `n`. |
| Ranking.TopKRanks | mariadb_magics/vector.py:129-130 | The top `k` are `min(k, len)` rows taken from the input, in non-increasing order. No row left out scores above a kept one. |
| Magics.Scan | mariadb_magics/magics.py:27-34 | The scan only adds or overwrites keys, so every key set before it stays set. |
| Magics.ValueNeverKey | mariadb_magics/magics.py:27-34 | The token after a flag is a value and is never read as a key, even when it starts with `--`. |
| Magics.ScanKeys | mariadb_magics/magics.py:27-34 | The scan sets a key exactly when a flag read as a key names it, or the key was set before. |
| Magics.ScanLastWins | mariadb_magics/magics.py:29-32 | A repeated key keeps the value after its last flag, or `None` when that flag is the last token. |
| Magics.ScanUntouched | mariadb_magics/magics.py:73-83 | A key no flag names keeps its earlier value, so the defaults survive. |
| Magics.ParseConnectFlags | mariadb_magics/magics.py:25-34 | The `while` loop from index 1 computes exactly the recursive scan, and it terminates. |
| Magics.ConfigOf | mariadb_magics/magics.py:35-36 | Only a present `port` is converted with `int`. Every other value passes as text or `None`. A value-less or non-integer port raises. |
| Magics.PlanConnect | mariadb_magics/magics.py:19-38 | No tokens means usage and no connect. Otherwise a port error from `ConfigOf` is the rejection. With a valid config, a `--name` key is rejected as `KeywordClash("name")`. Otherwise a `--self` key is rejected as `KeywordClash("self")`, the `TypeError` of the registry method's call at connection.py:76. Without either, `connect` is called with the first token as name and the scanned, converted flags. |
| Magics.ConnectPort | mariadb_magics/magics.py:29-36 | A last `--port` read as a key whose value spells N, leading zeros allowed, arrives as the integer N. |
| Magics.ConnectWithoutPort | mariadb_magics/magics.py:35-38 | Without a `--port` flag, and without a clashing `--name` or `--self`, `connect` is called and the configuration has no port. |
| Magics.MariadbConnect | mariadb_magics/magics.py:12-39 | Only the registry and the handle under the first token may change. Unless the tokens form a call, neither does; a clashing `--name` or `--self` key is rejected before the registry is touched. A call has `connect`'s outcome: reuse with nothing closed; or the stale handle closed once, then a fresh wrapper with the parsed config last in key order, or a driver failure with no entry left. |
| Magics.PlanSql | mariadb_magics/magics.py:47-56 | No tokens means usage. Otherwise the connection is the first token, and the SQL is the cell when there is one, else the remaining tokens joined by single spaces. |
| Magics.LineSqlTokens | mariadb_magics/magics.py:53 | In line mode, splitting the SQL on spaces gives back the tokens after the name, when none of them contains a space. |
| Magics.OptOf | mariadb_magics/magics.py:80 | A value becomes an int exactly when it is all ASCII digits. That int is the number the digits spell, leading zeros allowed (`"007"` is 7, `"0"` is 0). Anything else stays text. |
| Magics.MariadbVectorArgs | mariadb_magics/magics.py:65-84 | Fewer than 3 tokens means usage. A trailing flag read as a key raises the index error. Otherwise the three positional tokens and the `top_k`/`embed_column` options are passed on, with defaults overridden by flags. |
| Magics.VectorTopK | mariadb_magics/magics.py:73-84 | `top_k` is 10 unless a flag sets it. The last `--top_k` wins, as an int exactly when its value is all digits. |
| Magics.NormalizeAsOf | mariadb_magics/magics.py:111-112 | Exactly a `dddd-dd-dd` value gets ` 00:00:00` appended. Any other value is unchanged. |
| Magics.NormalizeIdempotent | mariadb_magics/magics.py:111-112 | Normalising twice is normalising once, and the result is never a bare date. |
| Magics.PlanTime | mariadb_magics/magics.py:95-113 | Without `as_of` the command prints usage. Otherwise the SQL is the tokens strictly between the name and the first `as_of`, joined by spaces. `as_of` is the next token, normalised. The override is the token after the first `--temporal_keyword`, if any. |
| Magics.TimeRejectedWhen | mariadb_magics/magics.py:103-110 | The command fails exactly when the first `as_of`, or the first `--temporal_keyword`, is the last token. |
| Magics.TimeQuery | mariadb_magics/magics.py:95-113 | A statement is produced exactly when the tokens form a call. It succeeds exactly when the SQL has `FROM <table>` and the connection is registered. It is `TemporalQuery` of the planned connection, SQL, timestamp and keyword override, so its SQL is the rewrite of the planned SQL under the selected keyword, on that connection's wrapper. |
| Magics.ExampleTimeCommand | mariadb_magics/magics.py:91-113 | The documented command yields the query, `2024-01-01 00:00:00` and no override, and the rewrite inserts the default clause after `experiments`. |
| Text.ParseInt | mariadb_magics/magics.py:36 | `int(text)` succeeds exactly on an optionally signed run of digits, after stripping whitespace. |
| Text.ParseIntSpells | mariadb_magics/magics.py:36 | The number `int` returns is the one its digits spell, leading zeros allowed, with the sign applied. |
| Text.ParseIntOfSpelling | mariadb_magics/magics.py:36 | `int` of any spelling of `n`, leading zeros included, is `n`. |
| Text.DigitsSpell | mariadb_magics/magics.py:80 | Every digit string spells the number it is read as: some zeros, then the shortest spelling. |
| Text.ParseIntShowNat | mariadb_magics/magics.py:36 | `int` reads back every spelled-out integer, with or without a sign. |
| Text.Strip | mariadb_magics/vector.py:98 | `strip()` drops exactly the leading and trailing whitespace. |
| Text.Split | mariadb_magics/vector.py:98 | `split(',')` gives at least one piece, and no piece contains the separator. |
| Text.JoinSplit | mariadb_magics/vector.py:98 | Joining the pieces of a split gives back the text. |
| Text.SplitJoin | mariadb_magics/magics.py:53 | Splitting a join of separator-free pieces gives back the pieces. |
| Text.FirstOccurrence | mariadb_magics/temporal.py:18 | `str.replace(..., 1)` rewrites the first position where the token occurs. No earlier position holds it. |
| Text.FirstOccurrenceIsFirst | mariadb_magics/temporal.py:18 | The first occurrence is unique and never after any known occurrence. |
| Text.IndexOf | mariadb_magics/magics.py:103 | `parts.index(x)` is the first position holding `x`, and it exists exactly when `x in parts`. |

## Left out

- Concurrency: the registry's `RLock` (connection.py:28) is not modelled, because the registry is a sequential class.
- Foreign calls, each an oracle parameter:
  - the driver (`mariadb.connect`, `ping(reconnect=True)`, `close`);
  - the embedding model (`SentenceTransformer`, `encode`);
  - `json.loads` / `float()` / `bytes.decode` / `np.array`;
  - the cosine similarity.
  The tier order, the data flow and the errors they raise (a failed driver connect, a model load or `encode` that raises) are modelled.
- Floating point: scores and distances are exact reals, so `1.0 - _distance` and the normalisation are not modelled bit for bit. A NULL `_distance` from the server is not modelled.
- The SQL templates sent to the server (vector.py:58-64, 80) and the server-side `LIMIT`: the server's rows are taken as given. The `table`, `embed_column` and `id_column` parameters only shape those templates, so the search takes no such parameters.
- Vector.VectorSearch: takes `top_k` as an integer. A non-numeric `--top_k` value, passed on as a string, would make the source's `head` raise, and that path is not modelled.
- Vector.ClientRanking: states nothing about the order among equal scores, because pandas' sort stability is not promised.
- The mismatch of vector lengths that makes `np.vstack` or `cosine_similarity` raise is modelled as one predicate (`SameShape`), not numpy's exact rules.
- Text.ParseInt: does not accept the underscores or non-ASCII digits Python's `int` allows. The character classes `\s`, `\w`, `\d` and `isdigit` are ASCII only.
- Magics.NormalizeAsOf: `\d` in the date pattern of magics.py:111 matches any Unicode decimal digit in Python, but `IsIsoDate` accepts only ASCII digits. A date written in other digits (Arabic-Indic, say) gets " 00:00:00" appended in the source and is left as it is in the model.
- Shell-style tokenisation (`shlex.split`), IPython display and printing, and the usage messages: each command starts from its token list, and a usage message is a plan value.
- `%mariadb_plot`, plot.py, utils.py, api.py and `__init__.py` are not part of this model. They are rendering code, a thin cursor wrapper, and pass-through wrappers.
- What a command does after parsing is a plan. The exception is `MariadbConnect`, which is carried out against the registry. `%mariadb_vector` and `%mariadb_time` are handed to `VectorSearch` and `TemporalQuery` by value, and `TimeQuery` shows that connection.
- Connection.ConnectionManager.Connect: the registry's own state is modelled, but not the per-handle side effects of `ping(reconnect=True)`.
