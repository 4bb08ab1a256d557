/** The temporal clause rewriter (temporal.py): find the table after the leftmost
    `FROM` and splice a system-versioning clause after the first textual copy of it. */
module Temporal {
  import opened Outcomes
  import opened Text
  import Connection

  const DefaultKeyword := "FOR SYSTEM_TIME AS OF TIMESTAMP"

  /** What follows the keyword: a database call adding one second to the instant. */
  const AddOneSecond := "ADD(MICROSECOND, 1000000, '"

  const CloseCall := "')"

  predicate IsQuote(c: char) {
    c == '`' || c == '"' || c == '\''
  }

  /** A character of `[\w\.]`. */
  predicate IsTokenChar(c: char) {
    IsWordChar(c) || c == '.'
  }

  predicate AllTokenChars(t: string) {
    forall k :: 0 <= k < |t| ==> IsTokenChar(t[k])
  }

  /** `FROM` in any letter case. */
  predicate IsFromKeyword(w: string) {
    && |w| == 4
    && (w[0] == 'F' || w[0] == 'f') && (w[1] == 'R' || w[1] == 'r')
    && (w[2] == 'O' || w[2] == 'o') && (w[3] == 'M' || w[3] == 'm')
  }

  /** The strings `[`"']?[\w\.]+[`"']?` describes: a non-empty run of word characters
      and dots with an optional quote on either side. */
  predicate IsTableToken(t: string) {
    || (|t| >= 1 && AllTokenChars(t))
    || (|t| >= 2 && IsQuote(t[0]) && AllTokenChars(t[1..]))
    || (|t| >= 2 && IsQuote(t[|t| - 1]) && AllTokenChars(t[..|t| - 1]))
    || (|t| >= 3 && IsQuote(t[0]) && IsQuote(t[|t| - 1]) && AllTokenChars(t[1..|t| - 1]))
  }

  /** `FROM\s+([`"']?[\w\.]+[`"']?)` can match at `p` with group 1 spanning `s[ts..te]`
      (any way of matching, not only the one the regex engine picks). */
  predicate PatternAt(s: string, p: nat, ts: nat, te: nat) {
    && p + 4 < ts <= te <= |s|
    && IsFromKeyword(s[p..p + 4])
    && (forall k :: p + 4 <= k < ts ==> IsSpace(s[k]))
    && IsTableToken(s[ts..te])
  }

  /** The text contains the pattern somewhere. */
  ghost predicate HasFromClause(s: string) {
    exists p: nat, ts: nat, te: nat :: PatternAt(s, p, ts, te)
  }

  /** The match `re.search` reports: the leftmost position where the pattern matches
      and, there, the longest group the pattern admits. */
  ghost predicate IsLeftmostMatch(s: string, p: nat, ts: nat, te: nat) {
    && PatternAt(s, p, ts, te)
    && (forall q: nat, ts': nat, te': nat :: q < p ==> !PatternAt(s, q, ts', te'))
    && (forall ts': nat, te': nat :: PatternAt(s, p, ts', te') ==> te' <= te)
  }

  /** Where the match starts and where its group 1 (the table token) lies. */
  datatype FromMatch = FromMatch(start: nat, tokenStart: nat, tokenEnd: nat)

  /** The end of the run of `[\w\.]` characters starting at `i`. */
  function TokenRunEnd(s: string, i: nat): (j: nat)
    requires i <= |s|
    ensures i <= j <= |s|
    ensures forall k :: i <= k < j ==> IsTokenChar(s[k])
    ensures j == |s| || !IsTokenChar(s[j])
    decreases |s| - i
  {
    if i == |s| || !IsTokenChar(s[i]) then i else TokenRunEnd(s, i + 1)
  }

  /** The regex engine at position `p`: `\s+` and `[\w\.]+` take as much as they can
      and each optional quote is taken when present. */
  function MatchAt(s: string, p: nat): (r: Option<FromMatch>)
    requires p <= |s|
    ensures r.Some? ==> r.value.start == p && p + 4 < r.value.tokenStart < r.value.tokenEnd <= |s|
  {
    if p + 4 > |s| || !IsFromKeyword(s[p..p + 4]) then None
    else
      var ts := SkipSpace(s, p + 4);
      var a := if ts < |s| && IsQuote(s[ts]) then ts + 1 else ts;
      var b := TokenRunEnd(s, a);
      if ts == p + 4 || b == a then None
      else Some(FromMatch(p, ts, if b < |s| && IsQuote(s[b]) then b + 1 else b))
  }

  /** A quoted name ends the group at its closing quote: for `` `schema`.`table` ``
      only `` `schema` `` is captured, whatever follows the quote. */
  lemma QuotedNameEndsGroup(s: string, p: nat, b: nat)
    requires p + 4 <= |s| && IsFromKeyword(s[p..p + 4])
    requires SkipSpace(s, p + 4) > p + 4
    requires var ts := SkipSpace(s, p + 4);
      && ts + 1 < b < |s| && IsQuote(s[ts]) && IsQuote(s[b])
      && forall k :: ts + 1 <= k < b ==> IsTokenChar(s[k])
    ensures MatchAt(s, p) == Some(FromMatch(p, SkipSpace(s, p + 4), b + 1))
  {
    assert TokenRunEnd(s, SkipSpace(s, p + 4) + 1) == b;
  }

  /** What the engine reports at `p` is a way the pattern matches there. */
  lemma MatchAtSound(s: string, p: nat)
    requires p <= |s| && MatchAt(s, p).Some?
    ensures var m := MatchAt(s, p).value; PatternAt(s, p, m.tokenStart, m.tokenEnd)
  {
    var ts := SkipSpace(s, p + 4);
    var a := if ts < |s| && IsQuote(s[ts]) then ts + 1 else ts;
    var b := TokenRunEnd(s, a);
    var te := if b < |s| && IsQuote(s[b]) then b + 1 else b;
    assert MatchAt(s, p) == Some(FromMatch(p, ts, te));
    var t := s[ts..te];
    TokenRunInside(s, a, b, ts, te);
    if a == ts + 1 && te == b + 1 {
      assert AllTokenChars(t[1..|t| - 1]);
    } else if a == ts + 1 {
      assert AllTokenChars(t[1..]);
    } else if te == b + 1 {
      assert AllTokenChars(t[..|t| - 1]);
    } else {
      assert t[0..|t|] == t;
    }
  }

  /** A run of token characters inside `s[lo..hi]`, read from the slice. */
  lemma TokenRunInside(s: string, a: nat, b: nat, lo: nat, hi: nat)
    requires lo <= a <= b <= hi <= |s|
    requires forall k :: a <= k < b ==> IsTokenChar(s[k])
    ensures AllTokenChars(s[lo..hi][a - lo..b - lo])
  {
    var t := s[lo..hi][a - lo..b - lo];
    forall k | 0 <= k < |t| ensures IsTokenChar(t[k]) {
      assert t[k] == s[a + k];
    }
  }

  /** The pattern's group always starts after the whole run of spaces. */
  lemma PatternTokenStart(s: string, p: nat, ts: nat, te: nat)
    requires PatternAt(s, p, ts, te)
    ensures ts == SkipSpace(s, p + 4) && ts < te
    ensures IsQuote(s[ts]) || IsTokenChar(s[ts])
  {
    var t := s[ts..te];
    assert t[0] == s[ts];
    assert IsQuote(t[0]) || IsTokenChar(t[0]);
    assert !IsSpace(s[ts]);
    var j := SkipSpace(s, p + 4);
  }

  /** Between its optional quotes a table token is a non-empty run of `[\w\.]`. */
  lemma TableTokenCore(t: string)
    requires IsTableToken(t)
    ensures var lo := if IsQuote(t[0]) then 1 else 0;
      var hi := if |t| >= 2 && IsQuote(t[|t| - 1]) && lo < |t| - 1 then |t| - 1 else |t|;
      && lo < hi
      && forall k :: lo <= k < hi ==> IsTokenChar(t[k])
  {
    var lo := if IsQuote(t[0]) then 1 else 0;
    var hi := if |t| >= 2 && IsQuote(t[|t| - 1]) && lo < |t| - 1 then |t| - 1 else |t|;
    if |t| >= 3 && IsQuote(t[0]) && IsQuote(t[|t| - 1]) && AllTokenChars(t[1..|t| - 1]) {
      assert lo == 1 && hi == |t| - 1;
      forall k | lo <= k < hi ensures IsTokenChar(t[k]) {
        assert t[k] == t[1..|t| - 1][k - 1];
      }
    } else if |t| >= 2 && IsQuote(t[0]) && AllTokenChars(t[1..]) {
      assert !IsQuote(t[|t| - 1]) by { assert t[|t| - 1] == t[1..][|t| - 2]; }
      assert lo == 1 && hi == |t|;
      forall k | lo <= k < hi ensures IsTokenChar(t[k]) {
        assert t[k] == t[1..][k - 1];
      }
    } else if |t| >= 2 && IsQuote(t[|t| - 1]) && AllTokenChars(t[..|t| - 1]) {
      assert !IsQuote(t[0]) by { assert t[0] == t[..|t| - 1][0]; }
      assert lo == 0 && hi == |t| - 1;
      forall k | lo <= k < hi ensures IsTokenChar(t[k]) {
        assert t[k] == t[..|t| - 1][k];
      }
    } else {
      assert AllTokenChars(t);
      assert !IsQuote(t[0]) && !IsQuote(t[|t| - 1]);
    }
  }

  /** Wherever the pattern can match, the engine finds a match, and its group is the
      longest one the pattern admits there. */
  lemma MatchAtComplete(s: string, p: nat, ts: nat, te: nat)
    requires PatternAt(s, p, ts, te)
    ensures MatchAt(s, p).Some?
    ensures MatchAt(s, p).value.tokenStart == ts && te <= MatchAt(s, p).value.tokenEnd
  {
    PatternTokenStart(s, p, ts, te);
    var t := s[ts..te];
    var a := if IsQuote(s[ts]) then ts + 1 else ts;
    var b := TokenRunEnd(s, a);
    // the token's character run, between its optional quotes
    var lo := if IsQuote(t[0]) then 1 else 0;
    var hi := if |t| >= 2 && IsQuote(t[|t| - 1]) && lo < |t| - 1 then |t| - 1 else |t|;
    TableTokenCore(t);
    assert a == ts + lo;
    assert IsTokenChar(s[a]) by { assert s[a] == t[lo]; }
    assert b > a;
    // the engine's run of token characters reaches at least as far as the token's
    var e := ts + hi;
    assert forall k :: a <= k < e ==> IsTokenChar(s[k]) by {
      forall k | a <= k < e ensures IsTokenChar(s[k]) {
        assert s[k] == t[k - ts];
      }
    }
    assert e <= b;
    if hi == |t| - 1 {
      assert s[e] == t[|t| - 1];
      assert !IsTokenChar(s[e]);
      assert b == e;
    }
  }

  /** Python's `re.search` from position `p`: the first position with a match. */
  function SearchFrom(s: string, p: nat): (r: Option<FromMatch>)
    requires p <= |s|
    ensures r.Some? ==> p <= r.value.start <= |s| && MatchAt(s, r.value.start) == r
    ensures forall q :: p <= q <= |s| && (r.None? || q < r.value.start) ==> MatchAt(s, q).None?
    decreases |s| - p
  {
    match MatchAt(s, p)
    case Some(m) => Some(m)
    case None => if p == |s| then None else SearchFrom(s, p + 1)
  }

  /** The search fails exactly when the text has no `FROM <table>`, and otherwise
      reports the leftmost match with its longest group. */
  lemma SearchFindsLeftmost(s: string)
    ensures SearchFrom(s, 0).None? <==> !HasFromClause(s)
    ensures SearchFrom(s, 0).Some? ==>
      var m := SearchFrom(s, 0).value; IsLeftmostMatch(s, m.start, m.tokenStart, m.tokenEnd)
  {
    var r := SearchFrom(s, 0);
    if r.None? {
      if HasFromClause(s) {
        var p: nat, ts: nat, te: nat :| PatternAt(s, p, ts, te);
        MatchAtComplete(s, p, ts, te);
      }
    } else {
      var m := r.value;
      MatchAtSound(s, m.start);
      forall q: nat, ts': nat, te': nat | q < m.start
        ensures !PatternAt(s, q, ts', te')
      {
        if PatternAt(s, q, ts', te') {
          MatchAtComplete(s, q, ts', te');
        }
      }
      forall ts': nat, te': nat | PatternAt(s, m.start, ts', te')
        ensures te' <= m.tokenEnd
      {
        MatchAtComplete(s, m.start, ts', te');
      }
    }
  }

  /** The leftmost longest match is the one the search reports. */
  lemma LeftmostIsFound(s: string, p: nat, ts: nat, te: nat)
    requires IsLeftmostMatch(s, p, ts, te)
    ensures SearchFrom(s, 0) == Some(FromMatch(p, ts, te))
  {
    SearchFindsLeftmost(s);
    var m := SearchFrom(s, 0).value;
    assert m.start < p ==> !PatternAt(s, m.start, m.tokenStart, m.tokenEnd);
    assert m.start > p ==> !PatternAt(s, p, ts, te);
    PatternTokenStart(s, p, ts, te);
    PatternTokenStart(s, p, m.tokenStart, m.tokenEnd);
  }

  /** Why the rewriter gives up: no `FROM <table>` in the query (a `ValueError`). */
  datatype RewriteError = NoFromTable

  /** What replaces the first copy of the table token. */
  function Injection(token: string, keyword: string, asOf: string): string {
    token + " " + keyword + AddOneSecond + asOf + CloseCall
  }

  /** `expand_temporal_sql`: take group 1 of the leftmost match and rewrite its first
      textual occurrence, which may lie before the `FROM`. */
  function ExpandTemporalSql(baseSql: string, asOf: string, keyword: string): (r: Result<string, RewriteError>)
    ensures r.Ok? ==> |r.value| == |baseSql| + 1 + |keyword| + |AddOneSecond| + |asOf| + |CloseCall|
  {
    match SearchFrom(baseSql, 0)
    case None => Err(NoFromTable)
    case Some(m) =>
      var token := baseSql[m.tokenStart..m.tokenEnd];
      var i := FirstOccurrence(baseSql, token, 0, m.tokenStart);
      Ok(baseSql[..i] + Injection(token, keyword, asOf) + baseSql[i + |token|..])
  }

  /** The rewriter fails exactly when the query has no `FROM <table>`. */
  lemma ExpandFailsIffNoFrom(baseSql: string, asOf: string, keyword: string)
    ensures ExpandTemporalSql(baseSql, asOf, keyword).Err? <==> !HasFromClause(baseSql)
  {
    SearchFindsLeftmost(baseSql);
  }

  /** For the leftmost match with group `s[ts..te]`, whose first occurrence is at `i`
      (never after the group itself): the output is the text before `i`, the token with
      the clause, then everything after that copy of the token, later copies included. */
  lemma ExpandSplice(baseSql: string, asOf: string, keyword: string, p: nat, ts: nat, te: nat, i: nat)
    requires IsLeftmostMatch(baseSql, p, ts, te)
    requires IsFirstOccurrence(baseSql, baseSql[ts..te], i)
    ensures i <= ts
    ensures
      var token := baseSql[ts..te];
      ExpandTemporalSql(baseSql, asOf, keyword)
        == Ok(baseSql[..i] + Injection(token, keyword, asOf) + baseSql[i + |token|..])
  {
    var token := baseSql[ts..te];
    assert OccursAt(baseSql, token, ts);
    FirstOccurrenceIsFirst(baseSql, token, ts, i);
    LeftmostIsFound(baseSql, p, ts, te);
    ExpandFromSearch(baseSql, asOf, keyword, FromMatch(p, ts, te), i);
  }

  /** Whatever match the search reports, the output is the query with the first copy
      of its group (searched from the start, so possibly before the `FROM`) replaced by
      the token followed by the clause. */
  lemma ExpandFromSearch(baseSql: string, asOf: string, keyword: string, m: FromMatch, i: nat)
    requires SearchFrom(baseSql, 0) == Some(m)
    requires i == FirstOccurrence(baseSql, baseSql[m.tokenStart..m.tokenEnd], 0, m.tokenStart)
    ensures
      var token := baseSql[m.tokenStart..m.tokenEnd];
      ExpandTemporalSql(baseSql, asOf, keyword) == Ok(baseSql[..i] + Injection(token, keyword, asOf) + baseSql[i + |token|..])
  {
  }

  /** The frame of the splice a successful rewrite returns (see `ExpandFromSearch`):
      the text before the rewritten copy and everything after it are unchanged, the
      keyword comes right after the token and a space, glued to the `ADD(` call, and the
      query is longer by exactly the inserted clause. */
  lemma SpliceFrame(baseSql: string, token: string, i: nat, keyword: string, asOf: string)
    requires i + |token| <= |baseSql|
    ensures
      var out := baseSql[..i] + Injection(token, keyword, asOf) + baseSql[i + |token|..];
      var glued := token + " " + keyword + AddOneSecond;
      && |out| == |baseSql| + 1 + |keyword| + |AddOneSecond| + |asOf| + |CloseCall|
      && out[..i] == baseSql[..i]
      && out[i..i + |glued|] == glued
      && out[|out| - (|baseSql| - i - |token|)..] == baseSql[i + |token|..]
  {
    var glued := token + " " + keyword + AddOneSecond;
    assert Injection(token, keyword, asOf) == glued + (asOf + CloseCall);
    SpliceParts(baseSql[..i], glued, asOf + CloseCall, baseSql[i + |token|..]);
  }

  /** The pieces of a concatenation can be read back by position. */
  lemma SpliceParts(pre: string, mid: string, tail: string, post: string)
    ensures var out := pre + (mid + tail) + post;
      && |out| == |pre| + |mid| + |tail| + |post|
      && out[..|pre|] == pre
      && out[|pre|..|pre| + |mid|] == mid
      && out[|out| - |post|..] == post
  {
  }

  /** Growth of the query under the default keyword: 1 + 31 + 27 + |as_of| + 2. */
  lemma DefaultGrowth(baseSql: string, asOf: string)
    requires ExpandTemporalSql(baseSql, asOf, DefaultKeyword).Ok?
    ensures |ExpandTemporalSql(baseSql, asOf, DefaultKeyword).value| == |baseSql| + 61 + |asOf|
  {
    var m := SearchFrom(baseSql, 0).value;
    var token := baseSql[m.tokenStart..m.tokenEnd];
    var i := FirstOccurrence(baseSql, token, 0, m.tokenStart);
    ExpandFromSearch(baseSql, asOf, DefaultKeyword, m, i);
    SpliceFrame(baseSql, token, i, DefaultKeyword, asOf);
  }

  /** The keyword `temporal_query` passes on: the override's `temporal_keyword` when the
      override is a non-empty dictionary holding that key, the default otherwise. */
  function SelectKeyword(dialectOverride: Option<map<string, string>>): (kw: string)
    ensures dialectOverride.Some? && "temporal_keyword" in dialectOverride.value ==>
      kw == dialectOverride.value["temporal_keyword"]
    ensures dialectOverride.None? || "temporal_keyword" !in dialectOverride.value ==> kw == DefaultKeyword
  {
    match dialectOverride
    case Some(o) => if |o| > 0 && "temporal_keyword" in o then o["temporal_keyword"] else DefaultKeyword
    case None => DefaultKeyword
  }

  datatype TemporalError = RewriteFailed(rewrite: RewriteError) | LookupFailed(lookup: Connection.LookupError)

  /** The statement `temporal_query` hands to the adapter, and the connection it runs on. */
  datatype Statement = Statement(conn: Connection.ConnectionWrapper, sql: string)

  /** `temporal_query`: choose the keyword, rewrite (failing before any connection is
      looked up), then look up the connection. */
  function TemporalQuery(mgr: Connection.ConnectionManager, connName: string, baseSql: string, asOf: string,
                         dialectOverride: Option<map<string, string>>): (r: Result<Statement, TemporalError>)
    reads mgr
    ensures !HasFromClause(baseSql) ==> r == Err(RewriteFailed(NoFromTable))
    ensures HasFromClause(baseSql) && connName !in mgr.conns ==>
      r == Err(LookupFailed(Connection.NotConnected(connName)))
    ensures r.Ok? <==> HasFromClause(baseSql) && connName in mgr.conns
    ensures r.Ok? ==> (
      && r.value.conn == mgr.conns[connName]
      && ExpandTemporalSql(baseSql, asOf, SelectKeyword(dialectOverride)).Ok?
      && r.value.sql == ExpandTemporalSql(baseSql, asOf, SelectKeyword(dialectOverride)).value)
  {
    ExpandFailsIffNoFrom(baseSql, asOf, SelectKeyword(dialectOverride));
    match ExpandTemporalSql(baseSql, asOf, SelectKeyword(dialectOverride))
    case Err(e) => Err(RewriteFailed(e))
    case Ok(sql) =>
      match Connection.GetConnection(mgr, connName)
      case Err(e) => Err(LookupFailed(e))
      case Ok(cw) => Ok(Statement(cw, sql))
  }

  /** The worked example of the command's documentation, built from its three parts. */
  const ExamplePrefix := "SELECT * FROM "
  const ExampleTable := "experiments"
  const ExampleSuffix := " WHERE metric > 0.5"
  const ExampleQuery := ExamplePrefix + ExampleTable + ExampleSuffix
  const ExampleAsOf := "2024-01-01 00:00:00"

  lemma ExampleMatch()
    ensures MatchAt(ExampleQuery, 9) == Some(FromMatch(9, 14, 25))
  {
    var s := ExampleQuery;
    assert s[14..25] == ExampleTable by {
      assert s[14..25] == (ExamplePrefix + ExampleTable + ExampleSuffix)[|ExamplePrefix|..|ExamplePrefix| + |ExampleTable|];
    }
    assert AllTokenChars(ExampleTable);
    forall k | 14 <= k < 25
      ensures IsTokenChar(s[k])
    {
      assert s[k] == s[14..25][k - 14];
    }
    assert s[25] == ' ';
    TokenRunExact(s, 14, 25);
    assert SkipSpace(s, 13) == 14;
    assert IsFromKeyword(s[9..13]);
  }

  /** A run of token characters ended by a non-token character is the engine's run. */
  lemma TokenRunExact(s: string, i: nat, j: nat)
    requires i <= j <= |s|
    requires forall k :: i <= k < j ==> IsTokenChar(s[k])
    requires j == |s| || !IsTokenChar(s[j])
    ensures TokenRunEnd(s, i) == j
  {
  }

  lemma ExampleNoEarlierMatch(q: nat)
    requires q < 9
    ensures MatchAt(ExampleQuery, q).None?
  {
    var s := ExampleQuery;
    assert s[q..q + 4][0] == s[q];
    assert s[q] != 'F' && s[q] != 'f' by {
      if q == 0 { assert s[0] == 'S'; }
      else if q == 1 { assert s[1] == 'E'; }
      else if q == 2 { assert s[2] == 'L'; }
      else if q == 3 { assert s[3] == 'E'; }
      else if q == 4 { assert s[4] == 'C'; }
      else if q == 5 { assert s[5] == 'T'; }
      else if q == 6 { assert s[6] == ' '; }
      else if q == 7 { assert s[7] == '*'; }
      else if q == 8 { assert s[8] == ' '; }
    }
  }

  lemma ExampleSearch()
    ensures SearchFrom(ExampleQuery, 0) == Some(FromMatch(9, 14, 25))
  {
    var s := ExampleQuery;
    ExampleMatch();
    ExampleNoEarlierMatch(8);
    assert SearchFrom(s, 8) == Some(FromMatch(9, 14, 25));
    ExampleNoEarlierMatch(7);
    assert SearchFrom(s, 7) == Some(FromMatch(9, 14, 25));
    ExampleNoEarlierMatch(6);
    assert SearchFrom(s, 6) == Some(FromMatch(9, 14, 25));
    ExampleNoEarlierMatch(5);
    assert SearchFrom(s, 5) == Some(FromMatch(9, 14, 25));
    ExampleNoEarlierMatch(4);
    assert SearchFrom(s, 4) == Some(FromMatch(9, 14, 25));
    ExampleNoEarlierMatch(3);
    assert SearchFrom(s, 3) == Some(FromMatch(9, 14, 25));
    ExampleNoEarlierMatch(2);
    assert SearchFrom(s, 2) == Some(FromMatch(9, 14, 25));
    ExampleNoEarlierMatch(1);
    assert SearchFrom(s, 1) == Some(FromMatch(9, 14, 25));
    ExampleNoEarlierMatch(0);
    assert SearchFrom(s, 0) == Some(FromMatch(9, 14, 25));
  }

  lemma ExampleNoEarlierTable(k: nat)
    requires k < 14
    ensures !OccursAt(ExampleQuery, ExampleTable, k)
  {
    var s := ExampleQuery;
    assert s[k..k + 11][0] == s[k];
    assert s[k] != 'e' by {
      if k == 0 { assert s[0] == 'S'; }
      else if k == 1 { assert s[1] == 'E'; }
      else if k == 2 { assert s[2] == 'L'; }
      else if k == 3 { assert s[3] == 'E'; }
      else if k == 4 { assert s[4] == 'C'; }
      else if k == 5 { assert s[5] == 'T'; }
      else if k == 6 { assert s[6] == ' '; }
      else if k == 7 { assert s[7] == '*'; }
      else if k == 8 { assert s[8] == ' '; }
      else if k == 9 { assert s[9] == 'F'; }
      else if k == 10 { assert s[10] == 'R'; }
      else if k == 11 { assert s[11] == 'O'; }
      else if k == 12 { assert s[12] == 'M'; }
      else if k == 13 { assert s[13] == ' '; }
    }
  }

  lemma ExampleFirst()
    ensures FirstOccurrence(ExampleQuery, ExampleTable, 0, 14) == 14
  {
    var s := ExampleQuery;
    var t := ExampleTable;
    assert s[14..25] == t by {
      assert s[14..25] == (ExamplePrefix + ExampleTable + ExampleSuffix)[|ExamplePrefix|..|ExamplePrefix| + |ExampleTable|];
    }
    ExampleNoEarlierTable(13);
    assert FirstOccurrence(s, t, 13, 14) == 14;
    ExampleNoEarlierTable(12);
    assert FirstOccurrence(s, t, 12, 14) == 14;
    ExampleNoEarlierTable(11);
    assert FirstOccurrence(s, t, 11, 14) == 14;
    ExampleNoEarlierTable(10);
    assert FirstOccurrence(s, t, 10, 14) == 14;
    ExampleNoEarlierTable(9);
    assert FirstOccurrence(s, t, 9, 14) == 14;
    ExampleNoEarlierTable(8);
    assert FirstOccurrence(s, t, 8, 14) == 14;
    ExampleNoEarlierTable(7);
    assert FirstOccurrence(s, t, 7, 14) == 14;
    ExampleNoEarlierTable(6);
    assert FirstOccurrence(s, t, 6, 14) == 14;
    ExampleNoEarlierTable(5);
    assert FirstOccurrence(s, t, 5, 14) == 14;
    ExampleNoEarlierTable(4);
    assert FirstOccurrence(s, t, 4, 14) == 14;
    ExampleNoEarlierTable(3);
    assert FirstOccurrence(s, t, 3, 14) == 14;
    ExampleNoEarlierTable(2);
    assert FirstOccurrence(s, t, 2, 14) == 14;
    ExampleNoEarlierTable(1);
    assert FirstOccurrence(s, t, 1, 14) == 14;
    ExampleNoEarlierTable(0);
    assert FirstOccurrence(s, t, 0, 14) == 14;
  }

  /** The documented example: the table name is followed by the clause, the rest
      of the query is kept. */
  lemma ExperimentsExample()
    ensures ExpandTemporalSql(ExampleQuery, ExampleAsOf, DefaultKeyword)
      == Ok(ExamplePrefix + Injection(ExampleTable, DefaultKeyword, ExampleAsOf) + ExampleSuffix)
  {
    var s := ExampleQuery;
    ExampleSearch();
    ExampleFirst();
    assert s[14..25] == ExampleTable by {
      assert s[14..25] == (ExamplePrefix + ExampleTable + ExampleSuffix)[|ExamplePrefix|..|ExamplePrefix| + |ExampleTable|];
    }
    ExpandFromSearch(s, ExampleAsOf, DefaultKeyword, FromMatch(9, 14, 25), 14);
    assert s[..14] == ExamplePrefix;
    assert s[25..] == ExampleSuffix;
  }
}
