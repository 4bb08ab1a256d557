/** The notebook commands' argument handling, from the token list the shell-style
    splitter produces: the `--key value` scans of `%mariadb_connect` and
    `%mariadb_vector`, the `as_of` split of `%mariadb_time`, and the choice between
    the line and the cell in `%mariadb`. What each command then hands to the
    registry, the search or the rewriter is a plan; `MariadbConnect` carries its plan
    out against the registry. */
module Magics {
  import opened Outcomes
  import opened Text
  import Connection
  import Temporal

  /** The errors the commands raise while reading their tokens: `IndexError` for a
      flag or `as_of` with nothing after it, `TypeError` for `int(None)` on a
      value-less `--port` and for a keyword that clashes with a parameter of the
      connect calls (`--name` with `name`, `--self` with the registry method's
      `self`), and `ValueError` for a port that is not an integer. */
  datatype CommandError =
    | MissingValue(after: string)
    | PortWithoutValue
    | PortNotInteger(text: string)
    | KeywordClash(key: string)

  // ---------------------------------------------------------------------------
  // The `--key value` scan shared by `%mariadb_connect` and `%mariadb_vector`

  predicate IsFlag(token: string) {
    StartsWith(token, "--")
  }

  /** The key a flag token sets: the token without its leading `--`. */
  function KeyOf(flag: string): string
    requires IsFlag(flag)
  {
    flag[2..]
  }

  /** Where the scan goes from `i`: past the value after a flag, else to the next token. */
  function Step(parts: seq<string>, i: nat): (j: nat)
    requires i < |parts|
    ensures j > i
  {
    if IsFlag(parts[i]) then i + 2 else i + 1
  }

  /** The positions the scan reads a key from, starting at `i`, in order. */
  function Visits(parts: seq<string>, i: nat): (r: seq<nat>)
    ensures forall k :: 0 <= k < |r| ==> i <= r[k] < |parts|
    ensures forall j :: j in r ==> i <= j < |parts|
    ensures forall a, b :: 0 <= a < b < |r| ==> r[a] < r[b]
    decreases |parts| - i
  {
    if i >= |parts| then [] else [i] + Visits(parts, Step(parts, i))
  }

  /** The scan from `i` on: each flag stores the value `value` gives for the token
      after it, or `missing` when it is the last token; other tokens are skipped. */
  function Scan<V>(parts: seq<string>, i: nat, kv: map<string, V>, value: string -> V, missing: V): (r: map<string, V>)
    ensures kv.Keys <= r.Keys
    decreases |parts| - i
  {
    if i >= |parts| then kv
    else if IsFlag(parts[i]) then
      Scan(parts, i + 2, kv[KeyOf(parts[i]) := ValueAfter(parts, i, value, missing)], value, missing)
    else Scan(parts, i + 1, kv, value, missing)
  }

  /** The token after a flag is its value and is never read as a key, even when it
      starts with `--`. */
  lemma {:induction false} ValueNeverKey(parts: seq<string>, i: nat)
    ensures forall j :: j in Visits(parts, i) && IsFlag(parts[j]) ==> j + 1 !in Visits(parts, i)
    decreases |parts| - i
  {
    if i < |parts| {
      ValueNeverKey(parts, Step(parts, i));
    }
  }

  /** The value a flag at `j` stores. */
  function ValueAfter<V>(parts: seq<string>, j: nat, value: string -> V, missing: V): V {
    if j + 1 < |parts| then value(parts[j + 1]) else missing
  }

  /** Some flag the scan from `i` reads names `key`. */
  predicate FlagFor(parts: seq<string>, i: nat, key: string) {
    exists j :: j in Visits(parts, i) && IsFlag(parts[j]) && KeyOf(parts[j]) == key
  }

  /** No flag the scan from `i` reads after position `j` names `key`. */
  predicate NoLaterFlagFor(parts: seq<string>, i: nat, j: int, key: string) {
    forall j' :: j' in Visits(parts, i) && j' > j && IsFlag(parts[j']) ==> KeyOf(parts[j']) != key
  }

  /** The scan sets a key exactly when some flag read as a key names it, or it was
      set before. */
  lemma {:induction false} ScanKeys<V>(parts: seq<string>, i: nat, kv: map<string, V>, value: string -> V, missing: V, key: string)
    ensures key in Scan(parts, i, kv, value, missing) <==> key in kv || FlagFor(parts, i, key)
    decreases |parts| - i
  {
    if i < |parts| {
      var j := Step(parts, i);
      assert Visits(parts, i) == [i] + Visits(parts, j);
      if IsFlag(parts[i]) {
        ScanKeys(parts, j, kv[KeyOf(parts[i]) := ValueAfter(parts, i, value, missing)], value, missing, key);
      } else {
        ScanKeys(parts, j, kv, value, missing, key);
      }
      if FlagFor(parts, j, key) {
        var j' :| j' in Visits(parts, j) && IsFlag(parts[j']) && KeyOf(parts[j']) == key;
        assert j' in Visits(parts, i);
      }
    }
  }

  /** A repeated key keeps the value of the last flag that names it. */
  lemma {:induction false} ScanLastWins<V>(parts: seq<string>, i: nat, kv: map<string, V>, value: string -> V, missing: V, j: nat)
    requires j in Visits(parts, i) && IsFlag(parts[j]) && NoLaterFlagFor(parts, i, j, KeyOf(parts[j]))
    ensures var r := Scan(parts, i, kv, value, missing);
      KeyOf(parts[j]) in r && r[KeyOf(parts[j])] == ValueAfter(parts, j, value, missing)
    decreases |parts| - i
  {
    var next := Step(parts, i);
    assert Visits(parts, i) == [i] + Visits(parts, next);
    var kv' := if IsFlag(parts[i]) then kv[KeyOf(parts[i]) := ValueAfter(parts, i, value, missing)] else kv;
    assert Scan(parts, i, kv, value, missing) == Scan(parts, next, kv', value, missing);
    if j == i {
      ScanUntouched(parts, next, kv', value, missing, KeyOf(parts[j]));
    } else {
      ScanLastWins(parts, next, kv', value, missing, j);
    }
  }

  /** A key no flag names keeps the value it had. */
  lemma {:induction false} ScanUntouched<V>(parts: seq<string>, i: nat, kv: map<string, V>, value: string -> V, missing: V, key: string)
    requires key in kv && NoLaterFlagFor(parts, i, -1, key)
    ensures var r := Scan(parts, i, kv, value, missing); key in r && r[key] == kv[key]
    decreases |parts| - i
  {
    if i < |parts| {
      var next := Step(parts, i);
      assert Visits(parts, i) == [i] + Visits(parts, next);
      var kv' := if IsFlag(parts[i]) then kv[KeyOf(parts[i]) := ValueAfter(parts, i, value, missing)] else kv;
      assert Scan(parts, i, kv, value, missing) == Scan(parts, next, kv', value, missing);
      ScanUntouched(parts, next, kv', value, missing, key);
    }
  }

  /** The last token is a flag the scan from `i` reads as a key, so its value is
      missing. */
  predicate TrailingFlag(parts: seq<string>, i: nat) {
    |parts| > 0 && (|parts| - 1) in Visits(parts, i) && IsFlag(parts[|parts| - 1])
  }

  /** Reading a key at `i` that is not the last token leaves the trailing-flag
      question to the rest of the scan. */
  lemma TrailingFlagStep(parts: seq<string>, i: nat)
    requires i < |parts|
    ensures TrailingFlag(parts, i) <==>
      (i == |parts| - 1 && IsFlag(parts[i])) || TrailingFlag(parts, Step(parts, i))
  {
    assert Visits(parts, i) == [i] + Visits(parts, Step(parts, i));
  }

  // ---------------------------------------------------------------------------
  // %mariadb_connect name --key value ...

  function Given(t: string): Option<string> {
    Some(t)
  }

  /** The flag loop of `%mariadb_connect`, from the token after the name: a flag
      stores the next token (or `None` when it is last) under its key and skips it. */
  method ParseConnectFlags(parts: seq<string>) returns (kv: map<string, Option<string>>)
    ensures kv == Scan(parts, 1, map[], Given, None)
  {
    kv := map[];
    var i := 1;
    while i < |parts|
      invariant 1 <= i
      invariant Scan(parts, i, kv, Given, None) == Scan(parts, 1, map[], Given, None)
      decreases |parts| - i
    {
      var key := parts[i];
      if StartsWith(key, "--") {
        var val := if i + 1 < |parts| then Some(parts[i + 1]) else None;
        kv := kv[key[2..] := val];
        i := i + 2;
      } else {
        i := i + 1;
      }
    }
  }

  function ConfigValueOf(v: Option<string>): Connection.ConfigValue {
    match v
    case Some(t) => Connection.Text(t)
    case None => Connection.NoValue
  }

  /** The keyword arguments `connect` receives: each value as text (or `None`), and
      the port, when one was given, converted with `int`. */
  function ConfigOf(kv: map<string, Option<string>>): (r: Result<Connection.Config, CommandError>)
    ensures r.Ok? ==> r.value.Keys == kv.Keys
    ensures r.Ok? ==> forall k :: k in kv && k != "port" ==> r.value[k] == ConfigValueOf(kv[k])
    ensures "port" in kv ==> (r.Ok? <==> kv["port"].Some? && ParseInt(kv["port"].value).Some?)
    ensures r.Ok? && "port" in kv ==> r.value["port"] == Connection.Number(ParseInt(kv["port"].value).value)
    ensures "port" in kv && kv["port"].None? ==> r == Err(PortWithoutValue)
    ensures "port" in kv && kv["port"].Some? && ParseInt(kv["port"].value).None? ==>
      r == Err(PortNotInteger(kv["port"].value))
    ensures "port" !in kv ==> r.Ok?
  {
    var config := map k | k in kv :: ConfigValueOf(kv[k]);
    if "port" !in kv then Ok(config)
    else
      match kv["port"]
      case None => Err(PortWithoutValue)
      case Some(t) =>
        match ParseInt(t)
        case None => Err(PortNotInteger(t))
        case Some(n) => Ok(config["port" := Connection.Number(n)])
  }

  datatype ConnectPlan =
    | ConnectUsage
    | ConnectRejected(error: CommandError)
    | ConnectCall(name: string, config: Connection.Config)

  /** What `%mariadb_connect` does with its tokens: usage for none; else the name,
      the scanned flags, the port conversion, and the keyword clashes. A `--name`
      key fails at the call of the module-level `connect`; a `--self` key passes it
      and fails at the call of the registry's method, still before the registry is
      touched. */
  function PlanConnect(parts: seq<string>): (r: ConnectPlan)
    ensures r == ConnectUsage <==> parts == []
    ensures r.ConnectCall? ==>
      var kv := Scan(parts, 1, map[], Given, None);
      && r.name == parts[0]
      && "name" !in kv && "self" !in kv
      && ConfigOf(kv) == Ok(r.config)
    ensures parts != [] ==>
      var config := ConfigOf(Scan(parts, 1, map[], Given, None));
      && (config.Err? ==> r == ConnectRejected(config.error))
      && (config.Ok? && FlagFor(parts, 1, "name") ==> r == ConnectRejected(KeywordClash("name")))
      && (config.Ok? && !FlagFor(parts, 1, "name") && FlagFor(parts, 1, "self") ==>
            r == ConnectRejected(KeywordClash("self")))
      && (config.Ok? && !FlagFor(parts, 1, "name") && !FlagFor(parts, 1, "self") ==>
            r == ConnectCall(parts[0], config.value))
  {
    if parts == [] then ConnectUsage
    else
      var kv := Scan(parts, 1, map[], Given, None);
      ScanKeys(parts, 1, map[], Given, None, "name");
      ScanKeys(parts, 1, map[], Given, None, "self");
      match ConfigOf(kv)
      case Err(e) => ConnectRejected(e)
      case Ok(config) =>
        if "name" in kv then ConnectRejected(KeywordClash("name"))
        else if "self" in kv then ConnectRejected(KeywordClash("self"))
        else ConnectCall(parts[0], config)
  }

  /** A `--port` flag read as a key with a decimal value arrives as that number, and
      the other flags' values arrive as text. */
  lemma ConnectPort(parts: seq<string>, j: nat, n: nat)
    requires j in Visits(parts, 1) && parts[j] == "--port" && NoLaterFlagFor(parts, 1, j, "port")
    requires j + 1 < |parts| && Spells(parts[j + 1], n)
    requires !FlagFor(parts, 1, "name") && !FlagFor(parts, 1, "self")
    ensures PlanConnect(parts).ConnectCall?
    ensures "port" in PlanConnect(parts).config && PlanConnect(parts).config["port"] == Connection.Number(n)
  {
    var kv := Scan(parts, 1, map[], Given, None);
    assert KeyOf(parts[j]) == "port";
    ScanLastWins(parts, 1, map[], Given, None, j);
    assert "port" in kv && kv["port"] == Some(parts[j + 1]);
    ScanKeys(parts, 1, map[], Given, None, "name");
    ScanKeys(parts, 1, map[], Given, None, "self");
    ParseIntOfSpelling(parts[j + 1], n);
    var config := ConfigOf(kv);
    assert config.Ok? && config.value["port"] == Connection.Number(n);
    assert PlanConnect(parts) == ConnectCall(parts[0], config.value);
  }

  /** Without a `--port` flag the configuration has no port. */
  lemma ConnectWithoutPort(parts: seq<string>)
    requires parts != [] && !FlagFor(parts, 1, "port") && !FlagFor(parts, 1, "name") && !FlagFor(parts, 1, "self")
    ensures PlanConnect(parts).ConnectCall? && "port" !in PlanConnect(parts).config
  {
    ScanKeys(parts, 1, map[], Given, None, "port");
    ScanKeys(parts, 1, map[], Given, None, "name");
    ScanKeys(parts, 1, map[], Given, None, "self");
  }

  datatype ConnectOutcome =
    | ShowedUsage
    | Rejected(error: CommandError)
    | DriverFailed
    | Connected(cw: Connection.ConnectionWrapper)

  /** `%mariadb_connect`: read the tokens, then register the connection. Nothing is
      registered or closed unless the tokens form a call. */
  method MariadbConnect(mgr: Connection.ConnectionManager, parts: seq<string>, replies: Connection.DriverReplies, now: int)
    returns (out: ConnectOutcome)
    requires mgr.Valid()
    modifies mgr, if parts == [] then {} else mgr.HandleOf(parts[0])
    ensures mgr.Valid()
    ensures parts == [] ==> out == ShowedUsage
    ensures !PlanConnect(parts).ConnectCall? ==>
      && mgr.conns == old(mgr.conns) && mgr.order == old(mgr.order) && !out.Connected? && !out.DriverFailed?
      && (parts != [] && parts[0] in old(mgr.conns) ==>
            old(mgr.conns)[parts[0]].conn.closeCalls == old(mgr.conns[parts[0]].conn.closeCalls))
    ensures PlanConnect(parts).ConnectRejected? ==> out == Rejected(PlanConnect(parts).error)
    ensures PlanConnect(parts).ConnectCall? ==>
      var name := parts[0];
      && (name in old(mgr.conns) && replies.pingOk ==>
            && out == Connected(old(mgr.conns)[name]) && mgr.conns == old(mgr.conns) && mgr.order == old(mgr.order)
            && old(mgr.conns)[name].conn.closeCalls == old(mgr.conns[name].conn.closeCalls))
      && (name in old(mgr.conns) && !replies.pingOk ==>
            old(mgr.conns)[name].conn.closeCalls == old(mgr.conns[name].conn.closeCalls) + 1)
      && (!(name in old(mgr.conns) && replies.pingOk) && replies.connectOk ==>
            && out.Connected? && fresh(out.cw) && fresh(out.cw.conn)
            && out.cw.config == PlanConnect(parts).config && out.cw.lastUsed == now
            && mgr.conns == old(mgr.conns)[name := out.cw] && mgr.order == Connection.Without(old(mgr.order), name) + [name])
      && (!(name in old(mgr.conns) && replies.pingOk) && !replies.connectOk ==>
            && out == DriverFailed
            && mgr.conns == old(mgr.conns) - {name} && mgr.order == Connection.Without(old(mgr.order), name))
  {
    if parts == [] {
      return ShowedUsage;
    }
    var name := parts[0];
    var kv := ParseConnectFlags(parts);
    var config := ConfigOf(kv);
    if config.Err? {
      return Rejected(config.error);
    }
    if "name" in kv {
      return Rejected(KeywordClash("name"));
    }
    if "self" in kv {
      return Rejected(KeywordClash("self"));
    }
    var r := mgr.Connect(name, config.value, replies, now);
    match r {
      case Ok(cw) => out := Connected(cw);
      case Err(_) => out := DriverFailed;
    }
  }

  // ---------------------------------------------------------------------------
  // %mariadb conn_name <sql>   and   %%mariadb conn_name + cell

  datatype SqlPlan = SqlUsage | SqlCall(conn: string, sql: string)

  /** `%mariadb`: the SQL is the cell when there is one, else the tokens after the
      connection name joined by single spaces. */
  function PlanSql(parts: seq<string>, cell: Option<string>): (r: SqlPlan)
    ensures r == SqlUsage <==> parts == []
    ensures r.SqlCall? ==> r.conn == parts[0]
    ensures r.SqlCall? && cell.Some? ==> r.sql == cell.value
    ensures r.SqlCall? && cell.None? ==> r.sql == Join(parts[1..], ' ')
  {
    if parts == [] then SqlUsage
    else if cell.Some? then SqlCall(parts[0], cell.value)
    else SqlCall(parts[0], Join(parts[1..], ' '))
  }

  /** In line mode, splitting the SQL on spaces gives back the tokens after the name
      when none of them contains a space; with no tokens after it the SQL is empty. */
  lemma LineSqlTokens(parts: seq<string>)
    requires parts != []
    requires forall k :: 1 <= k < |parts| ==> ' ' !in parts[k]
    ensures |parts| == 1 ==> PlanSql(parts, None).sql == ""
    ensures |parts| > 1 ==> Split(PlanSql(parts, None).sql, ' ') == parts[1..]
  {
    if |parts| > 1 {
      SplitJoin(parts[1..], ' ');
    }
  }

  // ---------------------------------------------------------------------------
  // %mariadb_vector conn_name table "text" [--top_k N] [--embed_column C]

  /** An option value: a string of ASCII digits becomes an int, anything else stays text. */
  datatype OptValue = IntOpt(n: int) | TextOpt(text: string)

  function OptOf(t: string): (v: OptValue)
    ensures v.IntOpt? <==> IsDigitString(t)
    ensures v.IntOpt? ==> v.n >= 0 && Spells(t, v.n)
    ensures v.TextOpt? ==> v.text == t
  {
    if IsDigitString(t) then
      DigitsSpell(t);
      IntOpt(DecimalValue(t))
    else TextOpt(t)
  }

  const VectorDefaults: map<string, OptValue> := map["top_k" := IntOpt(10), "embed_column" := TextOpt("embedding")]

  /** The scan of `%mariadb_vector` never stores a value-less flag (it fails first),
      so the value it would store for one is immaterial. */
  const NoOptValue := TextOpt("")

  function VectorOptions(parts: seq<string>): map<string, OptValue> {
    Scan(parts, 3, VectorDefaults, OptOf, NoOptValue)
  }

  datatype VectorPlan =
    | VectorUsage
    | VectorRejected(error: CommandError)
    | VectorCall(conn: string, table: string, query: string, topK: OptValue, embedColumn: OptValue)

  /** `%mariadb_vector`'s reading of its tokens: usage for fewer than three; the index
      error for a last token that is a flag read as a key; else the three positional
      tokens and the two options, defaults overridden by flags. */
  method MariadbVectorArgs(parts: seq<string>) returns (plan: VectorPlan)
    ensures |parts| < 3 ==> plan == VectorUsage
    ensures |parts| >= 3 && TrailingFlag(parts, 3) ==> plan == VectorRejected(MissingValue(parts[|parts| - 1]))
    ensures |parts| >= 3 && !TrailingFlag(parts, 3) ==>
      var opts := VectorOptions(parts);
      && "top_k" in opts && "embed_column" in opts
      && plan == VectorCall(parts[0], parts[1], parts[2], opts["top_k"], opts["embed_column"])
  {
    if |parts| < 3 {
      return VectorUsage;
    }
    var opts := VectorDefaults;
    var i := 3;
    while i < |parts|
      invariant 3 <= i
      invariant Scan(parts, i, opts, OptOf, NoOptValue) == VectorOptions(parts)
      invariant TrailingFlag(parts, i) <==> TrailingFlag(parts, 3)
      invariant "top_k" in opts && "embed_column" in opts
      decreases |parts| - i
    {
      TrailingFlagStep(parts, i);
      var p := parts[i];
      if StartsWith(p, "--") {
        var key := p[2..];
        if i + 1 >= |parts| {
          return VectorRejected(MissingValue(p));
        }
        var val := parts[i + 1];
        opts := opts[key := if IsDigitString(val) then IntOpt(DecimalValue(val)) else TextOpt(val)];
        i := i + 2;
      } else {
        i := i + 1;
      }
    }
    ScanKeys(parts, i, opts, OptOf, NoOptValue, "top_k");
    ScanKeys(parts, i, opts, OptOf, NoOptValue, "embed_column");
    return VectorCall(parts[0], parts[1], parts[2], opts["top_k"], opts["embed_column"]);
  }

  /** `top_k` is 10 unless a flag read as a key sets it; the last such flag wins, and
      its value is an int exactly when it is all digits. */
  lemma VectorTopK(parts: seq<string>)
    requires |parts| >= 3 && !TrailingFlag(parts, 3)
    ensures "top_k" in VectorOptions(parts)
    ensures !FlagFor(parts, 3, "top_k") ==> VectorOptions(parts)["top_k"] == IntOpt(10)
    ensures forall j :: j in Visits(parts, 3) && IsFlag(parts[j]) && KeyOf(parts[j]) == "top_k" && NoLaterFlagFor(parts, 3, j, "top_k") ==>
      j + 1 < |parts| && VectorOptions(parts)["top_k"] == OptOf(parts[j + 1])
  {
    ScanKeys(parts, 3, VectorDefaults, OptOf, NoOptValue, "top_k");
    if !FlagFor(parts, 3, "top_k") {
      ScanUntouched(parts, 3, VectorDefaults, OptOf, NoOptValue, "top_k");
    }
    forall j | j in Visits(parts, 3) && IsFlag(parts[j]) && KeyOf(parts[j]) == "top_k" && NoLaterFlagFor(parts, 3, j, "top_k")
      ensures j + 1 < |parts| && VectorOptions(parts)["top_k"] == OptOf(parts[j + 1])
    {
      LastTopK(parts, j);
    }
  }

  lemma LastTopK(parts: seq<string>, j: nat)
    requires |parts| >= 3 && !TrailingFlag(parts, 3)
    requires j in Visits(parts, 3) && IsFlag(parts[j]) && KeyOf(parts[j]) == "top_k" && NoLaterFlagFor(parts, 3, j, "top_k")
    ensures j + 1 < |parts| && VectorOptions(parts)["top_k"] == OptOf(parts[j + 1])
  {
    ScanLastValue(parts, 3, VectorDefaults, OptOf, NoOptValue, j);
  }

  /** Without a trailing flag, the last flag naming a key stores the token after it. */
  lemma ScanLastValue<V>(parts: seq<string>, i: nat, kv: map<string, V>, value: string -> V, missing: V, j: nat)
    requires !TrailingFlag(parts, i)
    requires j in Visits(parts, i) && IsFlag(parts[j]) && NoLaterFlagFor(parts, i, j, KeyOf(parts[j]))
    ensures j + 1 < |parts|
    ensures var r := Scan(parts, i, kv, value, missing); KeyOf(parts[j]) in r && r[KeyOf(parts[j])] == value(parts[j + 1])
  {
    assert j != |parts| - 1;
    ScanLastWins(parts, i, kv, value, missing, j);
  }

  // ---------------------------------------------------------------------------
  // %mariadb_time conn_name "<sql>" as_of YYYY-MM-DD [--temporal_keyword KW]

  predicate IsIsoDate(t: string) {
    && |t| == 10
    && IsDigit(t[0]) && IsDigit(t[1]) && IsDigit(t[2]) && IsDigit(t[3]) && t[4] == '-'
    && IsDigit(t[5]) && IsDigit(t[6]) && t[7] == '-' && IsDigit(t[8]) && IsDigit(t[9])
  }

  const Midnight := " 00:00:00"

  /** A bare `YYYY-MM-DD` date means midnight of that day; anything else is passed on. */
  function NormalizeAsOf(asOf: string): (r: string)
    ensures IsIsoDate(asOf) ==> r == asOf + Midnight
    ensures !IsIsoDate(asOf) ==> r == asOf
  {
    if IsIsoDate(asOf) then asOf + Midnight else asOf
  }

  /** Normalising twice is normalising once; the result is never a bare date. */
  lemma NormalizeIdempotent(asOf: string)
    ensures NormalizeAsOf(NormalizeAsOf(asOf)) == NormalizeAsOf(asOf)
    ensures !IsIsoDate(NormalizeAsOf(asOf))
  {
  }

  datatype TimePlan =
    | TimeUsage
    | TimeRejected(error: CommandError)
    | TimeCall(conn: string, sql: string, asOf: string, dialectOverride: map<string, string>)

  /** Python's `parts[1:ai]`. */
  function Between(parts: seq<string>, ai: nat): seq<string>
    requires ai <= |parts|
  {
    if ai >= 1 then parts[1..ai] else []
  }

  /** `%mariadb_time`'s reading of its tokens. */
  function PlanTime(parts: seq<string>): (r: TimePlan)
    ensures r == TimeUsage <==> "as_of" !in parts
    ensures r.TimeCall? ==> parts != [] && r.conn == parts[0]
    ensures r.TimeCall? ==> exists ai ::
      && 0 <= ai < |parts| - 1 && parts[ai] == "as_of" && "as_of" !in parts[..ai]
      && r.sql == Join(Between(parts, ai), ' ')
      && r.asOf == NormalizeAsOf(parts[ai + 1])
    ensures r.TimeCall? ==>
      && ("--temporal_keyword" !in parts ==> r.dialectOverride == map[])
      && ("--temporal_keyword" in parts ==> exists idx ::
            && 0 <= idx < |parts| - 1 && parts[idx] == "--temporal_keyword" && "--temporal_keyword" !in parts[..idx]
            && r.dialectOverride == map["temporal_keyword" := parts[idx + 1]])
  {
    match IndexOf(parts, "as_of")
    case None => TimeUsage
    case Some(ai) =>
      var sql := Join(Between(parts, ai), ' ');
      if ai + 1 >= |parts| then TimeRejected(MissingValue("as_of"))
      else
        var asOf := parts[ai + 1];
        match IndexOf(parts, "--temporal_keyword")
        case Some(idx) =>
          if idx + 1 >= |parts| then TimeRejected(MissingValue("--temporal_keyword"))
          else TimeCall(parts[0], sql, NormalizeAsOf(asOf), map["temporal_keyword" := parts[idx + 1]])
        case None => TimeCall(parts[0], sql, NormalizeAsOf(asOf), map[])
  }

  /** The command fails exactly when the first `as_of`, or the first
      `--temporal_keyword`, is the last token. */
  lemma TimeRejectedWhen(parts: seq<string>)
    ensures PlanTime(parts).TimeRejected? <==>
      || (IndexOf(parts, "as_of").Some? && IndexOf(parts, "as_of").value == |parts| - 1)
      || (IndexOf(parts, "as_of").Some? && IndexOf(parts, "--temporal_keyword").Some?
          && IndexOf(parts, "--temporal_keyword").value == |parts| - 1)
  {
    var ai := IndexOf(parts, "as_of");
    var ki := IndexOf(parts, "--temporal_keyword");
    if ai.None? {
      assert PlanTime(parts) == TimeUsage;
    } else if ai.value + 1 >= |parts| {
      assert PlanTime(parts) == TimeRejected(MissingValue("as_of"));
    } else if ki.Some? && ki.value + 1 >= |parts| {
      assert PlanTime(parts) == TimeRejected(MissingValue("--temporal_keyword"));
    } else {
      assert PlanTime(parts).TimeCall?;
    }
  }

  /** What `%mariadb_time` hands to the rewriter and the registry. */
  function TimeQuery(mgr: Connection.ConnectionManager, parts: seq<string>): (r: Option<Result<Temporal.Statement, Temporal.TemporalError>>)
    reads mgr
    ensures r.None? <==> !PlanTime(parts).TimeCall?
    ensures r.Some? ==> var plan := PlanTime(parts);
      && r.value == Temporal.TemporalQuery(mgr, plan.conn, plan.sql, plan.asOf, Some(plan.dialectOverride))
      && (r.value.Ok? <==> Temporal.HasFromClause(plan.sql) && plan.conn in mgr.conns)
      && (r.value.Ok? ==> r.value.value.conn == mgr.conns[plan.conn])
      && (r.value.Ok? ==>
            r.value.value.sql
            == Temporal.ExpandTemporalSql(plan.sql, plan.asOf, Temporal.SelectKeyword(Some(plan.dialectOverride))).value)
  {
    match PlanTime(parts)
    case TimeCall(conn, sql, asOf, o) => Some(Temporal.TemporalQuery(mgr, conn, sql, asOf, Some(o)))
    case _ => None
  }

  /** The documented `%mariadb_time default "SELECT * FROM experiments WHERE metric > 0.5"
      as_of 2024-01-01`: the date becomes midnight, no keyword override is given, and the
      rewritten statement carries the default clause after `experiments`. */
  lemma ExampleTimeCommand()
    ensures var parts := ["default", Temporal.ExampleQuery, "as_of", "2024-01-01"];
      && PlanTime(parts) == TimeCall("default", Temporal.ExampleQuery, Temporal.ExampleAsOf, map[])
      && Temporal.ExpandTemporalSql(Temporal.ExampleQuery, Temporal.ExampleAsOf, Temporal.SelectKeyword(Some(map[])))
         == Ok(Temporal.ExamplePrefix
               + Temporal.Injection(Temporal.ExampleTable, Temporal.DefaultKeyword, Temporal.ExampleAsOf)
               + Temporal.ExampleSuffix)
  {
    var parts := ["default", Temporal.ExampleQuery, "as_of", "2024-01-01"];
    assert IndexOf(parts, "as_of") == Some(2);
    assert IndexOf(parts, "--temporal_keyword") == None;
    assert Between(parts, 2) == [Temporal.ExampleQuery];
    assert IsIsoDate("2024-01-01");
    assert "2024-01-01" + Midnight == Temporal.ExampleAsOf;
    Temporal.ExperimentsExample();
  }
}
