/** The named connection registry: one wrapper per caller-chosen name, a liveness
    probe before reuse, and replacement of a handle whose probe fails. The driver is
    foreign code, so what its ping, close and connect calls do is given by parameters. */
module Connection {
  import opened Outcomes

  /** A keyword argument of the driver's connect call: text, an integer (the port)
      or Python's `None`. */
  datatype ConfigValue = Text(text: string) | Number(number: int) | NoValue

  type Config = map<string, ConfigValue>

  /** How the driver answers the calls one `connect` may make. */
  datatype DriverReplies = DriverReplies(pingOk: bool, closeFails: bool, connectOk: bool)

  /** The driver's connect call raised; the registry keeps no entry for the name. */
  datatype ConnectError = DriverConnectFailed

  /** `get_connection` found nothing under the name (a `RuntimeError` in the source). */
  datatype LookupError = NotConnected(name: string)

  /** The driver's connection handle. It only records how many times it was closed. */
  class DriverConnection {
    var closeCalls: nat

    constructor ()
      ensures closeCalls == 0
    {
      closeCalls := 0;
    }

    /** The driver's `close()`; `fails` says whether it raises afterwards. */
    method Close(fails: bool) returns (raised: bool)
      modifies this
      ensures closeCalls == old(closeCalls) + 1
      ensures raised == fails
    {
      closeCalls := closeCalls + 1;
      raised := fails;
    }
  }

  /** A live handle together with the configuration that created it and the time of
      its last use (connection.py:9-23). */
  class ConnectionWrapper {
    const conn: DriverConnection
    const config: Config
    var lastUsed: int

    constructor (conn: DriverConnection, config: Config, now: int)
      ensures this.conn == conn && this.config == config && lastUsed == now
    {
      this.conn := conn;
      this.config := config;
      lastUsed := now;
    }

    /** Opening a cursor refreshes the last-used time; the cursor runs on `conn`. */
    method Cursor(now: int) returns (handle: DriverConnection)
      modifies this
      ensures lastUsed == now && handle == conn
    {
      lastUsed := now;
      handle := conn;
    }

    /** Closing never raises: whatever the driver's close raises is swallowed, which
        is why nothing is returned. */
    method Close(driverFails: bool)
      modifies conn
      ensures conn.closeCalls == old(conn.closeCalls) + 1
    {
      var _ := conn.Close(driverFails);
    }
  }

  predicate Distinct(s: seq<string>) {
    forall i, j :: 0 <= i < j < |s| ==> s[i] != s[j]
  }

  /** `s` with every occurrence of `x` taken out, order kept. */
  function Without(s: seq<string>, x: string): (r: seq<string>)
    ensures forall y :: y in r <==> y in s && y != x
    ensures Distinct(s) ==> Distinct(r)
    ensures x !in s ==> r == s
    decreases |s|
  {
    if s == [] then []
    else
      var rest := Without(s[1..], x);
      if s[0] == x then rest
      else
        assert forall k :: 0 <= k < |rest| ==> rest[k] in s[1..];
        [s[0]] + rest
  }

  /** Removing the first name of a list without repetitions leaves the rest. */
  lemma WithoutHead(s: seq<string>)
    requires s != [] && Distinct(s)
    ensures Without(s, s[0]) == s[1..]
  {
    assert s[0] !in s[1..];
  }

  /** In a list without repetitions, deleting the name at `i` leaves the names before
      it and the names after it, each in their order. */
  lemma {:induction false} WithoutAt(s: seq<string>, i: nat)
    requires Distinct(s) && i < |s|
    ensures Without(s, s[i]) == s[..i] + s[i + 1..]
    decreases i
  {
    if i == 0 {
      WithoutHead(s);
    } else {
      assert s[1..][i - 1] == s[i];
      WithoutAt(s[1..], i - 1);
      assert s[1..][..i - 1] == s[1..i] && s[1..][i..] == s[i + 1..];
      assert s[..i] == [s[0]] + s[1..i];
    }
  }

  /** The registry (connection.py:26-66): a dictionary from name to wrapper. `order`
      is the dictionary's key order, which `close_all` copies and walks. */
  class ConnectionManager {
    var conns: map<string, ConnectionWrapper>
    var order: seq<string>

    /** The key order lists each registered name once, and no two names share a
        driver handle. */
    ghost predicate Valid()
      reads this
    {
      && Distinct(order)
      && (forall n :: n in conns <==> n in order)
      && (forall a, b :: a in conns && b in conns && a != b ==> conns[a].conn != conns[b].conn)
    }

    /** The driver handles the registry owns. */
    ghost function Handles(): set<DriverConnection>
      reads this
    {
      set n | n in conns :: conns[n].conn
    }

    /** The handle registered under `name`, if any. */
    ghost function HandleOf(name: string): set<DriverConnection>
      reads this
    {
      if name in conns then {conns[name].conn} else {}
    }

    constructor ()
      ensures Valid() && conns == map[] && order == []
    {
      conns := map[];
      order := [];
    }

    /** `connect(name, **config)`: reuse the registered wrapper if its ping succeeds
        (the new configuration is then ignored); otherwise close and drop it, and
        register a new wrapper if the driver connects. */
    method Connect(name: string, config: Config, replies: DriverReplies, now: int)
      returns (r: Result<ConnectionWrapper, ConnectError>)
      requires Valid()
      modifies this, HandleOf(name)
      ensures Valid()
      ensures name in old(conns) && replies.pingOk ==>
        && r == Ok(old(conns)[name]) && conns == old(conns) && order == old(order)
        && old(conns)[name].conn.closeCalls == old(conns[name].conn.closeCalls)
      ensures name in old(conns) && !replies.pingOk ==>
        old(conns)[name].conn.closeCalls == old(conns[name].conn.closeCalls) + 1
      ensures !(name in old(conns) && replies.pingOk) && replies.connectOk ==>
        && r.Ok? && fresh(r.value) && fresh(r.value.conn)
        && r.value.config == config && r.value.lastUsed == now
        && conns == old(conns)[name := r.value]
        && order == Without(old(order), name) + [name]
      ensures !(name in old(conns) && replies.pingOk) && !replies.connectOk ==>
        r == Err(DriverConnectFailed) && conns == old(conns) - {name} && order == Without(old(order), name)
    {
      if name in conns {
        var cw := conns[name];
        if replies.pingOk {
          return Ok(cw);
        }
        // closing the wrapper and deleting the entry is what `close(name)` does
        Close(name, replies.closeFails);
      }
      r := Open(name, config, replies.connectOk, now);
    }

    /** `mariadb.connect(**db_config)` and `self._conns[name] = cw` for a name that is
        not registered: on success a new wrapper around a new handle goes last in key
        order; a failed driver connect raises and leaves the registry as it was. */
    method Open(name: string, config: Config, connectOk: bool, now: int)
      returns (r: Result<ConnectionWrapper, ConnectError>)
      requires Valid() && name !in conns
      modifies this
      ensures Valid()
      ensures connectOk ==>
        && r.Ok? && fresh(r.value) && fresh(r.value.conn)
        && r.value.config == config && r.value.lastUsed == now
        && conns == old(conns)[name := r.value] && order == old(order) + [name]
      ensures !connectOk ==> r == Err(DriverConnectFailed) && conns == old(conns) && order == old(order)
    {
      if !connectOk {
        return Err(DriverConnectFailed);
      }
      var handle := new DriverConnection();
      var cw := new ConnectionWrapper(handle, config, now);
      conns := conns[name := cw];
      order := order + [name];
      r := Ok(cw);
    }

    /** `get(name)`: a lookup that never changes the registry. */
    function Get(name: string): (r: Option<ConnectionWrapper>)
      reads this
      ensures r.Some? <==> name in conns
      ensures r.Some? ==> r.value == conns[name]
    {
      if name in conns then Some(conns[name]) else None
    }

    /** `close(name)`: drop the entry and close its wrapper; an unknown name is a no-op. */
    method Close(name: string, driverFails: bool)
      requires Valid()
      modifies this, HandleOf(name)
      ensures Valid()
      ensures conns == old(conns) - {name} && order == Without(old(order), name)
      ensures Handles() == old(Handles()) - old(HandleOf(name))
      ensures forall h :: h in old(HandleOf(name)) ==> h.closeCalls == old(h.closeCalls) + 1
      ensures forall h :: h in old(Handles()) - old(HandleOf(name)) ==> h.closeCalls == old(h.closeCalls)
    {
      if name in conns {
        var cw := conns[name];
        conns := conns - {name};
        order := Without(order, name);
        cw.Close(driverFails);
      }
    }

    /** `close_all()`: walk a copy of the key list and close each name; afterwards the
        registry is empty and every handle it held was closed exactly once. */
    method CloseAll(driverFails: string -> bool)
      requires Valid()
      modifies this, Handles()
      ensures Valid() && conns == map[] && order == []
      ensures forall h :: h in old(Handles()) ==> h.closeCalls == old(h.closeCalls) + 1
    {
      var names := order;
      var i := 0;
      while i < |names|
        invariant 0 <= i <= |names|
        invariant Valid()
        invariant order == names[i..]
        invariant Handles() <= old(Handles())
        invariant forall h :: h in Handles() ==> h.closeCalls == old(h.closeCalls)
        invariant forall h :: h in old(Handles()) - Handles() ==> h.closeCalls == old(h.closeCalls) + 1
      {
        var n := names[i];
        assert n in order;
        WithoutHead(order);
        Close(n, driverFails(n));
        i := i + 1;
      }
      assert conns.Keys == {};
    }
  }

  /** `get_connection(name)`: the registered wrapper, or the error the source raises
      exactly when `get` finds nothing. */
  function GetConnection(mgr: ConnectionManager, name: string): (r: Result<ConnectionWrapper, LookupError>)
    reads mgr
    ensures r.Err? <==> mgr.Get(name).None?
    ensures r.Err? ==> r.error == NotConnected(name)
    ensures r.Ok? ==> name in mgr.conns && r.value == mgr.conns[name]
  {
    match mgr.Get(name)
    case None => Err(NotConnected(name))
    case Some(cw) => Ok(cw)
  }
}
