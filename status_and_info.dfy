/**
 * The MySQL monitor: a lazily opened connection, the server status summary
 * (uptime split into hours, minutes and seconds, the connection count
 * without the monitor's own connection), the per-database sizes without the
 * system schemas, and the per-database table row counts and structures.
 *
 * The server is replaced by its replies: each query's result, or the fact
 * that it raised, is an input.
 */
module StatusAndInfo {
  import opened Wrappers
  import opened Strings
  import opened PyValues

  /** The schemas the size report leaves out. */
  const SystemDatabases: set<string> := {"mysql", "sys", "performance_schema", "information_schema"}

  // ------------------------------------------------------------ status

  /** What `fetchone` gave for a `SHOW ... LIKE` query: the row's value
      column, no row at all, or the query raised. */
  datatype Fetch = Row(value: string) | NoRow | Failed

  const TimeKey := "当前时间"
  const UptimeKey := "运行时间"
  const ConnectionsKey := "当前连接数"
  const MaxConnectionsKey := "最大连接数"

  /** `int(s)` for an optional minus sign followed by decimal digits. */
  function IntOf(s: string): (r: Option<int>)
    ensures s != [] && AllDigits(s) ==> r == Some(ParseNat(s))
    ensures |s| > 1 && s[0] == '-' && AllDigits(s[1..]) ==> r == Some(-(ParseNat(s[1..]) as int))
    ensures r.Some? <==> (s != [] && AllDigits(s)) || (|s| > 1 && s[0] == '-' && AllDigits(s[1..]))
  {
    if s != [] && AllDigits(s) then Some(ParseNat(s))
    else if |s| > 1 && s[0] == '-' && AllDigits(s[1..]) then var n: int := ParseNat(s[1..]); Some(-n)
    else None
  }

  predicate AllDigits(s: string) {
    forall i :: 0 <= i < |s| ==> '0' <= s[i] <= '9'
  }

  /** Reading back the decimal text of a non-negative number. */
  lemma IntOfNatToString(n: nat)
    ensures IntOf(NatToString(n)) == Some(n)
  {
    ParseNatToString(n);
  }

  /** Seconds split into whole hours, minutes below 60 and seconds below 60
      (hours are not capped at a day). */
  function SplitUptime(seconds: int): (r: (int, int, int))
    ensures r.0 * 3600 + r.1 * 60 + r.2 == seconds
    ensures 0 <= r.1 < 60 && 0 <= r.2 < 60
    ensures seconds >= 0 ==> r.0 >= 0
  {
    var q, rest := seconds / 3600, seconds % 3600;
    var m, s := rest / 60, rest % 60;
    assert seconds == q * 3600 + m * 60 + s;
    assert seconds == (q * 60 + m) * 60 + s;
    assert seconds % 60 == s;
    (q, m, seconds % 60)
  }

  /** The uptime text `<h>小时<m>分钟<s>秒`. */
  function UptimeText(seconds: int): string {
    var (h, m, s) := SplitUptime(seconds);
    IntToString(h) + "小时" + IntToString(m) + "分钟" + IntToString(s) + "秒"
  }

  /** The connection count without the monitor's own connection, never negative. */
  function ConnectionCount(threads: int): (r: nat)
    ensures r >= threads - 1
    ensures r == 0 || r == threads - 1
    ensures threads >= 1 ==> r == threads - 1
  {
    if threads - 1 > 0 then threads - 1 else 0
  }

  /** The uptime query got as far as it could without raising. */
  predicate UptimeRead(uptime: Fetch) {
    uptime.NoRow? || (uptime.Row? && IntOf(uptime.value).Some?)
  }

  predicate ThreadsRead(threads: Fetch) {
    threads.NoRow? || (threads.Row? && IntOf(threads.value).Some?)
  }

  /** `get_mysql_status`: the four fields, each filled in from its query in
      turn; the first query that raises (or whose value `int` rejects)
      leaves it and every later field at `""`. */
  function MySQLStatus(now: string, uptime: Fetch, threads: Fetch, maxConnections: Fetch): (r: seq<(string, Value)>)
    ensures |r| == 4
    ensures r[0].0 == TimeKey && r[1].0 == UptimeKey && r[2].0 == ConnectionsKey && r[3].0 == MaxConnectionsKey
  {
    var up :=
      if uptime.Row? && IntOf(uptime.value).Some? then Str(UptimeText(IntOf(uptime.value).value)) else Str("");
    var conns :=
      if UptimeRead(uptime) && threads.Row? && IntOf(threads.value).Some?
      then Int(ConnectionCount(IntOf(threads.value).value)) else Str("");
    var maxConns :=
      if UptimeRead(uptime) && ThreadsRead(threads) && maxConnections.Row? then Str(maxConnections.value) else Str("");
    [(TimeKey, Str(now)), (UptimeKey, up), (ConnectionsKey, conns), (MaxConnectionsKey, maxConns)]
  }

  /** What the status report promises: every key is present; a field whose
      query found no row stays `""`; once a query raises every later field
      stays `""`; the uptime decomposes back into the server's seconds; the
      connection count is never negative. */
  lemma StatusFacts(now: string, uptime: Fetch, threads: Fetch, maxConnections: Fetch)
    ensures var r := MySQLStatus(now, uptime, threads, maxConnections);
      && Get(r, TimeKey) == Some(Str(now))
      && Get(r, UptimeKey).Some? && Get(r, ConnectionsKey).Some? && Get(r, MaxConnectionsKey).Some?
      && (uptime.NoRow? ==> Get(r, UptimeKey) == Some(Str("")))
      && (threads.NoRow? ==> Get(r, ConnectionsKey) == Some(Str("")))
      && (maxConnections.NoRow? ==> Get(r, MaxConnectionsKey) == Some(Str("")))
      && (uptime.Failed? ==> Get(r, UptimeKey) == Get(r, ConnectionsKey) == Get(r, MaxConnectionsKey) == Some(Str("")))
      && (UptimeRead(uptime) && threads.Failed? ==> Get(r, ConnectionsKey) == Get(r, MaxConnectionsKey) == Some(Str("")))
      && (UptimeRead(uptime) && ThreadsRead(threads) && maxConnections.Row? ==>
            Get(r, MaxConnectionsKey) == Some(Str(maxConnections.value)))
      && (forall c :: Get(r, ConnectionsKey) == Some(Int(c)) ==> c >= 0)
      && (uptime.Row? && IntOf(uptime.value).Some? ==>
            var (h, m, s) := SplitUptime(IntOf(uptime.value).value);
            Get(r, UptimeKey) == Some(Str(UptimeText(IntOf(uptime.value).value)))
            && h * 3600 + m * 60 + s == IntOf(uptime.value).value)
  {
    var r := MySQLStatus(now, uptime, threads, maxConnections);
    assert TimeKey[0] != UptimeKey[0] && |TimeKey| != |ConnectionsKey| && TimeKey[0] != MaxConnectionsKey[0];
    assert UptimeKey[0] != ConnectionsKey[0] && UptimeKey[0] != MaxConnectionsKey[0];
    assert ConnectionsKey[0] != MaxConnectionsKey[0];
    assert Get(r, TimeKey) == Some(r[0].1);
    assert Get(r, UptimeKey) == Some(r[1].1) by { assert r[1..][0] == r[1]; }
    assert Get(r, ConnectionsKey) == Some(r[2].1) by {
      assert r == r[..2] + r[2..];
      GetAppend(r[..2], r[2..], ConnectionsKey);
    }
    assert Get(r, MaxConnectionsKey) == Some(r[3].1) by {
      assert r == r[..3] + r[3..];
      GetAppend(r[..3], r[3..], MaxConnectionsKey);
    }
  }

  // ------------------------------------------------------------ sizes

  /** One row of the size query: a schema and its summed size, NULL when unknown. */
  datatype SizeRow = SizeRow(db: string, size: Option<nat>)

  /** The size dict after the first rows of the query result. */
  function Sizes(rows: seq<SizeRow>): map<string, nat> {
    if rows == [] then map[]
    else
      var last := rows[|rows| - 1];
      var m := Sizes(rows[..|rows| - 1]);
      if last.db in SystemDatabases then m else m[last.db := last.size.GetOr(0)]
  }

  /** The size report holds exactly the non-system schemas that appear in
      the result, never a system one, each with the size of its last row
      and 0 for NULL. */
  lemma SizesFacts(rows: seq<SizeRow>)
    ensures forall db :: db in Sizes(rows) ==> db !in SystemDatabases
    ensures forall db :: db in Sizes(rows) <==> db !in SystemDatabases && exists i :: 0 <= i < |rows| && rows[i].db == db
    ensures forall db :: db in Sizes(rows) ==>
      exists i :: 0 <= i < |rows| && rows[i].db == db && Sizes(rows)[db] == rows[i].size.GetOr(0)
        && forall j :: i < j < |rows| ==> rows[j].db != db
  {
    SizesKeys(rows);
    SizesLastRow(rows);
  }

  /** The keys are the non-system schemas of the result. */
  lemma {:induction false} SizesKeys(rows: seq<SizeRow>)
    ensures forall db :: db in Sizes(rows) <==> db !in SystemDatabases && exists i :: 0 <= i < |rows| && rows[i].db == db
  {
    if rows != [] {
      var init := rows[..|rows| - 1];
      var last := rows[|rows| - 1];
      SizesKeys(init);
      forall db | db !in SystemDatabases && exists i :: 0 <= i < |rows| && rows[i].db == db
        ensures db in Sizes(rows)
      {
        var i :| 0 <= i < |rows| && rows[i].db == db;
        if i < |init| {
          assert init[i] == rows[i];
        }
      }
      forall db | db in Sizes(rows)
        ensures exists i :: 0 <= i < |rows| && rows[i].db == db
      {
        if db != last.db {
          var i :| 0 <= i < |init| && init[i].db == db;
          assert rows[i] == init[i];
        } else {
          assert rows[|rows| - 1].db == db;
        }
      }
    }
  }

  /** Each value comes from the last row naming that schema. */
  lemma {:induction false} SizesLastRow(rows: seq<SizeRow>)
    ensures forall db :: db in Sizes(rows) ==>
      exists i :: 0 <= i < |rows| && rows[i].db == db && Sizes(rows)[db] == rows[i].size.GetOr(0)
        && forall j :: i < j < |rows| ==> rows[j].db != db
  {
    if rows != [] {
      var init := rows[..|rows| - 1];
      var last := rows[|rows| - 1];
      SizesLastRow(init);
      SizesKeys(init);
      forall db | db in Sizes(rows)
        ensures exists i :: (0 <= i < |rows| && rows[i].db == db && Sizes(rows)[db] == rows[i].size.GetOr(0)
          && (forall j :: i < j < |rows| ==> rows[j].db != db))
      {
        if db == last.db {
          assert rows[|rows| - 1].db == db;
        } else {
          assert db in Sizes(init) && Sizes(rows)[db] == Sizes(init)[db];
          var i :| 0 <= i < |init| && init[i].db == db && Sizes(init)[db] == init[i].size.GetOr(0)
            && forall j :: i < j < |init| ==> init[j].db != db;
          assert rows[i] == init[i];
          assert forall j :: i < j < |rows| ==> rows[j].db != db by {
            forall j | i < j < |rows| ensures rows[j].db != db {
              if j < |init| {
                assert rows[j] == init[j];
              }
            }
          }
        }
      }
    }
  }

  /** `get_database_sizes`: a raising query gives `{}`, otherwise the loop
      over the result fills the dict. */
  method DatabaseSizes(rows: Option<seq<SizeRow>>) returns (results: map<string, nat>)
    ensures rows.None? ==> results == map[]
    ensures rows.Some? ==> results == Sizes(rows.value)
  {
    results := map[];
    if rows.None? {
      return;
    }
    var rs := rows.value;
    var i := 0;
    while i < |rs|
      invariant 0 <= i <= |rs|
      invariant results == Sizes(rs[..i])
    {
      assert rs[..i + 1][..i] == rs[..i];
      var row := rs[i];
      if row.db !in SystemDatabases {
        results := results[row.db := row.size.GetOr(0)];
      }
      i := i + 1;
    }
    assert rs[..i] == rs;
  }

  // ------------------------------------------------------ table rows

  /** One row of the per-database table query: a table and its estimated row count. */
  datatype TableRow = TableRow(table: string, rows: Option<nat>)

  /** The `all_rows` dict after the given databases; `query(db)` is None
      when reading that database raised. */
  function RowsOf(dbs: seq<string>, query: string -> Option<seq<TableRow>>): (r: map<string, seq<TableRow>>)
    ensures forall db :: db in r <==> db in dbs && query(db).Some?
    ensures forall db :: db in r ==> r[db] == query(db).value
  {
    if dbs == [] then map[]
    else
      var last := dbs[|dbs| - 1];
      var m := RowsOf(dbs[..|dbs| - 1], query);
      assert dbs == dbs[..|dbs| - 1] + [last];
      if query(last).Some? then m[last := query(last).value] else m
  }

  // ------------------------------------------------- table structures

  /** The structures of one database's tables, keyed by table name; None as
      soon as describing one of them raised. */
  function StructuresOf(tables: seq<TableRow>, describe: string -> Option<seq<Value>>): (r: Option<map<string, seq<Value>>>)
    ensures r.Some? <==> forall i :: 0 <= i < |tables| ==> describe(tables[i].table).Some?
    ensures r.Some? ==> forall t :: t in r.value <==> exists i :: 0 <= i < |tables| && tables[i].table == t
    ensures r.Some? ==> forall t :: t in r.value ==> r.value[t] == describe(t).value
  {
    if tables == [] then Some(map[])
    else
      var last := tables[|tables| - 1];
      var init := tables[..|tables| - 1];
      var m := StructuresOf(init, describe);
      DescribedSnoc(tables, init, describe);
      if m.None? || describe(last.table).None? then None
      else
        var r := m.value[last.table := describe(last.table).value];
        StructureKeysStep(tables, m.value, r);
        Some(r)
  }

  /** Every table is described exactly when all but the last are and the last is. */
  lemma DescribedSnoc(tables: seq<TableRow>, init: seq<TableRow>, describe: string -> Option<seq<Value>>)
    requires tables != [] && init == tables[..|tables| - 1]
    ensures (forall i :: 0 <= i < |tables| ==> describe(tables[i].table).Some?) <==>
      (forall i :: 0 <= i < |init| ==> describe(init[i].table).Some?) && describe(tables[|tables| - 1].table).Some?
  {
    assert forall i :: 0 <= i < |init| ==> init[i] == tables[i];
  }

  /** Adding the last table's entry keeps the keys equal to the table names. */
  lemma StructureKeysStep(tables: seq<TableRow>, m: map<string, seq<Value>>, r: map<string, seq<Value>>)
    requires tables != []
    requires forall t :: t in m <==> exists i :: 0 <= i < |tables| - 1 && tables[i].table == t
    requires r.Keys == m.Keys + {tables[|tables| - 1].table}
    ensures forall t :: t in r <==> exists i :: 0 <= i < |tables| && tables[i].table == t
  {
    forall t | t in r ensures exists i :: 0 <= i < |tables| && tables[i].table == t {
      if t !in m {
        assert tables[|tables| - 1].table == t;
      }
    }
  }


  /** The `all_structures` dict after the given databases: a database is in
      it exactly when its table list and every one of its tables' structures
      were read. */
  function AllStructures(dbs: seq<string>, query: string -> Option<seq<TableRow>>,
                         describe: string -> string -> Option<seq<Value>>): (r: map<string, map<string, seq<Value>>>)
    ensures forall db :: db in r <==>
      db in dbs && query(db).Some? && StructuresOf(query(db).value, describe(db)).Some?
    ensures forall db :: db in r ==> Some(r[db]) == StructuresOf(query(db).value, describe(db))
  {
    if dbs == [] then map[]
    else
      var last := dbs[|dbs| - 1];
      var m := AllStructures(dbs[..|dbs| - 1], query, describe);
      assert dbs == dbs[..|dbs| - 1] + [last];
      if query(last).Some? && StructuresOf(query(last).value, describe(last)).Some?
      then m[last := StructuresOf(query(last).value, describe(last)).value]
      else m
  }

  // ------------------------------------------------------------ the monitor

  /** The monitor: the configured databases and the connection, opened on
      first use (a handle number stands for the connection object). */
  class MySQLMonitor {
    const databases: seq<string>
    var connection: Option<nat>

    constructor (databases: seq<string>)
      ensures this.databases == databases && connection == None
    {
      this.databases := databases;
      connection := None;
    }

    /** `connect`: an open connection is reused; otherwise `attempt` is what
        opening one gave (None when it raised), and a failure leaves the
        monitor unconnected. */
    method Connect(attempt: Option<nat>) returns (ok: bool)
      modifies this
      ensures old(connection).Some? ==> ok && connection == old(connection)
      ensures old(connection).None? ==> ok == attempt.Some? && connection == attempt
      ensures ok <==> connection.Some?
    {
      if connection.Some? {
        return true;
      }
      if attempt.Some? {
        connection := attempt;
        return true;
      }
      return false;
    }

    /** `monitor_status`: `{}` (or None) without a connection, otherwise the
        status, returned only when `asJson`. */
    method MonitorStatus(asJson: bool, attempt: Option<nat>, now: string,
                         uptime: Fetch, threads: Fetch, maxConnections: Fetch)
      returns (r: Option<seq<(string, Value)>>)
      modifies this
      ensures connection == if old(connection).Some? then old(connection) else attempt
      ensures connection.None? ==> r == if asJson then Some([]) else None
      ensures connection.Some? ==> r == if asJson then Some(MySQLStatus(now, uptime, threads, maxConnections)) else None
    {
      var ok := Connect(attempt);
      if !ok {
        return if asJson then Some([]) else None;
      }
      var status := MySQLStatus(now, uptime, threads, maxConnections);
      r := if asJson then Some(status) else None;
    }

    /** `monitor_database_sizes`: the same shapes around the size report. */
    method MonitorDatabaseSizes(asJson: bool, attempt: Option<nat>, rows: Option<seq<SizeRow>>)
      returns (r: Option<map<string, nat>>)
      modifies this
      ensures connection == if old(connection).Some? then old(connection) else attempt
      ensures connection.None? ==> r == if asJson then Some(map[]) else None
      ensures connection.Some? ==> r == if asJson then Some(if rows.None? then map[] else Sizes(rows.value)) else None
    {
      var ok := Connect(attempt);
      if !ok {
        return if asJson then Some(map[]) else None;
      }
      var sizes := DatabaseSizes(rows);
      r := if asJson then Some(sizes) else None;
    }

    /** `monitor_table_rows`: one query per configured database; one that
        raises is skipped. */
    method MonitorTableRows(asJson: bool, attempt: Option<nat>, query: string -> Option<seq<TableRow>>)
      returns (r: Option<map<string, seq<TableRow>>>)
      modifies this
      ensures connection == if old(connection).Some? then old(connection) else attempt
      ensures connection.None? ==> r == if asJson then Some(map[]) else None
      ensures connection.Some? ==> r == if asJson then Some(RowsOf(databases, query)) else None
    {
      var ok := Connect(attempt);
      if !ok {
        return if asJson then Some(map[]) else None;
      }
      var allRows := CollectRows(databases, query);
      r := if asJson then Some(allRows) else None;
    }

    /** `monitor_table_structure`: per database, its tables' structures; a
        database where any query raises is skipped. */
    method MonitorTableStructure(asJson: bool, attempt: Option<nat>, query: string -> Option<seq<TableRow>>,
                                 describe: string -> string -> Option<seq<Value>>)
      returns (r: Option<map<string, map<string, seq<Value>>>>)
      modifies this
      ensures connection == if old(connection).Some? then old(connection) else attempt
      ensures connection.None? ==> r == if asJson then Some(map[]) else None
      ensures connection.Some? ==> r == if asJson then Some(AllStructures(databases, query, describe)) else None
    {
      var ok := Connect(attempt);
      if !ok {
        return if asJson then Some(map[]) else None;
      }
      var all := CollectStructures(databases, query, describe);
      r := if asJson then Some(all) else None;
    }
  }

  /** The loop of `monitor_table_rows`. */
  method CollectRows(dbs: seq<string>, query: string -> Option<seq<TableRow>>) returns (allRows: map<string, seq<TableRow>>)
    ensures allRows == RowsOf(dbs, query)
  {
    allRows := map[];
    var i := 0;
    while i < |dbs|
      invariant 0 <= i <= |dbs|
      invariant allRows == RowsOf(dbs[..i], query)
    {
      assert dbs[..i + 1][..i] == dbs[..i];
      var db := dbs[i];
      var rows := query(db);
      if rows.Some? {
        allRows := allRows[db := rows.value];
      }
      i := i + 1;
    }
    assert dbs[..i] == dbs;
  }

  /** The outer loop of `monitor_table_structure`. */
  method CollectStructures(dbs: seq<string>, query: string -> Option<seq<TableRow>>,
                           describe: string -> string -> Option<seq<Value>>)
    returns (all: map<string, map<string, seq<Value>>>)
    ensures all == AllStructures(dbs, query, describe)
  {
    all := map[];
    var i := 0;
    while i < |dbs|
      invariant 0 <= i <= |dbs|
      invariant all == AllStructures(dbs[..i], query, describe)
    {
      assert dbs[..i + 1][..i] == dbs[..i];
      var db := dbs[i];
      var rows := query(db);
      if rows.Some? {
        var structures := DescribeTables(rows.value, describe(db));
        if structures.Some? {
          all := all[db := structures.value];
        }
      }
      i := i + 1;
    }
    assert dbs[..i] == dbs;
  }

  /** The inner loop of `monitor_table_structure`: describe table after
      table, giving up at the first one that raises. */
  method DescribeTables(tables: seq<TableRow>, describe: string -> Option<seq<Value>>)
    returns (structures: Option<map<string, seq<Value>>>)
    ensures structures == StructuresOf(tables, describe)
  {
    var acc: map<string, seq<Value>> := map[];
    var i := 0;
    while i < |tables|
      invariant 0 <= i <= |tables|
      invariant StructuresOf(tables[..i], describe) == Some(acc)
    {
      assert tables[..i + 1][..i] == tables[..i];
      var structure := describe(tables[i].table);
      if structure.None? {
        assert describe(tables[i].table).None?;
        return None;
      }
      acc := acc[tables[i].table := structure.value];
      i := i + 1;
    }
    assert tables[..i] == tables;
    structures := Some(acc);
  }
}
