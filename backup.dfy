/**
 * The planning rules of the per-table MySQL backup: which databases are
 * configured, the client's connection options, the table listing, where the
 * dumps and the archive go, how a run is summarised, and which old backup
 * directories the retention rule removes.
 *
 * The `mysql`/`mysqldump` processes, the file system and `tar` are not run:
 * what they report is an input (a `Listing`, a `dump` function giving the
 * size of a table's dump or None when the dump failed, an archive size, a
 * directory tree, a `removable` predicate for `rmtree`), and the
 * `strptime(...).timestamp()` reading of a directory name is the input
 * function `parse`.
 */
module Backup {
  import opened Wrappers
  import opened Strings
  import opened PyValues
  import opened StringOrder

  // -------------------------------------------------- configured databases

  /** The `database` entry of the mysql configuration: one name, a list of
      names, or anything else. A missing entry reads as an empty list. */
  datatype DatabaseSetting = OneName(name: string) | Names(names: seq<string>) | Unusable

  /** `get_databases`: always a list of names. */
  function GetDatabases(setting: DatabaseSetting): (r: seq<string>)
    ensures setting.OneName? ==> r == [setting.name]
    ensures setting.Names? ==> r == setting.names
    ensures setting.Unusable? ==> r == []
  {
    match setting
    case OneName(n) => [n]
    case Names(ns) => ns
    case Unusable => []
  }

  /** Normalising is idempotent: a normalised list stays as it is. */
  lemma GetDatabasesIdempotent(setting: DatabaseSetting)
    ensures GetDatabases(Names(GetDatabases(setting))) == GetDatabases(setting)
  {
  }

  // ------------------------------------------------- connection options

  /** One option of the `mysql`/`mysqldump` command line. */
  datatype ConnOption = Host(host: string) | Port(port: string) | User(user: string) | Password(password: string)

  /** The place of each option in the command line. */
  function Rank(o: ConnOption): nat {
    match o
    case Host(_) => 0
    case Port(_) => 1
    case User(_) => 2
    case Password(_) => 3
  }

  predicate InOrder(opts: seq<ConnOption>) {
    forall i, j :: 0 <= i < j < |opts| ==> Rank(opts[i]) < Rank(opts[j])
  }

  function HostSetting(config: map<string, Value>): Value { if "host" in config then config["host"] else Str("127.0.0.1") }
  function PortSetting(config: map<string, Value>): Value { if "port" in config then config["port"] else Int(3306) }
  function UserSetting(config: map<string, Value>): Value { if "user" in config then config["user"] else Str("root") }
  function PasswordSetting(config: map<string, Value>): Value { if "password" in config then config["password"] else Str("") }

  /** The candidate options, each with whether it is used, in command-line order. */
  function Candidates(config: map<string, Value>): seq<(bool, ConnOption)> {
    var host, port, user, password := HostSetting(config), PortSetting(config), UserSetting(config), PasswordSetting(config);
    [(Truthy(host) && host != Str("localhost"), Host(ToStr(host))),
     (Truthy(port) && port != Int(3306), Port(ToStr(port))),
     (Truthy(user), User(ToStr(user))),
     (Truthy(password), Password(ToStr(password)))]
  }

  /** A candidate as a (possibly empty) piece of the command line. */
  function Pick(p: (bool, ConnOption)): seq<ConnOption> {
    if p.0 then [p.1] else []
  }

  /** The used candidates, in their order. */
  function Select(ps: seq<(bool, ConnOption)>): (r: seq<ConnOption>)
    ensures |r| <= |ps|
    ensures forall o :: o in r <==> exists i :: 0 <= i < |ps| && ps[i].0 && ps[i].1 == o
  {
    if ps == [] then []
    else Pick(ps[0]) + Select(ps[1..])
  }

  /** Candidates all ranked above `lo` give options all ranked above `lo`. */
  lemma SelectRanksAbove(ps: seq<(bool, ConnOption)>, lo: int)
    requires forall i :: 0 <= i < |ps| ==> lo < Rank(ps[i].1)
    ensures forall o :: o in Select(ps) ==> lo < Rank(o)
  {
  }

  /** Selecting from candidates of increasing rank keeps the ranks increasing. */
  lemma {:induction false} SelectInOrder(ps: seq<(bool, ConnOption)>)
    requires forall i, j :: 0 <= i < j < |ps| ==> Rank(ps[i].1) < Rank(ps[j].1)
    ensures InOrder(Select(ps))
  {
    if ps != [] {
      var tail := ps[1..];
      assert forall i :: 0 <= i < |tail| ==> tail[i] == ps[i + 1];
      SelectInOrder(tail);
      SelectRanksAbove(tail, Rank(ps[0].1));
      var rest := Select(tail);
      if ps[0].0 {
        var r := [ps[0].1] + rest;
        forall i, j | 0 <= i < j < |r| ensures Rank(r[i]) < Rank(r[j]) {
          assert r[j] == rest[j - 1] && r[j] in rest;
          if i > 0 {
            assert r[i] == rest[i - 1];
          }
        }
      }
    }
  }

  /** Selection from four candidates, spelled out. */
  lemma SelectFour(p0: (bool, ConnOption), p1: (bool, ConnOption), p2: (bool, ConnOption), p3: (bool, ConnOption))
    ensures Select([p0, p1, p2, p3]) == Pick(p0) + Pick(p1) + Pick(p2) + Pick(p3)
  {
    assert Select([p3]) == Pick(p3) by {
      assert [p3][1..] == [];
    }
    assert Select([p2, p3]) == Pick(p2) + Pick(p3) by {
      assert [p2, p3][1..] == [p3];
    }
    assert Select([p1, p2, p3]) == Pick(p1) + Pick(p2) + Pick(p3) by {
      assert [p1, p2, p3][1..] == [p2, p3];
    }
    assert [p0, p1, p2, p3][1..] == [p1, p2, p3];
  }

  /** The options chosen for a mysql configuration: a host other than
      `localhost`, a port other than 3306, a user and a password, each only
      when set (truthy), always in this order. */
  function ChosenOptions(config: map<string, Value>): seq<ConnOption> {
    Select(Candidates(config))
  }

  /** What `ChosenOptions` promises. */
  lemma ChosenOptionsFacts(config: map<string, Value>)
    ensures var r := ChosenOptions(config);
      && InOrder(r)
      && (Host(ToStr(HostSetting(config))) in r <==>
            Truthy(HostSetting(config)) && HostSetting(config) != Str("localhost"))
      && (Port(ToStr(PortSetting(config))) in r <==>
            Truthy(PortSetting(config)) && PortSetting(config) != Int(3306))
      && (User(ToStr(UserSetting(config))) in r <==> Truthy(UserSetting(config)))
      && (Password(ToStr(PasswordSetting(config))) in r <==> Truthy(PasswordSetting(config)))
      && |r| <= 4
  {
    var ps := Candidates(config);
    SelectInOrder(ps);
    assert ps[0].1.Host? && ps[1].1.Port? && ps[2].1.User? && ps[3].1.Password?;
  }

  /** The command-line words of one option. */
  function OptionArgs(o: ConnOption): seq<string> {
    match o
    case Host(h) => ["-h", h]
    case Port(p) => ["-P", p]
    case User(u) => ["-u", u]
    case Password(p) => ["--password=" + p]
  }

  function Render(opts: seq<ConnOption>): seq<string> {
    if opts == [] then [] else OptionArgs(opts[0]) + Render(opts[1..])
  }

  const PasswordFlag := "--password="

  /** How the client reads its options back. */
  function ParseOptions(args: seq<string>): seq<ConnOption>
    decreases |args|
  {
    if args == [] then []
    else if args[0] == "-h" && |args| > 1 then [Host(args[1])] + ParseOptions(args[2..])
    else if args[0] == "-P" && |args| > 1 then [Port(args[1])] + ParseOptions(args[2..])
    else if args[0] == "-u" && |args| > 1 then [User(args[1])] + ParseOptions(args[2..])
    else if |args[0]| >= |PasswordFlag| && args[0][..|PasswordFlag|] == PasswordFlag then
      [Password(args[0][|PasswordFlag|..])] + ParseOptions(args[1..])
    else ParseOptions(args[1..])
  }

  /** The client reads back exactly the options that were chosen. */
  lemma {:induction false} ParseRender(opts: seq<ConnOption>)
    ensures ParseOptions(Render(opts)) == opts
  {
    if opts != [] {
      var rest := Render(opts[1..]);
      ParseRender(opts[1..]);
      match opts[0]
      case Host(h) =>
        assert Render(opts) == ["-h", h] + rest;
        assert (["-h", h] + rest)[2..] == rest;
      case Port(p) =>
        assert Render(opts) == ["-P", p] + rest;
        assert (["-P", p] + rest)[2..] == rest;
      case User(u) =>
        assert Render(opts) == ["-u", u] + rest;
        assert (["-u", u] + rest)[2..] == rest;
      case Password(p) =>
        var w := PasswordFlag + p;
        assert Render(opts) == [w] + rest;
        assert w[..|PasswordFlag|] == PasswordFlag && w[|PasswordFlag|..] == p;
        assert ([w] + rest)[1..] == rest;
    }
  }

  lemma {:induction false} RenderSnoc(opts: seq<ConnOption>, o: ConnOption)
    ensures Render(opts + [o]) == Render(opts) + OptionArgs(o)
  {
    if opts == [] {
      assert [] + [o] == [o];
      assert [o][1..] == [];
    } else {
      assert (opts + [o])[1..] == opts[1..] + [o];
      RenderSnoc(opts[1..], o);
    }
  }

  /** `args.extend(...)` for one candidate option, when it is used. */
  method AddOption(args: seq<string>, ghost chosen: seq<ConnOption>, p: (bool, ConnOption))
    returns (args': seq<string>, ghost chosen': seq<ConnOption>)
    requires args == Render(chosen)
    ensures args' == Render(chosen') && chosen' == chosen + Pick(p)
  {
    if p.0 {
      RenderSnoc(chosen, p.1);
      args', chosen' := args + OptionArgs(p.1), chosen + [p.1];
    } else {
      assert chosen + [] == chosen;
      args', chosen' := args, chosen;
    }
  }

  /** `get_mysql_connection_args`: the option words, built up in order. */
  method ConnectionArgs(config: map<string, Value>) returns (args: seq<string>)
    ensures args == Render(ChosenOptions(config))
    ensures ParseOptions(args) == ChosenOptions(config)
  {
    var host, port, user, password := HostSetting(config), PortSetting(config), UserSetting(config), PasswordSetting(config);
    var p0 := (Truthy(host) && host != Str("localhost"), Host(ToStr(host)));
    var p1 := (Truthy(port) && port != Int(3306), Port(ToStr(port)));
    var p2 := (Truthy(user), User(ToStr(user)));
    var p3 := (Truthy(password), Password(ToStr(password)));
    ghost var chosen: seq<ConnOption> := [];
    args := [];
    args, chosen := AddOption(args, chosen, p0);
    args, chosen := AddOption(args, chosen, p1);
    args, chosen := AddOption(args, chosen, p2);
    args, chosen := AddOption(args, chosen, p3);
    SelectFour(p0, p1, p2, p3);
    assert Candidates(config) == [p0, p1, p2, p3];
    assert [] + Pick(p0) == Pick(p0);
    ParseRender(chosen);
  }

  /** With nothing configured the client is pointed at 127.0.0.1 as `root`,
      on the default port and without a password. */
  lemma DefaultConnection()
    ensures Render(ChosenOptions(map[])) == ["-h", "127.0.0.1", "-u", "root"]
  {
    DefaultChoice();
    RenderDefault();
  }

  lemma RenderDefault()
    ensures Render([Host("127.0.0.1"), User("root")]) == ["-h", "127.0.0.1", "-u", "root"]
  {
    RenderTwo(Host("127.0.0.1"), User("root"));
  }

  lemma RenderTwo(a: ConnOption, b: ConnOption)
    ensures Render([a, b]) == OptionArgs(a) + OptionArgs(b)
  {
    assert Render([b]) == OptionArgs(b) by {
      assert [b][1..] == [];
      assert OptionArgs(b) + [] == OptionArgs(b);
    }
    assert [a, b][1..] == [b];
  }

  /** The options chosen from an empty configuration. */
  lemma DefaultChoice()
    ensures ChosenOptions(map[]) == [Host("127.0.0.1"), User("root")]
  {
    var p0, p1 := (true, Host("127.0.0.1")), (false, Port(ToStr(Int(3306))));
    var p2, p3 := (true, User("root")), (false, Password(""));
    DefaultCandidates();
    SelectFour(p0, p1, p2, p3);
  }

  lemma DefaultCandidates()
    ensures Candidates(map[]) == [(true, Host("127.0.0.1")), (false, Port(ToStr(Int(3306)))),
                                  (true, User("root")), (false, Password(""))]
  {
    assert "127.0.0.1"[0] != "localhost"[0];
  }

  // ----------------------------------------------------- table listing

  /** What running `mysql -N -e "SHOW TABLES FROM db"` produced. */
  datatype Listing = Listing(returnCode: int, stdout: string) | ListingRaised(message: string)

  /** A table name as listed: non-empty, no whitespace at either end. */
  predicate Clean(t: string) {
    t != [] && !IsSpace(t[0]) && !IsSpace(t[|t| - 1])
  }

  /** `[t.strip() for t in lines if t.strip()]`. */
  function KeepStripped(lines: seq<string>): (r: seq<string>)
    ensures |r| <= |lines|
    ensures forall i :: 0 <= i < |r| ==> Clean(r[i])
  {
    if lines == [] then []
    else
      var t := Strip(lines[0]);
      var rest := KeepStripped(lines[1..]);
      CleanPrepend(t, rest);
      (if t != [] then [t] else []) + rest
  }

  /** The names of a listing split anywhere are those of the two halves, in order. */
  lemma {:induction false} KeepStrippedAppend(a: seq<string>, b: seq<string>)
    ensures KeepStripped(a + b) == KeepStripped(a) + KeepStripped(b)
  {
    if a == [] {
      assert a + b == b;
    } else {
      var head := if Strip(a[0]) != [] then [Strip(a[0])] else [];
      assert (a + b)[0] == a[0];
      assert (a + b)[1..] == a[1..] + b;
      assert KeepStripped(a + b) == head + KeepStripped(a[1..] + b);
      assert KeepStripped(a) == head + KeepStripped(a[1..]);
      KeepStrippedAppend(a[1..], b);
      ConcatAssoc(head, KeepStripped(a[1..]), KeepStripped(b));
    }
  }

  lemma ConcatAssoc(x: seq<string>, y: seq<string>, z: seq<string>)
    ensures x + (y + z) == (x + y) + z
  {
  }

  /** Each further line adds its stripped text, unless that is empty. */
  lemma KeepStrippedSnoc(lines: seq<string>, line: string)
    ensures KeepStripped(lines + [line]) ==
      KeepStripped(lines) + (if Strip(line) != [] then [Strip(line)] else [])
  {
    var one := if Strip(line) != [] then [Strip(line)] else [];
    assert KeepStripped([line]) == one by {
      assert [line][1..] == [];
      assert one + [] == one;
    }
    KeepStrippedAppend(lines, [line]);
  }

  /** Putting a stripped line (if any is left) before clean names keeps them clean. */
  lemma CleanPrepend(t: string, rest: seq<string>)
    requires t != [] ==> !IsSpace(t[0]) && !IsSpace(t[|t| - 1])
    requires forall i :: 0 <= i < |rest| ==> Clean(rest[i])
    ensures var r := (if t != [] then [t] else []) + rest;
      forall i :: 0 <= i < |r| ==> Clean(r[i])
  {
  }

  /** The table names in a listing: its non-blank lines, stripped, in
      order; none when the client failed or could not be run. */
  function TableNames(l: Listing): (r: seq<string>)
    ensures l.ListingRaised? || l.returnCode != 0 ==> r == []
    ensures forall i :: 0 <= i < |r| ==> Clean(r[i])
  {
    if l.ListingRaised? || l.returnCode != 0 then [] else KeepStripped(SplitLines(l.stdout))
  }

  predicate NoSpace(s: string) {
    forall j :: 0 <= j < |s| ==> !IsSpace(s[j])
  }

  /** Reading the listing of a set of table names gives those names back,
      in their order. */
  lemma {:induction false} TableNamesRoundTrip(tables: seq<string>)
    requires forall i :: 0 <= i < |tables| ==> tables[i] != [] && NoSpace(tables[i])
    ensures TableNames(Listing(0, Terminated(tables))) == tables
  {
    forall i, j | 0 <= i < |tables| && 0 <= j < |tables[i]| ensures !IsLineBreak(tables[i][j]) {
      LineBreakIsSpace(tables[i][j]);
    }
    SplitLinesTerminated(tables);
    KeepStrippedIdentity(tables);
  }

  lemma {:induction false} KeepStrippedIdentity(tables: seq<string>)
    requires forall i :: 0 <= i < |tables| ==> tables[i] != [] && NoSpace(tables[i])
    ensures KeepStripped(tables) == tables
  {
    if tables != [] {
      StripNoSpace(tables[0]);
      KeepStrippedIdentity(tables[1..]);
      assert tables == [tables[0]] + tables[1..];
    }
  }

  /** Blank lines are dropped wherever they are. */
  lemma {:induction false} KeepStrippedDropsBlank(before: seq<string>, blank: string, after: seq<string>)
    requires forall j :: 0 <= j < |blank| ==> IsSpace(blank[j])
    ensures KeepStripped(before + [blank] + after) == KeepStripped(before + after)
  {
    if before == [] {
      assert before + [blank] + after == [blank] + after;
      assert ([blank] + after)[1..] == after;
      assert before + after == after;
    } else {
      assert (before + [blank] + after)[0] == before[0];
      assert (before + [blank] + after)[1..] == before[1..] + [blank] + after;
      assert (before + after)[0] == before[0];
      assert (before + after)[1..] == before[1..] + after;
      KeepStrippedDropsBlank(before[1..], blank, after);
    }
  }

  // -------------------------------------------------------------- naming

  /** `backup_path / database / timestamp`. */
  function BackupDir(base: string, database: string, timestamp: string): string {
    base + "/" + database + "/" + timestamp
  }

  /** `database_timestamp.tar.gz`, inside the backup directory. */
  function ArchiveName(database: string, timestamp: string): string {
    database + "_" + timestamp + ".tar.gz"
  }

  function ArchivePath(base: string, database: string, timestamp: string): string {
    BackupDir(base, database, timestamp) + "/" + ArchiveName(database, timestamp)
  }

  /** The dump of one table, `<table>.sql`, and its name inside the archive. */
  function TableFile(table: string): string {
    table + ".sql"
  }

  function MemberName(database: string, table: string): string {
    database + "/" + TableFile(table)
  }

  /** A `%Y%m%d_%H%M%S` stamp: eight digits, `_`, six digits. */
  predicate IsStamp(ts: string) {
    |ts| == 15 && ts[8] == '_' && forall i :: 0 <= i < 15 && i != 8 ==> '0' <= ts[i] <= '9'
  }

  const ArchiveSuffix := ".tar.gz"

  /** Reading the database and the stamp back from an archive name; the
      stamp has a fixed width, so a database name containing `_` is no obstacle. */
  function SplitArchiveName(name: string): (r: Option<(string, string)>)
    ensures r.Some? ==> IsStamp(r.value.1)
  {
    var n := |name|;
    if n >= 23 && name[n - 7..] == ArchiveSuffix && name[n - 23] == '_' && IsStamp(name[n - 22..n - 7])
    then Some((name[..n - 23], name[n - 22..n - 7]))
    else None
  }

  lemma ArchiveNameRoundTrip(database: string, timestamp: string)
    requires IsStamp(timestamp)
    ensures SplitArchiveName(ArchiveName(database, timestamp)) == Some((database, timestamp))
  {
    var name := ArchiveName(database, timestamp);
    var n := |name|;
    assert name == database + "_" + timestamp + ArchiveSuffix;
    assert name[n - 7..] == ArchiveSuffix;
    assert name[n - 22..n - 7] == timestamp;
    assert name[..n - 23] == database;
  }

  /** Members are named `database/<table>.sql`, so the archive unpacks
      into one directory per database. */
  lemma MemberNameSplits(database: string, table: string)
    requires '/' !in database && '/' !in TableFile(table)
    ensures Split(MemberName(database, table), '/') == [database, TableFile(table)]
  {
    SplitJoin([database, TableFile(table)], '/');
    assert Join([database, TableFile(table)], "/") == MemberName(database, table);
  }

  // --------------------------------------------------- one database's run

  /** What a run of `backup_database` reports. */
  datatype BackupInfo = BackupInfo(
    database: string, timestamp: string, backupDir: string, archiveFile: Option<string>,
    tablesTotal: nat, tablesSuccess: nat, tablesFailed: nat,
    successTables: seq<string>, failedTables: seq<string>,
    rawSize: nat, archiveRawSize: nat, compress: bool, status: string)

  datatype BackupOutcome = NoTables(error: string) | Done(info: BackupInfo)

  /** The tables whose dump succeeded, in dump order. */
  function Dumped(tables: seq<string>, dump: string -> Option<nat>): seq<string> {
    if tables == [] then []
    else Dumped(tables[..|tables| - 1], dump) + (if dump(tables[|tables| - 1]).Some? then [tables[|tables| - 1]] else [])
  }

  /** The tables whose dump failed, in dump order. */
  function Failed(tables: seq<string>, dump: string -> Option<nat>): seq<string> {
    if tables == [] then []
    else Failed(tables[..|tables| - 1], dump) + (if dump(tables[|tables| - 1]).None? then [tables[|tables| - 1]] else [])
  }

  /** Total dump size of the given (dumped) tables. */
  function SumSizes(tables: seq<string>, dump: string -> Option<nat>): nat {
    if tables == [] then 0
    else SumSizes(tables[..|tables| - 1], dump) + dump(tables[|tables| - 1]).GetOr(0)
  }

  /** Every table lands in exactly one of the two lists. */
  lemma {:induction false} PartitionFacts(tables: seq<string>, dump: string -> Option<nat>)
    ensures |Dumped(tables, dump)| + |Failed(tables, dump)| == |tables|
    ensures multiset(Dumped(tables, dump)) + multiset(Failed(tables, dump)) == multiset(tables)
    ensures forall t :: t in Dumped(tables, dump) ==> dump(t).Some?
    ensures forall t :: t in Failed(tables, dump) ==> dump(t).None?
  {
    if tables != [] {
      var init := tables[..|tables| - 1];
      PartitionFacts(init, dump);
      assert tables == init + [tables[|tables| - 1]];
    }
  }

  /** The split keeps the dump order: splitting a concatenation concatenates the splits. */
  lemma {:induction false} PartitionAppend(a: seq<string>, b: seq<string>, dump: string -> Option<nat>)
    ensures Dumped(a + b, dump) == Dumped(a, dump) + Dumped(b, dump)
    ensures Failed(a + b, dump) == Failed(a, dump) + Failed(b, dump)
    decreases |b|
  {
    if b == [] {
      assert a + b == a;
    } else {
      var b' := b[..|b| - 1];
      assert (a + b)[..|a + b| - 1] == a + b';
      assert (a + b)[|a + b| - 1] == b[|b| - 1];
      PartitionAppend(a, b', dump);
    }
  }

  const NoTablesSuffix := " 中没有表或无法访问"

  /** The outcome of `backup_database` for the given inputs; `archiveSize`
      is the size of the archive file, None when it does not exist. */
  function RunBackup(database: string, timestamp: string, base: string, listing: Listing,
                     dump: string -> Option<nat>, compress: bool, archiveSize: Option<nat>): BackupOutcome
  {
    var tables := TableNames(listing);
    if tables == [] then NoTables(database + NoTablesSuffix)
    else
      var ok, failed := Dumped(tables, dump), Failed(tables, dump);
      var archived := compress && ok != [];
      Done(BackupInfo(database, timestamp, BackupDir(base, database, timestamp),
                      if archived then Some(ArchivePath(base, database, timestamp)) else None,
                      |tables|, |ok|, |failed|, ok, failed, SumSizes(ok, dump),
                      if archived then archiveSize.GetOr(0) else 0,
                      compress, if failed == [] then "success" else "partial"))
  }

  /** What a run reports: nothing to do without tables; otherwise every
      table is counted once, the status is `success` exactly when no table
      failed, the raw size counts the dumped tables only, and an archive
      exists exactly when compression was asked for and some table was
      dumped. */
  lemma RunBackupFacts(database: string, timestamp: string, base: string, listing: Listing,
                       dump: string -> Option<nat>, compress: bool, archiveSize: Option<nat>)
    ensures var r := RunBackup(database, timestamp, base, listing, dump, compress, archiveSize);
      && (TableNames(listing) == [] <==> r.NoTables?)
      && (r.NoTables? ==> r.error == database + NoTablesSuffix)
      && (r.Done? ==> var i := r.info;
        && i.tablesTotal == |TableNames(listing)| == i.tablesSuccess + i.tablesFailed
        && i.tablesSuccess == |i.successTables| && i.tablesFailed == |i.failedTables|
        && multiset(i.successTables) + multiset(i.failedTables) == multiset(TableNames(listing))
        && (forall t :: t in i.successTables ==> dump(t).Some?)
        && (forall t :: t in i.failedTables ==> dump(t).None?)
        && (i.status == "success" <==> i.failedTables == [])
        && (i.status == "success" || i.status == "partial")
        && i.rawSize == SumSizes(i.successTables, dump)
        && (i.archiveFile.Some? <==> compress && i.successTables != [])
        && (i.archiveFile.Some? ==> i.archiveFile.value == ArchivePath(base, database, timestamp))
        && (i.archiveFile.None? ==> i.archiveRawSize == 0)
        && i.backupDir == BackupDir(base, database, timestamp))
  {
    PartitionFacts(TableNames(listing), dump);
  }

  /** The dump loop of `backup_database`: one mysqldump per table, in order. */
  method DumpTables(tables: seq<string>, dump: string -> Option<nat>)
    returns (successTables: seq<string>, failedTables: seq<string>, totalSize: nat)
    ensures successTables == Dumped(tables, dump)
    ensures failedTables == Failed(tables, dump)
    ensures totalSize == SumSizes(successTables, dump)
  {
    successTables, failedTables, totalSize := [], [], 0;
    var i := 0;
    while i < |tables|
      invariant 0 <= i <= |tables|
      invariant successTables == Dumped(tables[..i], dump)
      invariant failedTables == Failed(tables[..i], dump)
      invariant totalSize == SumSizes(successTables, dump)
    {
      var t := tables[i];
      assert tables[..i + 1][..i] == tables[..i];
      assert tables[..i + 1][i] == t;
      var size := dump(t);
      if size.Some? {
        assert (successTables + [t])[..|successTables|] == successTables;
        successTables := successTables + [t];
        totalSize := totalSize + size.value;
      } else {
        failedTables := failedTables + [t];
      }
      i := i + 1;
    }
    assert tables[..i] == tables;
  }

  /** `backup_database`: dump table after table, collecting the dumped and
      the failed ones and the total size; the report is returned only when
      `asJson` is set. */
  method BackupDatabase(database: string, timestamp: string, base: string, listing: Listing,
                        dump: string -> Option<nat>, compress: bool, archiveSize: Option<nat>, asJson: bool)
    returns (r: Option<BackupOutcome>)
    ensures r == if asJson then Some(RunBackup(database, timestamp, base, listing, dump, compress, archiveSize)) else None
  {
    var tables := TableNames(listing);
    if tables == [] {
      r := if asJson then Some(NoTables(database + NoTablesSuffix)) else None;
      return;
    }
    var successTables, failedTables, totalSize := DumpTables(tables, dump);
    var archiveFile, archiveRawSize := None, 0;
    if compress && successTables != [] {
      archiveFile := Some(ArchivePath(base, database, timestamp));
      archiveRawSize := archiveSize.GetOr(0);
    }
    var info := BackupInfo(database, timestamp, BackupDir(base, database, timestamp), archiveFile,
                           |tables|, |successTables|, |failedTables|, successTables, failedTables,
                           totalSize, archiveRawSize, compress,
                           if failedTables == [] then "success" else "partial");
    r := if asJson then Some(Done(info)) else None;
  }

  /** The overview line of one database: its status, or `unknown` for the
      error report, which has no status. */
  function StatusOf(o: BackupOutcome): (s: string)
    ensures o.NoTables? ==> s == "unknown"
    ensures o.Done? ==> s == o.info.status
  {
    if o.Done? then o.info.status else "unknown"
  }

  /** What the outside world reports for each database: the moment its run
      starts, its table listing, each table's dump, and its archive's size. */
  datatype Probe = Probe(stamp: string -> string, listing: string -> Listing,
                         dump: string -> string -> Option<nat>, archiveSize: string -> Option<nat>)

  function RunFor(db: string, base: string, probe: Probe, compress: bool): BackupOutcome {
    RunBackup(db, probe.stamp(db), base, probe.listing(db), probe.dump(db), compress, probe.archiveSize(db))
  }

  /** The `results` dict after backing up `dbs` in order. */
  function Runs(dbs: seq<string>, base: string, probe: Probe, compress: bool): (r: map<string, BackupOutcome>)
    ensures forall db :: db in r <==> db in dbs
    ensures forall db :: db in r ==> r[db] == RunFor(db, base, probe, compress)
  {
    if dbs == [] then map[]
    else
      var last := dbs[|dbs| - 1];
      assert dbs == dbs[..|dbs| - 1] + [last];
      Runs(dbs[..|dbs| - 1], base, probe, compress)[last := RunFor(last, base, probe, compress)]
  }

  /** The loop of `backup_all_databases`: one `backup_database` per name. */
  /** One more database adds (or replaces) its own entry. */
  lemma RunsSnoc(dbs: seq<string>, db: string, base: string, probe: Probe, compress: bool)
    ensures Runs(dbs + [db], base, probe, compress) == Runs(dbs, base, probe, compress)[db := RunFor(db, base, probe, compress)]
  {
    assert (dbs + [db])[..|dbs|] == dbs;
  }

  method CollectRuns(dbs: seq<string>, base: string, probe: Probe, compress: bool)
    returns (collected: map<string, BackupOutcome>)
    ensures collected == Runs(dbs, base, probe, compress)
  {
    collected := map[];
    ghost var done: seq<string> := [];
    var i := 0;
    while i < |dbs|
      invariant 0 <= i <= |dbs|
      invariant done == dbs[..i]
      invariant collected == Runs(done, base, probe, compress)
    {
      var db := dbs[i];
      assert dbs[..i + 1] == dbs[..i] + [db];
      var info := BackupDatabase(db, probe.stamp(db), base, probe.listing(db), probe.dump(db), compress,
                                 probe.archiveSize(db), true);
      RunsSnoc(done, db, base, probe, compress);
      collected := collected[db := info.value];
      done := done + [db];
      i := i + 1;
    }
    assert dbs[..i] == dbs;
  }


  /** `backup_all_databases`: back up every configured database (reports
      always collected) and summarise each one's status; the reports are
      returned only when `asJson` is set. */
  method BackupAll(setting: DatabaseSetting, base: string, probe: Probe, compress: bool, asJson: bool)
    returns (results: Option<map<string, BackupOutcome>>, overview: map<string, string>)
    ensures var all := Runs(GetDatabases(setting), base, probe, compress);
      && (results.Some? <==> asJson)
      && (asJson ==> results.value == all)
      && overview.Keys == all.Keys
      && (forall db :: db in overview ==> overview[db] == StatusOf(all[db]))
  {
    var collected := CollectRuns(GetDatabases(setting), base, probe, compress);
    overview := map db | db in collected :: StatusOf(collected[db]);
    results := if asJson then Some(collected) else None;
  }

  /** A database shows up as `unknown` in the overview exactly when it had
      no tables to back up. */
  lemma OverviewUnknown(db: string, base: string, probe: Probe, compress: bool)
    ensures StatusOf(RunFor(db, base, probe, compress)) == "unknown" <==> TableNames(probe.listing(db)) == []
  {
    RunBackupFacts(db, probe.stamp(db), base, probe.listing(db), probe.dump(db), compress, probe.archiveSize(db));
  }

  // ------------------------------------------------------------ retention

  /** A directory entry, and a database's directory with its entries. */
  datatype Entry = Entry(name: string, isDir: bool)
  datatype DbFolder = DbFolder(name: string, isDir: bool, entries: seq<Entry>)

  /** The names of the sub-directories, in listing order. */
  function SubdirNames(entries: seq<Entry>): (r: seq<string>)
    ensures |r| <= |entries|
    ensures forall x :: x in r <==> exists i :: 0 <= i < |entries| && entries[i].isDir && entries[i].name == x
  {
    assert forall i :: 0 < i < |entries| ==> entries[i] == entries[1..][i - 1];
    if entries == [] then []
    else (if entries[0].isDir then [entries[0].name] else []) + SubdirNames(entries[1..])
  }

  /** The retention rule for the backup at position `idx` of the newest-first
      list: remove it when its name parses to a time before the cutoff, or
      when `keepCount` newer ones come before it. A name that does not parse
      is never removed. */
  predicate Expired(stamp: Option<int>, idx: nat, cutoff: int, keepCount: int) {
    stamp.Some? && (stamp.value < cutoff || idx >= keepCount)
  }

  function Cutoff(now: int, keepDays: int): int {
    now - keepDays * 24 * 3600
  }

  /** Of the first `n` names (newest first), the expired ones, in order. */
  function ExpiredNames(names: seq<string>, n: nat, parse: string -> Option<int>, cutoff: int, keepCount: int): (r: seq<string>)
    requires n <= |names|
    ensures |r| <= n
    ensures forall x :: x in r ==> exists i :: 0 <= i < n && names[i] == x && Expired(parse(x), i, cutoff, keepCount)
    ensures forall i :: 0 <= i < n && Expired(parse(names[i]), i, cutoff, keepCount) ==> names[i] in r
  {
    if n == 0 then []
    else
      var prev := ExpiredNames(names, n - 1, parse, cutoff, keepCount);
      prev + (if Expired(parse(names[n - 1]), n - 1, cutoff, keepCount) then [names[n - 1]] else [])
  }

  /** How many of the first `n` names parse and are kept. */
  function KeptCount(names: seq<string>, n: nat, parse: string -> Option<int>, cutoff: int, keepCount: int): nat
    requires n <= |names|
  {
    if n == 0 then 0
    else KeptCount(names, n - 1, parse, cutoff, keepCount)
         + (if parse(names[n - 1]).Some? && !Expired(parse(names[n - 1]), n - 1, cutoff, keepCount) then 1 else 0)
  }

  /** At most `keepCount` dated backups survive in a database's directory. */
  lemma {:induction false} KeptAtMostKeepCount(names: seq<string>, n: nat, parse: string -> Option<int>, cutoff: int, keepCount: int)
    requires n <= |names|
    ensures KeptCount(names, n, parse, cutoff, keepCount) <= if keepCount < 0 then 0 else if n < keepCount then n else keepCount
  {
    if n > 0 {
      KeptAtMostKeepCount(names, n - 1, parse, cutoff, keepCount);
    }
  }

  /** The paths removed in one database's directory: the expired entries of
      its sub-directories sorted newest first, where `rmtree` succeeded. */
  function RemovedIn(base: string, folder: DbFolder, parse: string -> Option<int>, cutoff: int, keepCount: int,
                     removable: string -> bool): seq<string>
  {
    var sorted := NewestFirst(folder);
    var expired := ExpiredNames(sorted, |sorted|, parse, cutoff, keepCount);
    Removable(FolderDir(base, folder), expired, removable)
  }

  /** The backups of one database directory, newest first by name. */
  function NewestFirst(folder: DbFolder): seq<string> {
    SortDescending(SubdirNames(folder.entries))
  }

  /** The directory of one database's backups, with a trailing `/`. */
  function FolderDir(base: string, folder: DbFolder): string {
    base + "/" + folder.name + "/"
  }

  /** Prefix each name with the directory and keep those `rmtree` removed. */
  function Removable(dir: string, names: seq<string>, removable: string -> bool): (r: seq<string>)
    ensures |r| <= |names|
    ensures forall i :: 0 <= i < |r| ==> removable(r[i])
  {
    if names == [] then []
    else Removable(dir, names[..|names| - 1], removable)
         + (if removable(dir + names[|names| - 1]) then [dir + names[|names| - 1]] else [])
  }

  /** One more name adds at most its own path, at the end. */
  lemma RemovableSnoc(dir: string, names: seq<string>, x: string, removable: string -> bool)
    ensures Removable(dir, names + [x], removable) ==
      Removable(dir, names, removable) + (if removable(dir + x) then [dir + x] else [])
  {
    assert (names + [x])[..|names|] == names;
  }

  /** The paths `Removable` keeps are exactly the prefixed names that `rmtree` removed. */
  lemma {:induction false} RemovableMembers(dir: string, names: seq<string>, removable: string -> bool)
    ensures forall p :: p in Removable(dir, names, removable) <==> exists x :: x in names && p == dir + x && removable(p)
  {
    if names != [] {
      var init := names[..|names| - 1];
      RemovableMembers(dir, init, removable);
      assert names == init + [names[|names| - 1]];
    }
  }

  /** Of a newest-first list of backup names, a path is removed exactly when
      its name parses, it is older than the cutoff or has at least
      `keepCount` newer siblings before it, and `rmtree` succeeds on it. */
  lemma ExpiredRemovedRule(dir: string, names: seq<string>, parse: string -> Option<int>, cutoff: int, keepCount: int,
                           removable: string -> bool)
    ensures forall p :: p in Removable(dir, ExpiredNames(names, |names|, parse, cutoff, keepCount), removable) <==>
      exists i :: (0 <= i < |names| && p == dir + names[i] && Expired(parse(names[i]), i, cutoff, keepCount) && removable(p))
  {
    var expired := ExpiredNames(names, |names|, parse, cutoff, keepCount);
    RemovableMembers(dir, expired, removable);
    forall p | p in Removable(dir, expired, removable)
      ensures exists i :: (0 <= i < |names| && p == dir + names[i] && Expired(parse(names[i]), i, cutoff, keepCount) && removable(p))
    {
      var x :| x in expired && p == dir + x && removable(p);
      var i :| 0 <= i < |names| && names[i] == x && Expired(parse(x), i, cutoff, keepCount);
    }
    forall i | 0 <= i < |names| && Expired(parse(names[i]), i, cutoff, keepCount) && removable(dir + names[i])
      ensures dir + names[i] in Removable(dir, expired, removable)
    {
      assert names[i] in expired;
    }
  }

  /** The retention rule for one database directory: its sub-directories
      sorted newest first go through `ExpiredRemovedRule`. */
  lemma RemovedInRule(base: string, folder: DbFolder, parse: string -> Option<int>, cutoff: int, keepCount: int,
                      removable: string -> bool)
    ensures forall p :: p in RemovedIn(base, folder, parse, cutoff, keepCount, removable) <==>
      exists i :: (0 <= i < |NewestFirst(folder)| && p == FolderDir(base, folder) + NewestFirst(folder)[i]
        && Expired(parse(NewestFirst(folder)[i]), i, cutoff, keepCount) && removable(p))
  {
    var sorted := NewestFirst(folder);
    ExpiredRemovedRule(FolderDir(base, folder), sorted, parse, cutoff, keepCount, removable);
    var removed := RemovedIn(base, folder, parse, cutoff, keepCount, removable);
    assert removed == Removable(FolderDir(base, folder), ExpiredNames(sorted, |sorted|, parse, cutoff, keepCount), removable);
    forall p
      ensures p in removed <==> exists i :: (0 <= i < |sorted| && p == FolderDir(base, folder) + sorted[i]
          && Expired(parse(sorted[i]), i, cutoff, keepCount) && removable(p))
    {
    }
  }

  /** All paths removed, database directory after database directory;
      entries of the backup root that are not directories are skipped. */
  function RemovedAll(base: string, folders: seq<DbFolder>, parse: string -> Option<int>, cutoff: int, keepCount: int,
                      removable: string -> bool): seq<string>
  {
    if folders == [] then []
    else
      var last := folders[|folders| - 1];
      RemovedAll(base, folders[..|folders| - 1], parse, cutoff, keepCount, removable)
      + (if last.isDir then RemovedIn(base, last, parse, cutoff, keepCount, removable) else [])
  }

  /** The inner loop of `cleanup_old_backups` over one directory's backups,
      newest first: `rmtree` every expired one and list those removed. */
  method RemoveExpired(dir: string, sorted: seq<string>, parse: string -> Option<int>, cutoff: int, keepCount: int,
                       removable: string -> bool)
    returns (here: seq<string>)
    ensures here == Removable(dir, ExpiredNames(sorted, |sorted|, parse, cutoff, keepCount), removable)
  {
    here := [];
    ghost var expired: seq<string> := [];
    var idx := 0;
    while idx < |sorted|
      invariant 0 <= idx <= |sorted|
      invariant expired == ExpiredNames(sorted, idx, parse, cutoff, keepCount)
      invariant here == Removable(dir, expired, removable)
    {
      var name := sorted[idx];
      var stamp := parse(name);
      if stamp.Some? && (stamp.value < cutoff || idx >= keepCount) {
        RemovableSnoc(dir, expired, name, removable);
        if removable(dir + name) {
          here := here + [dir + name];
        }
        expired := expired + [name];
      }
      idx := idx + 1;
    }
  }


  /** The `{'deleted_dirs': …, 'deleted_files': …}` report. */
  datatype CleanupReport = CleanupReport(deletedDirs: nat, deletedFiles: nat)

  /** `cleanup_old_backups`: walk every database directory, its backups
      newest first, and remove the expired ones; `removed` lists what was
      removed. No archive file is ever removed on its own. */
  method CleanupOldBackups(base: string, folders: seq<DbFolder>, parse: string -> Option<int>, now: int,
                           keepDays: int, keepCount: int, removable: string -> bool, asJson: bool)
    returns (report: Option<CleanupReport>, removed: seq<string>)
    ensures removed == RemovedAll(base, folders, parse, Cutoff(now, keepDays), keepCount, removable)
    ensures report == if asJson then Some(CleanupReport(|removed|, 0)) else None
  {
    var deletedDirs, deletedFiles := 0, 0;
    var cutoff := Cutoff(now, keepDays);
    removed := [];
    var f := 0;
    while f < |folders|
      invariant 0 <= f <= |folders|
      invariant removed == RemovedAll(base, folders[..f], parse, cutoff, keepCount, removable)
      invariant deletedDirs == |removed|
    {
      var folder := folders[f];
      assert folders[..f + 1][..f] == folders[..f];
      if folder.isDir {
        var here := RemoveExpired(FolderDir(base, folder), NewestFirst(folder), parse, cutoff, keepCount, removable);
        removed := removed + here;
        deletedDirs := deletedDirs + |here|;
      }
      f := f + 1;
    }
    assert folders[..f] == folders;
    report := if asJson then Some(CleanupReport(deletedDirs, deletedFiles)) else None;
  }
}
