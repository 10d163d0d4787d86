/** The `sql list-tables` command: checks the environment, builds the connection
    string for the SQL driver, runs one query over the information schema and prints
    the rows that scan into three strings. */
module SqlCommand {
  import opened Wrappers
  import opened Text
  import opened Platform
  import Ui

  const Scheme := "https://"
  const DsnHead := "databricks://"
  const ListTablesQuery := "\n        SELECT table_catalog, table_schema, table_name \n        FROM system.information_schema.tables \n        WHERE table_catalog != 'system' \n        LIMIT 100\n        "
  const TableHeaders := ["Catalog", "Schema", "Table"]
  const MissingEnv := "Missing environment variables. Run 'dbx-explore auth login' first."

  /** The host without its `https://` scheme. The scheme is removed only from a host
      longer than the scheme itself: a bare `https://` is kept as it is. */
  function StripScheme(host: string): (r: string)
    ensures |host| > |Scheme| && HasPrefix(host, Scheme) ==> Scheme + r == host && r != []
    ensures !(|host| > |Scheme| && HasPrefix(host, Scheme)) ==> r == host
  {
    if |host| > 8 && host[..8] == "https://" then host[8..] else host
  }

  /** What the stripping leaves for a few typical hosts: a bare scheme and a plain
      `http://` host are kept, a scheme is removed only once. */
  lemma StripSchemeExamples()
    ensures StripScheme("https://") == "https://"
    ensures StripScheme("http://adb.net") == "http://adb.net"
    ensures StripScheme("https://adb.net") == "adb.net"
    ensures StripScheme("https://https://x") == "https://x"
  {
    assert "http://adb.net"[..8] != Scheme by {
      assert "http://adb.net"[4] != Scheme[4];
    }
    assert "https://adb.net"[..8] == Scheme;
    assert "https://https://x"[..8] == Scheme;
  }

  /** The driver's connection string, with path and token inserted as they are. */
  function ConnString(host: string, httpPath: string, token: string): (dsn: string)
    ensures HasPrefix(dsn, DsnHead + host + ":443/default?httpPath=")
    ensures HasSuffix(dsn, "&accessToken=" + token)
  {
    DsnHead + host + ":443/default?httpPath=" + httpPath + "&accessToken=" + token
  }

  /** The text of `s` before the first `c`, or `None` when `c` does not occur. */
  function Before(s: string, c: char): (r: Option<string>)
    ensures r.Some? ==> HasPrefix(s, r.value) && c !in r.value && |r.value| < |s| && s[|r.value|] == c
    ensures r.None? <==> c !in s
  {
    if s == [] then None
    else if s[0] == c then Some([])
    else
      var rest := Before(s[1..], c);
      if rest.None? then None else Some([s[0]] + rest.value)
  }

  /** The text before the first `c` of `a + [c] + b` is `a` when `a` holds no `c`. */
  lemma {:induction false} BeforeFirst(a: string, c: char, b: string)
    requires c !in a
    ensures Before(a + [c] + b, c) == Some(a)
  {
    if a != [] {
      var s := a + [c] + b;
      assert s[0] == a[0] && s[1..] == a[1..] + [c] + b;
      BeforeFirst(a[1..], c, b);
      assert [a[0]] + a[1..] == a;
    }
  }

  /** The host a connection string names: the text between the head and the first
      `:`. */
  function DsnHost(dsn: string): Option<string>
  {
    if HasPrefix(dsn, DsnHead) then Before(dsn[|DsnHead|..], ':') else None
  }

  /** A host without a `:` is read back from its connection string, so the driver is
      sent to that host whatever the path and token are. */
  lemma DsnNamesHost(host: string, httpPath: string, token: string)
    requires ':' !in host
    ensures DsnHost(ConnString(host, httpPath, token)) == Some(host)
  {
    var dsn := ConnString(host, httpPath, token);
    var tail := "443/default?httpPath=" + httpPath + "&accessToken=" + token;
    assert dsn[|DsnHead|..] == host + [':'] + tail;
    BeforeFirst(host, ':', tail);
  }

  /** One row as the driver returns it: a cell per column, `None` for SQL NULL. */
  datatype SqlRow = SqlRow(cells: seq<Option<string>>)

  /** `rows.Scan` into three strings: fails unless the row has exactly three
      columns, none of them NULL. */
  function Scan(row: SqlRow): (r: Option<seq<string>>)
    ensures r.Some? <==> |row.cells| == 3 && forall i :: 0 <= i < 3 ==> row.cells[i].Some?
    ensures r.Some? ==> |r.value| == 3 && forall i :: 0 <= i < 3 ==> r.value[i] == row.cells[i].value
  {
    if |row.cells| == 3 && row.cells[0].Some? && row.cells[1].Some? && row.cells[2].Some? then
      Some([row.cells[0].value, row.cells[1].value, row.cells[2].value])
    else None
  }

  /** The rows kept: those that scan, in their order. */
  function Scanned(rows: seq<SqlRow>): seq<seq<string>>
  {
    if rows == [] then []
    else
      var last := Scan(rows[|rows| - 1]);
      Scanned(rows[..|rows| - 1]) + (if last.Some? then [last.value] else [])
  }

  /** One error line for each row that does not scan. */
  function ScanErrors(rows: seq<SqlRow>): seq<Event>
  {
    if rows == [] then []
    else
      var last := Scan(rows[|rows| - 1]);
      ScanErrors(rows[..|rows| - 1]) + (if last.None? then [Failure("Scan failed")] else [])
  }

  /** Every row is either kept or reported, every kept row has three cells, and
      when no row fails to scan all rows are kept, in order. */
  lemma ScannedAccounts(rows: seq<SqlRow>)
    ensures |Scanned(rows)| + |ScanErrors(rows)| == |rows|
    ensures forall k :: 0 <= k < |Scanned(rows)| ==> |Scanned(rows)[k]| == 3
    ensures (forall i :: 0 <= i < |rows| ==> Scan(rows[i]).Some?) ==>
      Scanned(rows) == seq(|rows|, i requires 0 <= i < |rows| => Scan(rows[i]).value)
  {
    ScannedCount(rows);
    ScannedWidth(rows);
    if forall i :: 0 <= i < |rows| ==> Scan(rows[i]).Some? {
      ScannedAll(rows);
    }
  }

  /** Each row is either kept or reported as an error. */
  lemma {:induction false} ScannedCount(rows: seq<SqlRow>)
    ensures |Scanned(rows)| + |ScanErrors(rows)| == |rows|
  {
    if rows != [] {
      ScannedCount(rows[..|rows| - 1]);
    }
  }

  /** Every kept row has exactly the three cells of a table listing. */
  lemma {:induction false} ScannedWidth(rows: seq<SqlRow>)
    ensures forall k :: 0 <= k < |Scanned(rows)| ==> |Scanned(rows)[k]| == 3
  {
    if rows != [] {
      ScannedWidth(rows[..|rows| - 1]);
    }
  }

  /** Without scan errors the kept rows are the scans of all rows, in order. */
  lemma {:induction false} ScannedAll(rows: seq<SqlRow>)
    requires forall i :: 0 <= i < |rows| ==> Scan(rows[i]).Some?
    ensures Scanned(rows) == seq(|rows|, i requires 0 <= i < |rows| => Scan(rows[i]).value)
  {
    if rows != [] {
      var init := rows[..|rows| - 1];
      assert forall i :: 0 <= i < |init| ==> Scan(init[i]).Some? by {
        forall i | 0 <= i < |init| ensures Scan(init[i]).Some? {
          assert init[i] == rows[i];
        }
      }
      ScannedAll(init);
      var kept := seq(|init|, i requires 0 <= i < |init| => Scan(init[i]).value);
      var last := Scan(rows[|rows| - 1]).value;
      assert Scanned(rows) == kept + [last];
      assert seq(|rows|, i requires 0 <= i < |rows| => Scan(rows[i]).value) == kept + [last];
    }
  }

  /** Kept rows are the kept rows of each part, in order. */
  lemma {:induction false} ScannedAppend(a: seq<SqlRow>, b: seq<SqlRow>)
    ensures Scanned(a + b) == Scanned(a) + Scanned(b)
    ensures ScanErrors(a + b) == ScanErrors(a) + ScanErrors(b)
    decreases |b|
  {
    if b == [] {
      assert a + b == a;
    } else {
      var b' := b[..|b| - 1];
      assert (a + b)[..|a + b| - 1] == a + b';
      ScannedAppend(a, b');
    }
  }

  /** The driver side of `database/sql` as the command sees it: whether opening fails,
      the scripted query results, and a log of the connection strings opened and the
      queries run. */
  class SqlDriver {
    var openFails: bool
    var results: seq<Option<seq<SqlRow>>>
    var dsns: seq<string>
    var queries: seq<string>

    constructor (openFails: bool, results: seq<Option<seq<SqlRow>>>)
      ensures this.openFails == openFails && this.results == results
      ensures dsns == [] && queries == []
    {
      this.openFails := openFails;
      this.results := results;
      dsns := [];
      queries := [];
    }

    /** `sql.Open`: records the connection string; fails when scripted to. */
    method Open(dsn: string) returns (ok: bool)
      modifies this`dsns
      ensures dsns == old(dsns) + [dsn] && ok == !openFails
    {
      dsns := dsns + [dsn];
      ok := !openFails;
    }

    /** `db.Query`: records the query and gives the next scripted result (`None` is
        a query error). */
    method Query(q: string) returns (r: Option<seq<SqlRow>>)
      modifies this`results, this`queries
      ensures queries == old(queries) + [q]
      ensures r == HeadOr(old(results), None) && results == Tail(old(results))
    {
      queries := queries + [q];
      r := HeadOr(results, None);
      results := Tail(results);
    }
  }

  /** The `rows.Next` loop: keeps each row that scans and reports each one that does
      not, then goes on with the next row. */
  method ScanRows(rows: seq<SqlRow>, term: Terminal) returns (result: seq<seq<string>>)
    modifies term`trace
    ensures result == Scanned(rows)
    ensures term.trace == old(term.trace) + ScanErrors(rows)
  {
    result := [];
    for i := 0 to |rows|
      invariant result == Scanned(rows[..i])
      invariant term.trace == old(term.trace) + ScanErrors(rows[..i])
    {
      assert rows[..i + 1][..i] == rows[..i];
      var scanned := Scan(rows[i]);
      if scanned.None? {
        term.Emit(Failure("Scan failed"));
        continue;
      }
      result := result + [scanned.value];
    }
    assert rows[..|rows|] == rows;
  }

  /** All three variables the command needs are set. */
  predicate HasSqlEnv(env: map<string, string>)
  {
    Lookup(env, HostKey) != "" && Lookup(env, TokenKey) != "" && Lookup(env, HttpPathKey) != ""
  }

  /** The connection string built from the environment. */
  function EnvDsn(env: map<string, string>): string
  {
    ConnString(StripScheme(Lookup(env, HostKey)), Lookup(env, HttpPathKey), Lookup(env, TokenKey))
  }

  /** `listTablesCmd`. Exits with status 1 when a variable is missing (before any
      connection is opened), when opening fails or when the query fails; otherwise
      prints the rows that scan under the three headers and exits with status 0. */
  method ListTables(os: Os, db: SqlDriver, term: Terminal) returns (status: nat)
    modifies db`dsns, db`results, db`queries, term`trace
    ensures !HasSqlEnv(os.env) ==>
      status == 1 && db.dsns == old(db.dsns) && db.queries == old(db.queries) &&
      term.trace == old(term.trace) + [Info("Connecting to Databricks SQL..."), Failure(MissingEnv)]
    ensures HasSqlEnv(os.env) ==> db.dsns == old(db.dsns) + [EnvDsn(os.env)]
    ensures HasSqlEnv(os.env) && db.openFails ==>
      status == 1 && db.queries == old(db.queries) &&
      term.trace == old(term.trace) + [Info("Connecting to Databricks SQL..."), Failure("Failed to open connection")]
    ensures HasSqlEnv(os.env) && !db.openFails ==> db.queries == old(db.queries) + [ListTablesQuery]
    ensures var res := HeadOr(old(db.results), None);
      HasSqlEnv(os.env) && !db.openFails ==>
        && (res.None? <==> status == 1)
        && (res.None? ==>
              term.trace == old(term.trace) + [Info("Connecting to Databricks SQL..."), Failure("Query failed")])
        && (res.Some? ==>
              term.trace == old(term.trace) + [Info("Connecting to Databricks SQL...")]
                + ScanErrors(res.value) + [Printed(Ui.TableLines(TableHeaders, Scanned(res.value)))])
    ensures status == 0 || status == 1
  {
    term.Emit(Info("Connecting to Databricks SQL..."));
    var dsn := os.Getenv(HostKey);
    var token := os.Getenv(TokenKey);
    var httpPath := os.Getenv(HttpPathKey);
    if dsn == "" || token == "" || httpPath == "" {
      term.Emit(Failure(MissingEnv));
      return 1;
    }
    var host := dsn;
    if |host| > 8 && host[..8] == "https://" {
      host := host[8..];
    }
    var connStr := "databricks://" + host + ":443/default?httpPath=" + httpPath + "&accessToken=" + token;
    var ok := db.Open(connStr);
    if !ok {
      term.Emit(Failure("Failed to open connection"));
      return 1;
    }
    var rows := db.Query(ListTablesQuery);
    if rows.None? {
      term.Emit(Failure("Query failed"));
      return 1;
    }
    var result := ScanRows(rows.value, term);
    Ui.PrintTable(term, TableHeaders, result);
    return 0;
  }
}
