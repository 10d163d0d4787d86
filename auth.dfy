/** The credential store: a `KEY=VALUE` `.env` file plus four process environment
    variables, written by the interactive login, cleared by "Reset Credentials", and
    rewritten line by line when the warehouse changes. */
module Auth {
  import opened Wrappers
  import opened Text
  import opened Listings
  import opened Remote
  import opened Platform
  import Discovery

  const WarehousePrefix := "DATABRICKS_WAREHOUSE_ID="

  /** The line that records warehouse `id`. */
  function WarehouseLine(id: string): (line: string)
    ensures HasPrefix(line, WarehousePrefix) && line[|WarehousePrefix|..] == id
  {
    WarehousePrefix + id
  }

  predicate IsWarehouseLine(line: string)
  {
    HasPrefix(line, WarehousePrefix)
  }

  /** What the upsert loop makes of one line of the old file. */
  function Kept(line: string, id: string): seq<string>
  {
    if IsBlank(line) then []
    else if IsWarehouseLine(line) then [WarehouseLine(id)]
    else [line]
  }

  /** The lines the upsert loop collects from `lines`: blank lines dropped, warehouse
      lines replaced by the line for `id`, every other line kept in place. */
  function UpsertLines(lines: seq<string>, id: string): (r: seq<string>)
    ensures |r| <= |lines|
  {
    if lines == [] then []
    else UpsertLines(lines[..|lines| - 1], id) + Kept(lines[|lines| - 1], id)
  }

  /** Some non-blank line of `lines` is a warehouse line. */
  predicate AnyWarehouseLine(lines: seq<string>)
  {
    exists j :: 0 <= j < |lines| && !IsBlank(lines[j]) && IsWarehouseLine(lines[j])
  }

  /** The lines `UpdateEnvWarehouse` writes for old file text `content`. */
  function UpsertedLines(content: string, id: string): seq<string>
  {
    var lines := Split(content);
    var kept := UpsertLines(lines, id);
    if AnyWarehouseLine(lines) then kept else kept + [WarehouseLine(id)]
  }

  /** The new file text `UpdateEnvWarehouse` writes for old file text `content`. */
  function Upserted(content: string, id: string): string
  {
    Join(UpsertedLines(content, id), "\n") + "\n"
  }

  /** The lines of `lines` that are neither blank nor warehouse lines, in order. */
  function Others(lines: seq<string>): seq<string>
  {
    if lines == [] then []
    else
      var last := lines[|lines| - 1];
      Others(lines[..|lines| - 1]) + (if IsBlank(last) || IsWarehouseLine(last) then [] else [last])
  }

  lemma UpsertLinesAppend(lines: seq<string>, x: string, id: string)
    ensures UpsertLines(lines + [x], id) == UpsertLines(lines, id) + Kept(x, id)
  {
    assert (lines + [x])[..|lines|] == lines;
  }

  lemma OthersAppend(lines: seq<string>, x: string)
    ensures Others(lines + [x]) == Others(lines) + (if IsBlank(x) || IsWarehouseLine(x) then [] else [x])
  {
    assert (lines + [x])[..|lines|] == lines;
  }

  lemma WarehouseLineNotBlank(id: string)
    ensures !IsBlank(WarehouseLine(id))
  {
    assert WarehouseLine(id)[0] == 'D';
  }

  /** The upsert keeps every line other than blank and warehouse lines, in order,
      and adds no other line. */
  lemma {:induction false} UpsertKeepsOthers(lines: seq<string>, id: string)
    ensures Others(UpsertLines(lines, id)) == Others(lines)
  {
    if lines != [] {
      var init, x := lines[..|lines| - 1], lines[|lines| - 1];
      UpsertKeepsOthers(init, id);
      assert lines == init + [x];
      var k := Kept(x, id);
      OthersAppend(init, x);
      WarehouseLineNotBlank(id);
      if k == [] {
        assert UpsertLines(lines, id) == UpsertLines(init, id);
      } else {
        OthersAppend(UpsertLines(init, id), k[0]);
        assert UpsertLines(lines, id) == UpsertLines(init, id) + [k[0]];
      }
    }
  }

  /** Every collected line is non-blank, and every warehouse line among them is the
      line for `id`. */
  lemma {:induction false} UpsertLinesShape(lines: seq<string>, id: string)
    ensures forall j :: 0 <= j < |UpsertLines(lines, id)| ==> !IsBlank(UpsertLines(lines, id)[j])
    ensures forall j :: 0 <= j < |UpsertLines(lines, id)| && IsWarehouseLine(UpsertLines(lines, id)[j]) ==>
      UpsertLines(lines, id)[j] == WarehouseLine(id)
  {
    if lines != [] {
      UpsertLinesShape(lines[..|lines| - 1], id);
      WarehouseLineNotBlank(id);
    }
  }

  /** The collected lines hold a warehouse line exactly when the old lines did. */
  lemma {:induction false} UpsertFindsWarehouseLine(lines: seq<string>, id: string)
    ensures AnyWarehouseLine(lines) <==> WarehouseLine(id) in UpsertLines(lines, id)
  {
    if lines != [] {
      var init, x := lines[..|lines| - 1], lines[|lines| - 1];
      UpsertFindsWarehouseLine(init, id);
      UpsertLinesShape(init, id);
      WarehouseLineNotBlank(id);
      assert lines == init + [x];
      if AnyWarehouseLine(lines) && !AnyWarehouseLine(init) {
        assert !IsBlank(x) && IsWarehouseLine(x);
      }
      if AnyWarehouseLine(init) {
        var j :| 0 <= j < |init| && !IsBlank(init[j]) && IsWarehouseLine(init[j]);
        assert lines[j] == init[j];
      }
      if WarehouseLine(id) in UpsertLines(lines, id) && WarehouseLine(id) !in UpsertLines(init, id) {
        assert WarehouseLine(id) in Kept(x, id);
        assert lines[|lines| - 1] == x;
      }
    }
  }

  /** Lines already in upserted form are left as they are. */
  lemma {:induction false} UpsertFixed(lines: seq<string>, id: string)
    requires forall j :: 0 <= j < |lines| ==> !IsBlank(lines[j])
    requires forall j :: 0 <= j < |lines| && IsWarehouseLine(lines[j]) ==> lines[j] == WarehouseLine(id)
    ensures UpsertLines(lines, id) == lines
  {
    if lines != [] {
      var init := lines[..|lines| - 1];
      UpsertFixed(init, id);
      assert init + [lines[|lines| - 1]] == lines;
    }
  }

  /** No line `UpdateEnvWarehouse` writes has a newline in it, so the file it writes
      splits back into those lines plus the empty piece after the final newline. */
  lemma UpsertedSplits(content: string, id: string)
    requires '\n' !in id
    ensures UpsertedLines(content, id) != []
    ensures Split(Upserted(content, id)) == UpsertedLines(content, id) + [""]
  {
    var lines := Split(content);
    var out := UpsertedLines(content, id);
    UpsertFindsWarehouseLine(lines, id);
    assert WarehouseLine(id) in out;
    UpsertLinesNoNewlines(lines, id);
    assert NoNewlines(out);
    assert NoNewlines(out + [""]);
    JoinAppend(out, "", "\n");
    assert Join(out, "\n") + "\n" + "" == Upserted(content, id);
    SplitJoin(out + [""]);
  }

  lemma {:induction false} UpsertLinesNoNewlines(lines: seq<string>, id: string)
    requires NoNewlines(lines) && '\n' !in id
    ensures NoNewlines(UpsertLines(lines, id))
  {
    if lines != [] {
      UpsertLinesNoNewlines(lines[..|lines| - 1], id);
    }
  }

  /** The output of `UpdateEnvWarehouse` ends with a newline, has a warehouse line,
      has every warehouse line set to `id`, and has no blank line. */
  lemma UpsertedShape(content: string, id: string)
    ensures HasSuffix(Upserted(content, id), "\n")
    ensures WarehouseLine(id) in UpsertedLines(content, id)
    ensures forall j :: 0 <= j < |UpsertedLines(content, id)| ==> !IsBlank(UpsertedLines(content, id)[j])
    ensures forall j :: 0 <= j < |UpsertedLines(content, id)| && IsWarehouseLine(UpsertedLines(content, id)[j]) ==>
      UpsertedLines(content, id)[j] == WarehouseLine(id)
  {
    var lines := Split(content);
    var kept := UpsertLines(lines, id);
    UpsertFindsWarehouseLine(lines, id);
    UpsertLinesShape(lines, id);
    WarehouseLineNotBlank(id);
    if !AnyWarehouseLine(lines) {
      var out := kept + [WarehouseLine(id)];
      assert UpsertedLines(content, id) == out;
      assert forall j :: 0 <= j < |kept| ==> out[j] == kept[j];
    }
  }

  /** `UpdateEnvWarehouse` keeps every line of the old file other than blank and
      warehouse lines, in their old order, and adds no other line. */
  lemma UpsertedKeepsOthers(content: string, id: string)
    ensures Others(UpsertedLines(content, id)) == Others(Split(content))
  {
    var lines := Split(content);
    UpsertKeepsOthers(lines, id);
    if !AnyWarehouseLine(lines) {
      OthersAppend(UpsertLines(lines, id), WarehouseLine(id));
    }
  }

  /** Choosing the same warehouse twice leaves the file as choosing it once. */
  lemma UpsertIdempotent(content: string, id: string)
    requires '\n' !in id
    ensures Upserted(Upserted(content, id), id) == Upserted(content, id)
  {
    var out := UpsertedLines(content, id);
    UpsertedShape(content, id);
    UpsertedSplits(content, id);
    var again := Split(Upserted(content, id));
    assert again == out + [""];
    UpsertLinesAppend(out, "", id);
    UpsertFixed(out, id);
    assert UpsertLines(again, id) == out;
    var j :| 0 <= j < |out| && out[j] == WarehouseLine(id);
    WarehouseLineNotBlank(id);
    assert again[j] == out[j];
    assert AnyWarehouseLine(again);
  }

  /** `UpdateEnvWarehouse`: reads the `.env` file (a missing file reads as empty
      text), upserts the warehouse line, writes the file back, and only then sets
      the environment variable. A read error other than "does not exist" returns
      before any write; a write error returns before the environment changes. */
  method UpdateEnvWarehouse(os: Os, id: string) returns (r: Outcome)
    modifies os`faults, os`dotenv, os`env
    ensures Fault(old(os.faults), 0) ==>
      r == Fail("failed to read .env") && os.dotenv == old(os.dotenv) && os.env == old(os.env) &&
      os.faults == Drop(old(os.faults), 1)
    ensures !Fault(old(os.faults), 0) && Fault(old(os.faults), 1) ==>
      r == Fail("failed to update .env") && os.dotenv == old(os.dotenv) && os.env == old(os.env) &&
      os.faults == Drop(old(os.faults), 2)
    ensures !Fault(old(os.faults), 0) && !Fault(old(os.faults), 1) ==>
      r == Pass && os.dotenv == Some(Upserted(TextOf(old(os.dotenv)), id)) &&
      os.env == old(os.env)[WarehouseIdKey := id] && os.faults == Drop(old(os.faults), 2)
  {
    ghost var faults0 := os.faults;
    var read := os.ReadFile();
    if read == ReadFailed {
      return Fail("failed to read .env");
    }
    var content := if read.Content? then read.text else "";
    assert content == TextOf(old(os.dotenv));
    var lines := Split(content);
    var newLines: seq<string> := [];
    var found := false;
    for i := 0 to |lines|
      invariant newLines == UpsertLines(lines[..i], id)
      invariant found <==> AnyWarehouseLine(lines[..i])
      invariant os.env == old(os.env) && os.dotenv == old(os.dotenv) && os.faults == Drop(faults0, 1)
    {
      var line := lines[i];
      assert lines[..i + 1] == lines[..i] + [line];
      UpsertLinesAppend(lines[..i], line, id);
      ExtendAny(lines[..i], line);
      if TrimSpace(line) == "" {
        assert Kept(line, id) == [];
        continue;
      }
      if HasPrefix(line, WarehousePrefix) {
        assert Kept(line, id) == [WarehouseLine(id)];
        newLines := newLines + [WarehouseLine(id)];
        found := true;
      } else {
        assert Kept(line, id) == [line];
        newLines := newLines + [line];
      }
    }
    assert lines[..|lines|] == lines;
    if !found {
      newLines := newLines + [WarehouseLine(id)];
    }
    assert newLines == UpsertedLines(content, id);
    var ok := os.WriteFile(Join(newLines, "\n") + "\n");
    DropDrop(faults0, 1, 1);
    if !ok {
      return Fail("failed to update .env");
    }
    os.Setenv(WarehouseIdKey, id);
    return Pass;
  }

  lemma ExtendAny(lines: seq<string>, x: string)
    ensures AnyWarehouseLine(lines + [x]) <==> AnyWarehouseLine(lines) || (!IsBlank(x) && IsWarehouseLine(x))
  {
    if AnyWarehouseLine(lines) {
      var j :| 0 <= j < |lines| && !IsBlank(lines[j]) && IsWarehouseLine(lines[j]);
      assert (lines + [x])[j] == lines[j];
    }
    if !IsBlank(x) && IsWarehouseLine(x) {
      assert (lines + [x])[|lines|] == x;
    }
  }

  /** `ClearCredentials`: unsets the four variables first, then removes the file. A
      missing file is success; any other remove error is returned, with the
      variables already unset and the file left as it was. */
  method ClearCredentials(os: Os, term: Terminal) returns (r: Outcome)
    modifies os`env, os`faults, os`dotenv, term`trace
    ensures os.env == old(os.env) - CredentialKeys
    ensures os.faults == Drop(old(os.faults), 1)
    ensures Fault(old(os.faults), 0) ==>
      r == Fail("failed to remove .env file") && os.dotenv == old(os.dotenv) && term.trace == old(term.trace)
    ensures !Fault(old(os.faults), 0) ==>
      r == Pass && os.dotenv == None && term.trace == old(term.trace) + [Success("Credentials cleared.")]
  {
    os.Unsetenv(HostKey);
    os.Unsetenv(TokenKey);
    os.Unsetenv(HttpPathKey);
    os.Unsetenv(WarehouseIdKey);
    assert os.env == old(os.env) - CredentialKeys;
    var removed := os.Remove();
    if removed == RemoveFailed {
      return Fail("failed to remove .env file");
    }
    term.Emit(Success("Credentials cleared."));
    return Pass;
  }

  /** The host as the login normalises it: white space trimmed, then one trailing
      slash dropped. */
  function NormalizeHost(line: string): (host: string)
    ensures host == TrimSpace(line) || host + "/" == TrimSpace(line)
    ensures HasSuffix(TrimSpace(line), "/") ==> host + "/" == TrimSpace(line)
    ensures host == "" ==> IsBlank(line) || TrimSpace(line) == "/"
  {
    TrimSuffix(TrimSpace(line), "/")
  }

  /** What a login saves. */
  datatype Credentials = Credentials(host: string, token: string, httpPath: string, warehouseId: string)

  /** The lines of the `.env` file a login writes: host, then token, then the HTTP
      path if there is one, then the warehouse id if there is one. */
  function CredentialLines(c: Credentials): (lines: seq<string>)
    ensures 2 <= |lines| <= 4
    ensures lines[0] == HostKey + "=" + c.host && lines[1] == TokenKey + "=" + c.token
    ensures |lines| == 2 + (if c.httpPath != "" then 1 else 0) + (if c.warehouseId != "" then 1 else 0)
    ensures c.httpPath != "" ==> lines[2] == HttpPathKey + "=" + c.httpPath
    ensures c.warehouseId != "" ==> lines[|lines| - 1] == WarehouseLine(c.warehouseId)
  {
    [HostKey + "=" + c.host, TokenKey + "=" + c.token]
    + (if c.httpPath != "" then [HttpPathKey + "=" + c.httpPath] else [])
    + (if c.warehouseId != "" then [WarehouseLine(c.warehouseId)] else [])
  }

  /** The text of a file written one newline-terminated line at a time. */
  function FileText(lines: seq<string>): string
  {
    if lines == [] then "" else FileText(lines[..|lines| - 1]) + lines[|lines| - 1] + "\n"
  }

  /** A file written line by line is its lines joined by newlines, plus a final newline. */
  lemma {:induction false} FileTextJoin(lines: seq<string>)
    requires lines != []
    ensures FileText(lines) == Join(lines, "\n") + "\n"
  {
    var init := lines[..|lines| - 1];
    if init == [] {
      assert lines == [lines[0]];
    } else {
      FileTextJoin(init);
      JoinAppend(init, lines[|lines| - 1], "\n");
      assert init + [lines[|lines| - 1]] == lines;
    }
  }

  /** The environment once the login has set what it saved: host and token always,
      the HTTP path and warehouse id only when non-empty. */
  function WithCredentials(env: map<string, string>, c: Credentials): map<string, string>
  {
    var e := env[HostKey := c.host][TokenKey := c.token];
    var e' := if c.httpPath != "" then e[HttpPathKey := c.httpPath] else e;
    if c.warehouseId != "" then e'[WarehouseIdKey := c.warehouseId] else e'
  }

  /** Saving credentials sets the host and token and touches no variable other
      than the four credential variables. */
  lemma WithCredentialsKeeps(env: map<string, string>, c: Credentials)
    ensures Lookup(WithCredentials(env, c), HostKey) == c.host
    ensures Lookup(WithCredentials(env, c), TokenKey) == c.token
    ensures forall k :: k !in CredentialKeys ==> Lookup(WithCredentials(env, c), k) == Lookup(env, k)
  {
  }

  /** Appends line `i` of `lines` to the file holding the lines before it. */
  method AppendLine(os: Os, lines: seq<string>, i: nat) returns (ok: bool)
    requires i < |lines|
    requires os.dotenv == Some(FileText(lines[..i]))
    modifies os`faults, os`dotenv
    ensures os.faults == Drop(old(os.faults), 1)
    ensures ok == !Fault(old(os.faults), 0)
    ensures os.dotenv == if ok then Some(FileText(lines[..i + 1])) else old(os.dotenv)
  {
    ok := os.Append(lines[i] + "\n");
    assert lines[..i + 1][..i] == lines[..i];
    assert FileText(lines[..i + 1]) == FileText(lines[..i]) + lines[i] + "\n";
    assert FileText(lines[..i]) + (lines[i] + "\n") == FileText(lines[..i]) + lines[i] + "\n";
  }

  /** Whether every file-system call of the save of `c` succeeds. */
  predicate SaveSucceeds(faults: seq<bool>, c: Credentials)
  {
    FirstFault(faults, 1 + |CredentialLines(c)|) == 1 + |CredentialLines(c)|
  }

  /** The `.env` file after the save of `c`: untouched if the create fails, else the
      lines written before the first failing write (all of them without one). */
  function FileAfterSave(file: Option<string>, faults: seq<bool>, c: Credentials): Option<string>
  {
    var k := FirstFault(faults, 1 + |CredentialLines(c)|);
    if k == 0 then file else Some(FileText(CredentialLines(c)[..k - 1]))
  }

  /** The fault script after the save of `c`: one entry per call made, and the calls
      stop at the first failure. */
  function FaultsAfterSave(faults: seq<bool>, c: Credentials): seq<bool>
  {
    var n := 1 + |CredentialLines(c)|;
    var k := FirstFault(faults, n);
    Drop(faults, if k == n then n else k + 1)
  }

  /** The save step of the login: creates the file, writes its lines one by one, and
      gives up at the first failing call. The file then holds the lines written
      before the failure (nothing was created if the create failed). The
      environment is not touched here. */
  method SaveCredentials(os: Os, c: Credentials) returns (ok: bool)
    modifies os`faults, os`dotenv
    ensures ok == SaveSucceeds(old(os.faults), c)
    ensures os.dotenv == FileAfterSave(old(os.dotenv), old(os.faults), c)
    ensures os.faults == FaultsAfterSave(old(os.faults), c)
  {
    ghost var f := os.faults;
    var lines := CredentialLines(c);
    ok := os.Create();
    if !ok {
      return;
    }
    assert lines[..0] == [];
    var i := 0;
    ok := AppendLine(os, lines, 0);
    DropDrop(f, 1, 1);
    if !ok {
      return;
    }
    ok := AppendLine(os, lines, 1);
    DropDrop(f, 2, 1);
    if !ok {
      return;
    }
    i := 2;
    if c.httpPath != "" {
      ok := AppendLine(os, lines, 2);
      DropDrop(f, 3, 1);
      if !ok {
        return;
      }
      i := 3;
    }
    if c.warehouseId != "" {
      ok := AppendLine(os, lines, i);
      DropDrop(f, i + 1, 1);
      if !ok {
        return;
      }
      i := i + 1;
    }
    assert i == |lines| && lines[..i] == lines;
  }

  const LoginBanner := "Starting Databricks Setup..."

  /** The HTTP path a listed warehouse advertises, "" when it has no ODBC parameters. */
  function OdbcPath(w: Warehouse): string
  {
    if w.odbcPath.Some? then w.odbcPath.value else ""
  }

  /** The credentials a login settles on, from the host and token lines, the
      discovery result, and the manual HTTP path line that is read only when
      discovery fails. With a failed discovery there is no warehouse id. */
  function Settled(host: string, token: string, best: Result<Warehouse>, manualPath: string): Credentials
  {
    if best.Err? then Credentials(host, token, TrimSpace(manualPath), "")
    else Credentials(host, token, OdbcPath(best.value), best.value.id)
  }

  /** Step 4 of the login: discovers a warehouse for the host and token and settles
      the HTTP path and warehouse id; when discovery fails, the HTTP path is read
      from standard input instead and there is no warehouse id. */
  method DiscoverCredentials(os: Os, svc: Service, term: Terminal, host: string, token: string) returns (c: Credentials)
    modifies os`stdin, svc`warehouses, svc`calls, term`trace
    ensures c == Settled(host, token, Discovery.Best(HeadOr(old(svc.warehouses), Listing([], true))), LineAt(old(os.stdin), 0))
    ensures os.stdin == if Discovery.Best(HeadOr(old(svc.warehouses), Listing([], true))).Ok? then old(os.stdin)
      else Drop(old(os.stdin), 1)
    ensures svc.calls == old(svc.calls) + [ListWarehousesCall] && svc.warehouses == Tail(old(svc.warehouses))
    ensures old(term.trace) <= term.trace
  {
    term.Emit(Info("Auto-discovering SQL Warehouses..."));
    var listing := svc.ListWarehouses();
    var best := Discovery.DiscoverBestWarehouse(listing);
    var httpPath := "";
    var id := "";
    if best.Err? {
      term.Emit(Failure("Auto-discovery failed: " + best.message));
      var pathLine := os.ReadLine();
      httpPath := TrimSpace(pathLine);
    } else {
      term.Emit(Success("Selected SQL Warehouse: " + best.value.name));
      if best.value.odbcPath.Some? {
        httpPath := best.value.odbcPath.value;
      }
      if httpPath == "" {
        term.Emit(Failure("Could not determine HTTP Path from warehouse metadata."));
      }
      id := best.value.id;
    }
    c := Credentials(host, token, httpPath, id);
  }

  /** Step 5 of the login: saves the file and, only when every write succeeded,
      sets the environment to the saved values. */
  method PersistCredentials(os: Os, term: Terminal, c: Credentials) returns (r: Result<Credentials>)
    modifies os`faults, os`dotenv, os`env, term`trace
    ensures r == if SaveSucceeds(old(os.faults), c) then Ok(c) else Err("failed to save .env file")
    ensures os.dotenv == FileAfterSave(old(os.dotenv), old(os.faults), c)
    ensures os.faults == FaultsAfterSave(old(os.faults), c)
    ensures os.env == if r.Ok? then WithCredentials(old(os.env), c) else old(os.env)
    ensures old(term.trace) <= term.trace
  {
    var saved := SaveCredentials(os, c);
    if !saved {
      return Err("failed to save .env file");
    }
    term.Emit(Success("Credentials saved to .env"));
    os.Setenv(HostKey, c.host);
    os.Setenv(TokenKey, c.token);
    if c.httpPath != "" {
      os.Setenv(HttpPathKey, c.httpPath);
    }
    if c.warehouseId != "" {
      os.Setenv(WarehouseIdKey, c.warehouseId);
    }
    return Ok(c);
  }

  /** Step 2 of the login: points the user at the page where tokens are made. The
      browser itself is not part of this model. */
  method ShowTokenPage(term: Terminal, host: string)
    modifies term`trace
    ensures term.trace == old(term.trace) + [
      Info("Opening browser to 'User Settings'..."),
      Info("\U{1F449} Action Required: Click on the 'Developer' tab (or 'Access tokens') to generate a new token."),
      Info("Link: " + host + "/#setting/account")]
  {
    ghost var trace0 := term.trace;
    var opening := Info("Opening browser to 'User Settings'...");
    var action := Info("\U{1F449} Action Required: Click on the 'Developer' tab (or 'Access tokens') to generate a new token.");
    var link := Info("Link: " + host + "/#setting/account");
    term.Emit(opening);
    term.Emit(action);
    term.Emit(link);
    assert term.trace == trace0 + [opening, action, link];
  }

  /** `RunInteractiveLogin`, with the nil-warehouse read after a failed discovery
      corrected: reads and normalises the host, reads the token, discovers a
      warehouse (or reads the HTTP path by hand), saves the file, and sets the
      environment only once every write has succeeded. An empty host or token
      fails before any file-system or remote call. The model returns the saved
      credentials where the source returns only `nil`. */
  method RunInteractiveLogin(os: Os, svc: Service, term: Terminal) returns (r: Result<Credentials>)
    modifies os`stdin, os`faults, os`dotenv, os`env, svc`warehouses, svc`calls, term`trace
    ensures var host := NormalizeHost(LineAt(old(os.stdin), 0));
      host == "" ==>
        && r == Err("host cannot be empty") && os.stdin == Drop(old(os.stdin), 1)
        && os.faults == old(os.faults) && os.dotenv == old(os.dotenv)
        && svc.warehouses == old(svc.warehouses) && svc.calls == old(svc.calls)
    ensures var host, token := NormalizeHost(LineAt(old(os.stdin), 0)), TrimSpace(LineAt(old(os.stdin), 1));
      host != "" && token == "" ==>
        && r == Err("token cannot be empty") && os.stdin == Drop(old(os.stdin), 2)
        && os.faults == old(os.faults) && os.dotenv == old(os.dotenv)
        && svc.warehouses == old(svc.warehouses) && svc.calls == old(svc.calls)
    ensures var host, token := NormalizeHost(LineAt(old(os.stdin), 0)), TrimSpace(LineAt(old(os.stdin), 1));
      var best := Discovery.Best(HeadOr(old(svc.warehouses), Listing([], true)));
      var c := Settled(host, token, best, LineAt(old(os.stdin), 2));
      host != "" && token != "" ==>
        && svc.calls == old(svc.calls) + [ListWarehousesCall] && svc.warehouses == Tail(old(svc.warehouses))
        && os.stdin == Drop(old(os.stdin), if best.Ok? then 2 else 3)
        && r == (if SaveSucceeds(old(os.faults), c) then Ok(c) else Err("failed to save .env file"))
        && os.dotenv == FileAfterSave(old(os.dotenv), old(os.faults), c)
        && os.faults == FaultsAfterSave(old(os.faults), c)
    ensures os.env == if r.Ok? then WithCredentials(old(os.env), r.value) else old(os.env)
    ensures r.Ok? ==> r.value.host != "" && r.value.token != ""
    ensures svc.calls == old(svc.calls) || svc.calls == old(svc.calls) + [ListWarehousesCall]
    ensures |old(term.trace)| < |term.trace| && old(term.trace) <= term.trace
    ensures term.trace[|old(term.trace)|] == Info(LoginBanner)
  {
    ghost var stdin0, trace0 := os.stdin, term.trace;
    var host, token := ReadLoginInput(os, term);
    if host == "" {
      return Err("host cannot be empty");
    }
    if token == "" {
      return Err("token cannot be empty");
    }
    ghost var trace1 := term.trace;
    DropLines(stdin0, 2, 1);
    var c;
    c, r := CompleteLogin(os, svc, term, host, token);
    assert trace0 <= trace1 <= term.trace;
  }

  /** Steps 1-3 of the login: prints the banner, reads and normalises the host,
      and, only when the host is not empty, shows the token page and reads the
      token. */
  method ReadLoginInput(os: Os, term: Terminal) returns (host: string, token: string)
    modifies os`stdin, term`trace
    ensures host == NormalizeHost(LineAt(old(os.stdin), 0))
    ensures host == "" ==> token == "" && os.stdin == Drop(old(os.stdin), 1)
    ensures host != "" ==> token == TrimSpace(LineAt(old(os.stdin), 1)) && os.stdin == Drop(old(os.stdin), 2)
    ensures |old(term.trace)| < |term.trace| && old(term.trace) <= term.trace
    ensures term.trace[|old(term.trace)|] == Info(LoginBanner)
  {
    ghost var stdin0 := os.stdin;
    term.Emit(Info(LoginBanner));
    var hostLine := os.ReadLine();
    host := NormalizeHost(hostLine);
    token := "";
    if host != "" {
      token := ReadToken(os, term, host);
      DropLines(stdin0, 1, 1);
    }
  }

  /** Steps 2-3 of the login: shows the token page for `host`, then reads the token
      line and trims it. */
  method ReadToken(os: Os, term: Terminal, host: string) returns (token: string)
    modifies os`stdin, term`trace
    ensures token == TrimSpace(LineAt(old(os.stdin), 0)) && os.stdin == Drop(old(os.stdin), 1)
    ensures old(term.trace) <= term.trace
  {
    ShowTokenPage(term, host);
    var tokenLine := os.ReadLine();
    token := TrimSpace(tokenLine);
  }

  /** Steps 4-6 of the login, for a host and token that are both present: the
      credentials settled by discovery, and the outcome of saving them. */
  method CompleteLogin(os: Os, svc: Service, term: Terminal, host: string, token: string)
    returns (c: Credentials, r: Result<Credentials>)
    modifies os`stdin, os`faults, os`dotenv, os`env, svc`warehouses, svc`calls, term`trace
    ensures c == Settled(host, token, Discovery.Best(HeadOr(old(svc.warehouses), Listing([], true))), LineAt(old(os.stdin), 0))
    ensures os.stdin == if Discovery.Best(HeadOr(old(svc.warehouses), Listing([], true))).Ok? then old(os.stdin)
      else Drop(old(os.stdin), 1)
    ensures svc.calls == old(svc.calls) + [ListWarehousesCall] && svc.warehouses == Tail(old(svc.warehouses))
    ensures r == (if SaveSucceeds(old(os.faults), c) then Ok(c) else Err("failed to save .env file"))
    ensures os.dotenv == FileAfterSave(old(os.dotenv), old(os.faults), c)
    ensures os.faults == FaultsAfterSave(old(os.faults), c)
    ensures os.env == (if r.Ok? then WithCredentials(old(os.env), c) else old(os.env))
    ensures old(term.trace) <= term.trace
  {
    c := DiscoverCredentials(os, svc, term, host, token);
    r := PersistCredentials(os, term, c);
  }

  /** One step of the save in login.go:74-89 as written. */
  datatype SaveStep = Wrote(line: string) | Panicked

  /** The save of login.go:74-89 as written, for the discovery result `warehouse`
      (`None` is the nil pointer a failed discovery leaves): the host, token and
      HTTP path lines are written, and then the warehouse id is read through the
      pointer, which panics when it is nil. */
  function SaveAsWritten(host: string, token: string, httpPath: string, warehouse: Option<Warehouse>): (steps: seq<SaveStep>)
    ensures warehouse.Some? ==>
      steps == seq(|CredentialLines(Credentials(host, token, httpPath, warehouse.value.id))|,
        i requires 0 <= i < |CredentialLines(Credentials(host, token, httpPath, warehouse.value.id))| =>
          Wrote(CredentialLines(Credentials(host, token, httpPath, warehouse.value.id))[i]))
    ensures warehouse.None? <==> Panicked in steps
  {
    var lines := CredentialLines(Credentials(host, token, httpPath, if warehouse.Some? then warehouse.value.id else ""));
    var written := seq(|lines|, i requires 0 <= i < |lines| => Wrote(lines[i]));
    if warehouse.None? then written + [Panicked] else written
  }

  /** With a failed discovery the save as written always panics, after the host and
      token lines (and the path line, if any) are already in the file and before
      the environment is set. */
  lemma FailedDiscoveryPanics(host: string, token: string, httpPath: string)
    ensures var steps := SaveAsWritten(host, token, httpPath, None);
      && steps[|steps| - 1] == Panicked
      && steps[0] == Wrote(HostKey + "=" + host) && steps[1] == Wrote(TokenKey + "=" + token)
  {
  }

  /** With a failed discovery and no HTTP path, the save as written writes the host
      and token lines and then panics. */
  lemma EmptyPathPanics(host: string, token: string)
    ensures SaveAsWritten(host, token, "", None) ==
      [Wrote(HostKey + "=" + host), Wrote(TokenKey + "=" + token), Panicked]
  {
    var lines := CredentialLines(Credentials(host, token, "", ""));
    var written := seq(|lines|, i requires 0 <= i < |lines| => Wrote(lines[i]));
    assert written == [Wrote(lines[0]), Wrote(lines[1])];
  }

  /** A concrete case: discovery failed, the path typed by hand is empty. */
  lemma NilWarehouseExample()
    ensures SaveAsWritten("https://a.net", "t0", "", None) ==
      [Wrote("DATABRICKS_HOST=https://a.net"), Wrote("DATABRICKS_TOKEN=t0"), Panicked]
  {
    EmptyPathPanics("https://a.net", "t0");
    assert HostKey + "=" + "https://a.net" == "DATABRICKS_HOST=https://a.net";
    assert TokenKey + "=" + "t0" == "DATABRICKS_TOKEN=t0";
  }

  lemma KeyLinesAreNotWarehouseLines(v: string)
    ensures !IsWarehouseLine(HostKey + "=" + v) && !IsBlank(HostKey + "=" + v)
    ensures !IsWarehouseLine(TokenKey + "=" + v) && !IsBlank(TokenKey + "=" + v)
    ensures !IsWarehouseLine(HttpPathKey + "=" + v) && !IsBlank(HttpPathKey + "=" + v)
  {
    assert (HostKey + "=" + v)[11] == 'H' && (HostKey + "=" + v)[0] == 'D';
    assert (TokenKey + "=" + v)[11] == 'T' && (TokenKey + "=" + v)[0] == 'D';
    assert (HttpPathKey + "=" + v)[11] == 'H' && (HttpPathKey + "=" + v)[0] == 'D';
    assert WarehousePrefix[11] == 'W';
  }

  predicate NoNewlineIn(c: Credentials)
  {
    '\n' !in c.host && '\n' !in c.token && '\n' !in c.httpPath && '\n' !in c.warehouseId
  }

  /** The lines a login writes before the warehouse line: neither blank nor
      warehouse lines, and the warehouse line (if any) follows them. */
  lemma KeyLines(c: Credentials)
    ensures var base := CredentialLines(c.(warehouseId := ""));
      && (forall j :: 0 <= j < |base| ==> !IsBlank(base[j]) && !IsWarehouseLine(base[j]))
      && CredentialLines(c) == base + (if c.warehouseId != "" then [WarehouseLine(c.warehouseId)] else [])
  {
    KeyLinesAreNotWarehouseLines(c.host);
    KeyLinesAreNotWarehouseLines(c.token);
    KeyLinesAreNotWarehouseLines(c.httpPath);
  }

  /** A file written line by line splits back into its lines and the empty piece
      after the last newline. */
  lemma SplitFileText(lines: seq<string>)
    requires lines != [] && NoNewlines(lines)
    ensures Split(FileText(lines)) == lines + [""]
  {
    FileTextJoin(lines);
    JoinAppend(lines, "", "\n");
    assert Join(lines, "\n") + "\n" + "" == FileText(lines);
    assert NoNewlines(lines + [""]);
    SplitJoin(lines + [""]);
  }

  /** Upserting `id` into the lines of a login without a warehouse line appends it. */
  lemma UpsertAfterKeyLines(base: seq<string>, id: string)
    requires forall j :: 0 <= j < |base| ==> !IsBlank(base[j]) && !IsWarehouseLine(base[j])
    ensures UpsertLines(base + [""], id) == base
    ensures !AnyWarehouseLine(base + [""])
  {
    UpsertLinesAppend(base, "", id);
    UpsertFixed(base, id);
  }

  /** Upserting `id` into the lines of a login with a warehouse line replaces it. */
  lemma UpsertAfterWarehouseLine(base: seq<string>, old_id: string, id: string)
    requires forall j :: 0 <= j < |base| ==> !IsBlank(base[j]) && !IsWarehouseLine(base[j])
    ensures UpsertLines(base + [WarehouseLine(old_id), ""], id) == base + [WarehouseLine(id)]
    ensures AnyWarehouseLine(base + [WarehouseLine(old_id), ""])
  {
    var lines := base + [WarehouseLine(old_id)];
    assert base + [WarehouseLine(old_id), ""] == lines + [""];
    WarehouseLineNotBlank(old_id);
    UpsertLinesAppend(lines, "", id);
    UpsertLinesAppend(base, WarehouseLine(old_id), id);
    UpsertFixed(base, id);
    assert (lines + [""])[|base|] == WarehouseLine(old_id);
  }

  /** Choosing warehouse `id` after a login rewrites exactly the warehouse line of
      the file the login wrote: the result is the file that login would have
      written had it discovered `id`. */
  lemma SaveThenUpsert(c: Credentials, id: string)
    requires NoNewlineIn(c) && '\n' !in id && id != ""
    ensures Upserted(FileText(CredentialLines(c)), id) == FileText(CredentialLines(c.(warehouseId := id)))
  {
    var lines := CredentialLines(c);
    var after := CredentialLines(c.(warehouseId := id));
    var base := CredentialLines(c.(warehouseId := ""));
    KeyLines(c);
    KeyLines(c.(warehouseId := id));
    assert c.(warehouseId := id).(warehouseId := "") == c.(warehouseId := "");
    assert after == base + [WarehouseLine(id)];
    assert NoNewlines(lines);
    SplitFileText(lines);
    if c.warehouseId == "" {
      UpsertAfterKeyLines(base, id);
    } else {
      UpsertAfterWarehouseLine(base, c.warehouseId, id);
      assert lines + [""] == base + [WarehouseLine(c.warehouseId), ""];
    }
    assert UpsertedLines(FileText(lines), id) == after;
    FileTextJoin(after);
  }
}
