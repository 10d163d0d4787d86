/** The world the explorer runs in: the process (environment variables, the `.env`
    file, standard input), the remote workspace, and the terminal. Each is a class
    whose fields the operations update in place; what the outside world answers is
    a script of answers fixed up front, consumed one entry per call. */
module Platform {
  import opened Wrappers
  import opened Listings
  import opened Remote

  const HostKey := "DATABRICKS_HOST"
  const TokenKey := "DATABRICKS_TOKEN"
  const HttpPathKey := "DATABRICKS_HTTP_PATH"
  const WarehouseIdKey := "DATABRICKS_WAREHOUSE_ID"

  /** The four variables the credential store manages. */
  const CredentialKeys: set<string> := {HostKey, TokenKey, HttpPathKey, WarehouseIdKey}

  /** `os.Getenv`: the value of `key`, or "" when it is unset. */
  function Lookup(env: map<string, string>, key: string): (v: string)
    ensures key !in env ==> v == ""
    ensures key in env ==> v == env[key]
  {
    if key in env then env[key] else ""
  }

  /** Whether the file-system call numbered `i` (from 0) of a fault script fails. */
  predicate Fault(faults: seq<bool>, i: nat)
  {
    i < |faults| && faults[i]
  }

  /** The number of the first failing call among the next `n`, or `n` if none fails. */
  function FirstFault(faults: seq<bool>, n: nat): (k: nat)
    ensures k <= n
    ensures forall i :: 0 <= i < k ==> !Fault(faults, i)
    ensures k < n ==> Fault(faults, k)
  {
    if n == 0 then 0
    else
      var k := FirstFault(faults, n - 1);
      if k < n - 1 then k else if Fault(faults, n - 1) then n - 1 else n
  }

  /** Consuming `m` calls then `n` more is consuming `m + n`. */
  lemma DropDrop(faults: seq<bool>, m: nat, n: nat)
    ensures Drop(Drop(faults, m), n) == Drop(faults, m + n)
    ensures Fault(Drop(faults, m), 0) == Fault(faults, m)
  {
  }

  /** Reading `m` lines then `n` more is reading `m + n`. */
  lemma DropLines(lines: seq<string>, m: nat, n: nat)
    ensures Drop(Drop(lines, m), n) == Drop(lines, m + n)
    ensures LineAt(Drop(lines, m), 0) == LineAt(lines, m)
  {
  }

  /** Line `i` (from 0) of standard input, "" past its end. */
  function LineAt(lines: seq<string>, i: nat): (r: string)
    ensures i < |lines| ==> r == lines[i]
    ensures i >= |lines| ==> r == ""
  {
    if i < |lines| then lines[i] else ""
  }

  /** What reading the `.env` file gives. */
  datatype FileRead = Content(text: string) | Missing | ReadFailed

  /** What removing the `.env` file gives. */
  datatype RemoveResult = Removed | NotExist | RemoveFailed

  /** The process: its environment, the `.env` file in the working directory (`None`
      when there is none), the lines still to be read from standard input, and the
      script of file-system faults (`true` makes the next file-system call fail with
      an error other than "does not exist"; an exhausted script means no faults). */
  class Os {
    var env: map<string, string>
    var dotenv: Option<string>
    var stdin: seq<string>
    var faults: seq<bool>

    constructor (env0: map<string, string>, dotenv0: Option<string>, stdin0: seq<string>, faults0: seq<bool>)
      ensures env == env0 && dotenv == dotenv0 && stdin == stdin0 && faults == faults0
    {
      env := env0;
      dotenv := dotenv0;
      stdin := stdin0;
      faults := faults0;
    }

    function Getenv(key: string): (v: string)
      reads this
      ensures v == Lookup(env, key)
    {
      Lookup(env, key)
    }

    method Setenv(key: string, value: string)
      modifies this`env
      ensures env == old(env)[key := value]
    {
      env := env[key := value];
    }

    method Unsetenv(key: string)
      modifies this`env
      ensures env == old(env) - {key}
    {
      env := env - {key};
    }

    /** `reader.ReadString('\n')` without its newline; at end of input, "". */
    method ReadLine() returns (line: string)
      modifies this`stdin
      ensures line == LineAt(old(stdin), 0)
      ensures stdin == Drop(old(stdin), 1)
    {
      line := LineAt(stdin, 0);
      stdin := Drop(stdin, 1);
    }

    /** Whether the next file-system call fails. */
    method NextFault() returns (fail: bool)
      modifies this`faults
      ensures fail == Fault(old(faults), 0)
      ensures faults == Drop(old(faults), 1)
    {
      fail := Fault(faults, 0);
      faults := Drop(faults, 1);
    }

    /** `os.ReadFile(".env")`. */
    method ReadFile() returns (r: FileRead)
      modifies this`faults
      ensures faults == Drop(old(faults), 1)
      ensures Fault(old(faults), 0) ==> r == ReadFailed
      ensures !Fault(old(faults), 0) ==> r == if dotenv.Some? then Content(dotenv.value) else Missing
    {
      var fail := NextFault();
      if fail {
        return ReadFailed;
      }
      r := if dotenv.Some? then Content(dotenv.value) else Missing;
    }

    /** `os.WriteFile(".env", text, 0644)`: replaces the whole file. */
    method WriteFile(text: string) returns (ok: bool)
      modifies this`faults, this`dotenv
      ensures faults == Drop(old(faults), 1)
      ensures ok == !Fault(old(faults), 0)
      ensures dotenv == if ok then Some(text) else old(dotenv)
    {
      var fail := NextFault();
      ok := !fail;
      if ok {
        dotenv := Some(text);
      }
    }

    /** `os.Remove(".env")`. */
    method Remove() returns (r: RemoveResult)
      modifies this`faults, this`dotenv
      ensures faults == Drop(old(faults), 1)
      ensures Fault(old(faults), 0) ==> r == RemoveFailed && dotenv == old(dotenv)
      ensures !Fault(old(faults), 0) ==> r == (if old(dotenv).Some? then Removed else NotExist) && dotenv == None
    {
      var fail := NextFault();
      if fail {
        return RemoveFailed;
      }
      r := if dotenv.Some? then Removed else NotExist;
      dotenv := None;
    }

    /** `os.Create(".env")`: an empty file, truncating any old one. */
    method Create() returns (ok: bool)
      modifies this`faults, this`dotenv
      ensures faults == Drop(old(faults), 1)
      ensures ok == !Fault(old(faults), 0)
      ensures dotenv == if ok then Some("") else old(dotenv)
    {
      var fail := NextFault();
      ok := !fail;
      if ok {
        dotenv := Some("");
      }
    }

    /** `f.WriteString(text)` on the file `Create` opened: appends at its end. */
    method Append(text: string) returns (ok: bool)
      modifies this`faults, this`dotenv
      ensures faults == Drop(old(faults), 1)
      ensures ok == !Fault(old(faults), 0)
      ensures dotenv == if ok then Some(TextOf(old(dotenv)) + text) else old(dotenv)
    {
      var fail := NextFault();
      ok := !fail;
      if ok {
        dotenv := Some(TextOf(dotenv) + text);
      }
    }
  }

  /** The text of a file, "" when there is none. */
  function TextOf(file: Option<string>): (r: string)
    ensures file.Some? ==> r == file.value
    ensures file.None? ==> r == ""
  {
    if file.Some? then file.value else ""
  }

  /** A statement execution request: the warehouse, default catalog and schema, and
      the SQL text. */
  datatype StatementRequest = StatementRequest(warehouseId: string, catalog: string, schema: string, statement: string)

  /** A request sent to the workspace. */
  datatype Call =
    | ListCatalogsCall
    | ListSchemasCall(catalog: string)
    | ListTablesCall(catalog: string, schema: string)
    | GetTableCall(fullName: string)
    | ListWarehousesCall
    | GetWarehouseCall(id: string)
    | ExecuteCall(request: StatementRequest)

  /** The remote workspace: for each kind of request, the script of answers it gives
      in turn (an exhausted script answers with an error), and the log of requests
      received so far. */
  class Service {
    var catalogs: seq<Listing<CatalogInfo>>
    var schemas: seq<Listing<string>>
    var tables: seq<Listing<string>>
    var tableInfos: seq<Option<TableInfo>>
    var warehouses: seq<Listing<Warehouse>>
    var warehouseInfos: seq<Option<Warehouse>>
    var responses: seq<Option<StatementResponse>>
    var calls: seq<Call>

    constructor (
      catalogs0: seq<Listing<CatalogInfo>>, schemas0: seq<Listing<string>>, tables0: seq<Listing<string>>,
      tableInfos0: seq<Option<TableInfo>>, warehouses0: seq<Listing<Warehouse>>,
      warehouseInfos0: seq<Option<Warehouse>>, responses0: seq<Option<StatementResponse>>)
      ensures catalogs == catalogs0 && schemas == schemas0 && tables == tables0
      ensures tableInfos == tableInfos0 && warehouses == warehouses0
      ensures warehouseInfos == warehouseInfos0 && responses == responses0
      ensures calls == []
    {
      catalogs := catalogs0;
      schemas := schemas0;
      tables := tables0;
      tableInfos := tableInfos0;
      warehouses := warehouses0;
      warehouseInfos := warehouseInfos0;
      responses := responses0;
      calls := [];
    }

    /** `Catalogs.List`. */
    method ListCatalogs() returns (l: Listing<CatalogInfo>)
      modifies this`catalogs, this`calls
      ensures l == HeadOr(old(catalogs), Listing([], true)) && catalogs == Tail(old(catalogs))
      ensures calls == old(calls) + [ListCatalogsCall]
    {
      l := HeadOr(catalogs, Listing([], true));
      catalogs := Tail(catalogs);
      calls := calls + [ListCatalogsCall];
    }

    /** `Schemas.List` in `catalog`, reduced to the schema names. */
    method ListSchemas(catalog: string) returns (l: Listing<string>)
      modifies this`schemas, this`calls
      ensures l == HeadOr(old(schemas), Listing([], true)) && schemas == Tail(old(schemas))
      ensures calls == old(calls) + [ListSchemasCall(catalog)]
    {
      l := HeadOr(schemas, Listing([], true));
      schemas := Tail(schemas);
      calls := calls + [ListSchemasCall(catalog)];
    }

    /** `Tables.List` in `catalog.schema`, reduced to the table names. */
    method ListTables(catalog: string, schema: string) returns (l: Listing<string>)
      modifies this`tables, this`calls
      ensures l == HeadOr(old(tables), Listing([], true)) && tables == Tail(old(tables))
      ensures calls == old(calls) + [ListTablesCall(catalog, schema)]
    {
      l := HeadOr(tables, Listing([], true));
      tables := Tail(tables);
      calls := calls + [ListTablesCall(catalog, schema)];
    }

    /** `Tables.Get` by full name; `None` is an error. */
    method GetTable(fullName: string) returns (r: Option<TableInfo>)
      modifies this`tableInfos, this`calls
      ensures r == HeadOr(old(tableInfos), None) && tableInfos == Tail(old(tableInfos))
      ensures calls == old(calls) + [GetTableCall(fullName)]
    {
      r := HeadOr(tableInfos, None);
      tableInfos := Tail(tableInfos);
      calls := calls + [GetTableCall(fullName)];
    }

    /** `Warehouses.List`. */
    method ListWarehouses() returns (l: Listing<Warehouse>)
      modifies this`warehouses, this`calls
      ensures l == HeadOr(old(warehouses), Listing([], true)) && warehouses == Tail(old(warehouses))
      ensures calls == old(calls) + [ListWarehousesCall]
    {
      l := HeadOr(warehouses, Listing([], true));
      warehouses := Tail(warehouses);
      calls := calls + [ListWarehousesCall];
    }

    /** `Warehouses.Get` by id; `None` is an error. */
    method GetWarehouse(id: string) returns (r: Option<Warehouse>)
      modifies this`warehouseInfos, this`calls
      ensures r == HeadOr(old(warehouseInfos), None) && warehouseInfos == Tail(old(warehouseInfos))
      ensures calls == old(calls) + [GetWarehouseCall(id)]
    {
      r := HeadOr(warehouseInfos, None);
      warehouseInfos := Tail(warehouseInfos);
      calls := calls + [GetWarehouseCall(id)];
    }

    /** `StatementExecution.ExecuteAndWait`; `None` is an error. */
    method Execute(request: StatementRequest) returns (r: Option<StatementResponse>)
      modifies this`responses, this`calls
      ensures r == HeadOr(old(responses), None) && responses == Tail(old(responses))
      ensures calls == old(calls) + [ExecuteCall(request)]
    {
      r := HeadOr(responses, None);
      responses := Tail(responses);
      calls := calls + [ExecuteCall(request)];
    }
  }

  /** What the user does at a selection prompt: pick the item at an index, or end the
      prompt with an error (Ctrl-C, Ctrl-D). */
  datatype Answer = Pick(index: nat) | Abort

  /** The index a prompt over `items` returns for the next scripted answer, or `None`
      for a prompt error; when the answers are exhausted the prompt fails, and an
      index outside the list is also taken as a failure. */
  function Resolve(answers: seq<Answer>, items: seq<string>): (r: Option<nat>)
    ensures r.Some? ==> r.value < |items|
    ensures r.Some? <==> answers != [] && answers[0].Pick? && answers[0].index < |items|
  {
    if answers != [] && answers[0].Pick? && answers[0].index < |items| then Some(answers[0].index) else None
  }

  /** What the terminal shows. */
  datatype Event =
    | Header(text: string)
    | Info(text: string)
    | Success(text: string)
    | Failure(text: string)
    | Prompted(menu: string, items: seq<string>, picked: Option<nat>)
    | Printed(lines: seq<string>)

  /** The terminal: the user's scripted answers to selection prompts, and everything
      shown so far. */
  class Terminal {
    var answers: seq<Answer>
    var trace: seq<Event>

    constructor (answers0: seq<Answer>)
      ensures answers == answers0 && trace == []
    {
      answers := answers0;
      trace := [];
    }

    /** `SelectPrompt(menu, items)`: the chosen index, or `None` for a prompt error.
        Every prompt uses up one answer, so an interaction with `n` answers ends. */
    method Select(menu: string, items: seq<string>) returns (r: Option<nat>)
      modifies this
      ensures r == Resolve(old(answers), items)
      ensures answers == Tail(old(answers))
      ensures trace == old(trace) + [Prompted(menu, items, r)]
    {
      r := Resolve(answers, items);
      answers := Tail(answers);
      trace := trace + [Prompted(menu, items, r)];
    }

    method Emit(e: Event)
      modifies this`trace
      ensures trace == old(trace) + [e]
    {
      trace := trace + [e];
    }
  }
}
