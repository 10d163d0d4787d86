# dbx-explore in Dafny

`dbx-explore` is a terminal explorer for a Databricks workspace's Unity Catalog. This project
models the parts of it that hold logic of their own and proves properties of them:

- **The interactive journey** (`cmd/interactive.go`). A main menu leads into nested catalog,
  schema, table and table-action loops. There is a warehouse picker and three views of a table:
  its columns, its extended metadata and a five-row sample query.
- **The credential store** (`pkg/auth/login.go`). This covers the interactive login, "Reset
  Credentials", and the line-by-line rewrite of the `.env` file when the warehouse changes.
- **Warehouse discovery** (`pkg/auth/discovery.go`). It prefers a running warehouse, then a
  starting one, then any, and uses a stable sort to do so.
- **Terminal output** (`pkg/ui/ui.go`). This covers the message styles, the aligned table and
  the key/value listing. **The prompt's search filter** (`pkg/ui/prompts.go`).
- **The two one-shot commands.** `sql list-tables` (`cmd/sql.go`) and `catalog list-catalogs`
  (`cmd/catalog.go`).

The world the program runs in is made of classes whose fields the operations update in place:

- **`Platform.Os`:**
  - the process environment;
  - the `.env` file;
  - the lines still to come on standard input;
  - a script saying which file-system calls fail.
- **`Platform.Service`:** the Databricks workspace, as one script of answers per kind of
  request, plus a log of the requests it received.
- **`Platform.Terminal`:** the user's answers to selection prompts, and a trace of everything
  shown.
- **`SqlCommand.SqlDriver`:** the SQL driver, with its log of connection strings and queries.

Every script is finite:

- a prompt with no answer left fails, as Ctrl-D does;
- standard input past its end reads as empty lines;
- an exhausted remote script answers with an error.

Each loop of the journey prompts once per pass, so every loop provably ends.

Files and modules:

| file | module | what it holds |
|---|---|---|
| `wrappers.dfy` | `Wrappers` | `Option`, `Outcome`, `Result`, sequence helpers |
| `text.dfy` | `Text` | the Go string functions the code uses, and UTF-8 byte length |
| `listings.dfy` | `Listings` | the SDK's paginated iterator and the fail-fast drain |
| `remote.dfy` | `Remote` | the SDK records: warehouses, catalogs, tables, statement results |
| `platform.dfy` | `Platform` | `Os`, `Service`, `Terminal` |
| `discovery.dfy` | `Discovery` | `discovery.go` |
| `auth.dfy` | `Auth` | `login.go` |
| `ui.dfy` | `Ui` | `ui.go` |
| `prompts.dfy` | `Prompts` | `prompts.go` |
| `menus.dfy` | `InteractiveMenus` | the menus, items and rows of `interactive.go`, as values |
| `interactive.dfy` | `Interactive` | the loops and actions of `interactive.go` |
| `sqlcmd.dfy` | `SqlCommand` | `sql.go` |
| `catalogcmd.dfy` | `CatalogCommand` | `catalog.go` |

## Model

| member | source | states |
|---|---|---|
| Discovery.StatePriority | pkg/auth/discovery.go:61-70 | priority 0 exactly for RUNNING, 1 exactly for STARTING, at most 2 for every other state |
| Discovery.ListWarehouses | pkg/auth/discovery.go:13-25 | all warehouses in iteration order, or the "error iterating warehouses" error with no list when the iteration fails at any point |
| Discovery.WithPriority | pkg/auth/discovery.go:54-56 | the warehouses of one priority class are a sub-list, all of that priority |
| Discovery.StableByPriority | pkg/auth/discovery.go:51-56 | the stable order has as many warehouses as its input |
| Discovery.ClassSizes | pkg/auth/discovery.go:54-56 | the three priority classes together account for every warehouse |
| Discovery.ClassesPermute | pkg/auth/discovery.go:51-56 | the stable order holds the same multiset of warehouses |
| Discovery.StableByPriorityIsSortedPermutation | pkg/auth/discovery.go:51-56 | the stable order is sorted by priority and is a permutation of the input |
| Discovery.WithPriorityAppend | pkg/auth/discovery.go:54-56 | appending a warehouse extends exactly its own class |
| Discovery.StablePosition | pkg/auth/discovery.go:54-56 | each position of the stable order holds a warehouse of the class that position falls in |
| Discovery.StableAppend | pkg/auth/discovery.go:54-56 | appending a warehouse to the input puts it at the end of its class in the stable order |
| Discovery.InsertionIndex | pkg/auth/discovery.go:54-56 | the insertion sort's landing index is the end of the new warehouse's class |
| Discovery.InsertionPoint | pkg/auth/discovery.go:54-56 | inserting at that index extends the stable order of the prefix to the stable order of the longer prefix |
| Discovery.ShiftedPrefix | pkg/auth/discovery.go:54-56 | shifting the greater elements right and writing the new one leaves the insertion in the array |
| Discovery.InsertOne | pkg/auth/discovery.go:54-56 | one insertion step moves the element left past exactly the earlier elements of strictly greater priority, leaving the rest of the array alone |
| Discovery.SortByPriority | pkg/auth/discovery.go:51-56 | the in-place sort leaves the array holding the stable order by priority of its old contents |
| Discovery.NoneWithPriority | pkg/auth/discovery.go:54-56 | a class is empty when no warehouse has its priority |
| Discovery.FirstWithPriority | pkg/auth/discovery.go:54-56 | a class starts with the first warehouse of its priority |
| Discovery.StableHead | pkg/auth/discovery.go:58 | the first element of the stable order is the first warehouse of least priority |
| Discovery.FirstIndex | pkg/auth/discovery.go:54-58 | a priority that occurs has a first position of that priority |
| Discovery.FirstMinimal | pkg/auth/discovery.go:54-58 | a reference definition of the choice, without sorting: the first warehouse of least priority |
| Discovery.FirstMinimalUnique | pkg/auth/discovery.go:54-58 | there is only one first warehouse of least priority |
| Discovery.Best | pkg/auth/discovery.go:39-58 | discovery succeeds exactly when the listing neither fails nor is empty, and then picks a listed warehouse |
| Discovery.DiscoverBestWarehouse | pkg/auth/discovery.go:28-59 | listing, the empty-list error, then a stable sort of a copy and its first element give exactly `Best` |
| Discovery.PreferredWarehouse | pkg/auth/discovery.go:27-70 | the choice is the first running warehouse if any, else the first starting one if any, else the first listed |
| Listings.DrainAll | cmd/interactive.go:169-177 | a listing drain gives every item in order, or nothing at all when the iteration fails |
| Auth.WarehouseLine | pkg/auth/login.go:155-156 | the warehouse line is the `DATABRICKS_WAREHOUSE_ID=` prefix followed by the id |
| Auth.UpsertLines | pkg/auth/login.go:151-161 | the upsert loop never adds lines |
| Auth.UpsertLinesAppend | pkg/auth/login.go:151-161 | the loop handles one more line by appending what that line becomes |
| Auth.OthersAppend | pkg/auth/login.go:151-161 | the lines that are neither blank nor warehouse lines grow by one more line exactly when it is such a line |
| Auth.WarehouseLineNotBlank | pkg/auth/login.go:152-156 | a warehouse line is never blank |
| Auth.UpsertKeepsOthers | pkg/auth/login.go:151-161 | the loop keeps every line that is neither blank nor a warehouse line, in order, and adds no other such line |
| Auth.UpsertLinesShape | pkg/auth/login.go:151-161 | no collected line is blank, and every collected warehouse line is the line for the new id |
| Auth.UpsertFindsWarehouseLine | pkg/auth/login.go:149-161 | the `found` flag holds exactly when the collected lines contain the line for the new id |
| Auth.UpsertFixed | pkg/auth/login.go:151-161 | lines already in upserted form are left unchanged |
| Auth.UpsertedSplits | pkg/auth/login.go:147-168 | for an id without a newline, the file written splits back into the lines written plus the empty piece after the final newline |
| Auth.UpsertLinesNoNewlines | pkg/auth/login.go:151-161 | the upsert introduces no newline inside a line |
| Auth.UpsertedShape | pkg/auth/login.go:147-168 | the file written ends with a newline, has a warehouse line, sets every warehouse line to the new id and has no blank line |
| Auth.UpsertedKeepsOthers | pkg/auth/login.go:147-168 | every line of the old file that is neither blank nor a warehouse line survives, in the old order |
| Auth.UpsertIdempotent | pkg/auth/login.go:140-175 | for an id without a newline, choosing the same warehouse twice writes the same file as choosing it once |
| Auth.UpdateEnvWarehouse | pkg/auth/login.go:140-175 | a missing file reads as empty; a read error returns with no write and no env change; a write error returns with no env change; otherwise the upserted text is written and only then the variable set |
| Auth.ExtendAny | pkg/auth/login.go:151-161 | the `found` flag after one more line |
| Auth.ClearCredentials | pkg/auth/login.go:123-137 | all four variables are unset before the file is touched; a missing file is success; any other remove error is returned with the variables still unset and the file left |
| Auth.NormalizeHost | pkg/auth/login.go:22-24 | the host is the trimmed line less at most one trailing slash, and empty only for a blank line or a lone slash |
| Auth.CredentialLines | pkg/auth/login.go:74-89 | the host line, then the token line, then the HTTP path line only when the path is non-empty, then the warehouse line only when the id is non-empty |
| Auth.FileTextJoin | pkg/auth/login.go:74-89 | a file written line by line is its lines joined by newlines plus a final newline |
| Auth.WithCredentialsKeeps | pkg/auth/login.go:93-100 | setting the saved values sets host and token and leaves every other non-credential variable alone |
| Auth.AppendLine | pkg/auth/login.go:74-89 | one write appends its line, or leaves the file as it was when the write fails |
| Auth.SaveCredentials | pkg/auth/login.go:68-89 | create, then one write per line, stopping at the first failing call; the file then holds the lines written before it |
| Auth.DiscoverCredentials | pkg/auth/login.go:48-65 | one warehouse listing; the path and id come from the discovered warehouse, or the path is read by hand and there is no id when discovery fails |
| Auth.PersistCredentials | pkg/auth/login.go:67-100 | the environment is set to the saved values only when every write succeeded |
| Auth.ShowTokenPage | pkg/auth/login.go:30-36 | the three lines pointing at the token page of the given host |
| Auth.RunInteractiveLogin | pkg/auth/login.go:16-103 | an empty host or token fails before any file-system or remote call; otherwise one discovery, then the save, and the environment changes only on success; success always has a host and a token |
| Auth.ReadLoginInput | pkg/auth/login.go:17-46 | the banner first; the host line is normalised; the token line is read only for a non-empty host |
| Auth.ReadToken | pkg/auth/login.go:30-42 | after the token page for the host, the next standard input line, trimmed, is the token |
| Auth.CompleteLogin | pkg/auth/login.go:48-103 | for a host and token that are both present: the credentials discovery settles, the input it consumes, and the outcome, file, fault script and environment after saving them |
| Auth.SaveAsWritten | pkg/auth/login.go:74-89 | the save as written: with a discovered warehouse it writes exactly the credential lines, and it panics exactly when discovery failed |
| Auth.FailedDiscoveryPanics | pkg/auth/login.go:74-89 | after a failed discovery the host and token lines are written and the save then panics |
| Auth.EmptyPathPanics | pkg/auth/login.go:74-89 | after a failed discovery with no HTTP path, exactly the host and token lines are written, then the save panics |
| Auth.NilWarehouseExample | pkg/auth/login.go:85 | a concrete failed discovery: two lines written, then the panic |
| Auth.KeyLinesAreNotWarehouseLines | pkg/auth/login.go:74-83 | the host, token and path lines are neither blank nor warehouse lines |
| Auth.KeyLines | pkg/auth/login.go:74-89 | the login's lines are its key lines, followed by the warehouse line when there is an id |
| Auth.SplitFileText | pkg/auth/login.go:74-89 | a file written line by line splits back into its lines |
| Auth.UpsertAfterKeyLines | pkg/auth/login.go:151-165 | upserting into a login file without a warehouse line appends one |
| Auth.UpsertAfterWarehouseLine | pkg/auth/login.go:151-165 | upserting into a login file with a warehouse line replaces it |
| Auth.SaveThenUpsert | pkg/auth/login.go:74-89 | choosing a warehouse after a login writes the file that login would have written had it discovered that warehouse |
| Ui.HeaderLines | pkg/ui/ui.go:28-32 | a header is an empty line, then the title between `===` marks |
| Ui.MessageRoundTrip | pkg/ui/ui.go:10-26 | a printed info, success or error line shows both its style and its whole text |
| Ui.ColumnWidthBound | pkg/ui/ui.go:42-52 | a column is at least as wide as its header and every cell under it |
| Ui.ColumnWidthAttained | pkg/ui/ui.go:42-52 | and no wider: its width is that of its header or of one of its cells |
| Ui.ColumnWidthStep | pkg/ui/ui.go:46-52 | one more row widens a column only to that row's cell |
| Ui.ComputeWidths | pkg/ui/ui.go:42-52 | the two width loops compute the width of every column |
| Ui.PrintRow | pkg/ui/ui.go:100-116 | the printed row is the cells padded to their columns, joined by two spaces |
| Ui.PaddedWidth | pkg/ui/ui.go:104-108 | a padded cell is exactly as wide as its column |
| Ui.RowPrefixJoin | pkg/ui/ui.go:100-110 | the part of a row before cell `c` is the first `c` padded cells joined, then a gap |
| Ui.RowPrefixWidth | pkg/ui/ui.go:100-110 | that part is as wide as the columns before `c` with their gaps |
| Ui.RowPrefixStep | pkg/ui/ui.go:100-110 | each further cell widens that part by its column's width plus the two-space gap |
| Ui.RowLineAt | pkg/ui/ui.go:100-110 | cell `c` is printed right after that part |
| Ui.RowColumnAligned | pkg/ui/ui.go:100-110 | every cell of a row begins at its column's start offset |
| Ui.WidthsFit | pkg/ui/ui.go:42-63 | the computed widths fit the headers, the separators and every row, so no padding count is negative |
| Ui.TableShape | pkg/ui/ui.go:34-69 | no rows prints only the "No data found." note; otherwise a header line, a separator line and one line per row |
| Ui.TableColumnsAligned | pkg/ui/ui.go:34-69 | on every printed line of a table, cell `c` starts at the same byte offset |
| Ui.SeparatorRow | pkg/ui/ui.go:59-62 | one run of dashes per column, as wide as the column |
| Ui.PrintRows | pkg/ui/ui.go:66-68 | one laid-out line per data row, in order |
| Ui.RenderTable | pkg/ui/ui.go:34-69 | the lines printed are the table's lines |
| Ui.PrintTable | pkg/ui/ui.go:34-69 | the table's lines are shown |
| Ui.MaxLenBound | pkg/ui/ui.go:79-87 | the widest key is at least as wide as every key, and is the width of one of them |
| Ui.MaxLenSubset | pkg/ui/ui.go:79-87 | keys drawn from a set are no wider than the widest of the set |
| Ui.MaxLenOrderFree | pkg/ui/ui.go:79-87 | the widest key does not depend on the map's iteration order |
| Ui.PaddedKeyWidth | pkg/ui/ui.go:93-96 | every key is padded to the same width, so the ` : ` separators line up |
| Ui.PrintKeyValue | pkg/ui/ui.go:71-98 | the title header, then "No data available." for an empty map, else one line per key in an order listing every key once |
| Ui.CollectKeys | pkg/ui/ui.go:79-87 | the key loop lists every key once and finds the widest key's length |
| Ui.KeyValueRows | pkg/ui/ui.go:93-97 | one padded `key : value` line per key |
| Prompts.LowerFolds | pkg/ui/prompts.go:21 | lower-casing is idempotent and undoes upper-casing |
| Prompts.LowerSlice | pkg/ui/prompts.go:21 | lower-casing commutes with taking a slice |
| Prompts.EmptyInputListsAll | pkg/ui/prompts.go:15-22 | before anything is typed, every item is listed |
| Prompts.VerbatimListed | pkg/ui/prompts.go:15-22 | an item containing the typed text verbatim is listed |
| Prompts.ListedIsLongEnough | pkg/ui/prompts.go:17-21 | only in-range items at least as long as the typed text are listed |
| Prompts.SearchIgnoresCase | pkg/ui/prompts.go:15-22 | the search ignores the case of both the typed text and the items |
| Platform.Terminal.Select | pkg/ui/prompts.go:10-26 | a prompt returns the picked index within the items, or fails; it uses up one answer |
| InteractiveMenus.MainItemsDiffer | cmd/interactive.go:37-52 | the five main menu entries are different texts |
| InteractiveMenus.MainMenuOffers | cmd/interactive.go:35-52 | entries distinct, Start first, Exit last; Reset exactly when logged in; "Switch" exactly when logged in with a warehouse, "Select" exactly when logged in without |
| InteractiveMenus.WarehouseItemMarks | cmd/interactive.go:117-140 | an entry starts with the pointer exactly when its warehouse is the current one, and is never the cancel entry |
| InteractiveMenus.WarehouseMenuMarks | cmd/interactive.go:112-148 | in the warehouse menu exactly the current warehouse is marked, and only the appended last entry cancels |
| InteractiveMenus.SampleQuery | cmd/interactive.go:381 | the sample query starts with `SELECT * FROM ` and ends with ` LIMIT 5` |
| InteractiveMenus.SampleQueryNamesTable | cmd/interactive.go:381 | the sample query reads the very table whose details are fetched |
| InteractiveMenus.ColumnTableFilled | cmd/interactive.go:316-323 | one three-cell row per column, name first, comment shown as itself or "-" and never empty |
| InteractiveMenus.MetadataComplete | cmd/interactive.go:334-341 | the metadata always has its six labels, so it never takes the empty path |
| Interactive.MenuOf | cmd/interactive.go:184-189 | the menu is the names in order with the way back as the last entry |
| Interactive.PickName | cmd/interactive.go:191-198 | the picked name, or none on a prompt error or on the way back; a picked name is one of the names |
| Interactive.ListWarehouseItems | cmd/interactive.go:117-141 | one menu entry and one id per warehouse, in listing order |
| Interactive.WarehouseOutcome | cmd/interactive.go:96-157 | the warehouse picker opens with its banner and ends on the success line exactly when a picked warehouse is saved, on an error line exactly when the listing fails or is empty or the save fails, and on the prompt after a prompt error or cancel |
| Interactive.SaveWarehouse | cmd/interactive.go:150-156 | the update, then its error or "Selected Warehouse ID: id"; on success the id is in the environment and the file is the upsert of the old one |
| Interactive.SelectWarehouse | cmd/interactive.go:96-157 | one listing; the lines shown are the banner and then the listing error, "No SQL Warehouses found." or the warehouse prompt with the current one marked, followed by the save's outcome when a warehouse is picked; nothing changes on a listing error, an empty list, a prompt error or cancel; otherwise the id of the warehouse on the picked line is saved through `UpdateEnvWarehouse` |
| Interactive.PickedIsName | cmd/interactive.go:191-197 | a pass goes into an entry exactly when the prompt answers and the answer is not the way back; that entry is one of the listed names |
| Interactive.CatalogLeaves | cmd/interactive.go:164-202 | the catalog pass's own events satisfy the loop's exit condition exactly when it picks no catalog: listing error, empty list, prompt error or "Back to Main Menu" |
| Interactive.NameLeaves | cmd/interactive.go:206-238 | the schema (or table) pass's own events satisfy the loop's exit condition exactly when it picks no entry: listing error, prompt error or "Back"; an empty listing still prompts |
| Interactive.ActionLeaves | cmd/interactive.go:278-306 | the action menu's events satisfy the exit condition exactly when no action is run (prompt error or "Back to Tables"); any action run is one of the three table views |
| Interactive.DescendsStep | cmd/interactive.go:164-202 | glueing one more pass to a loop's log keeps "every listing but the last goes one level down" |
| Interactive.PromptCatalog | cmd/interactive.go:166-197 | exactly the banner, one catalog listing, and then the listing error, the empty note or the catalog prompt; the catalog picked is the one the first answer chooses |
| Interactive.CatalogStep | cmd/interactive.go:164-202 | the pass lists catalogs first; it leaves exactly when the listing fails or is empty, the prompt fails or "Back to Main Menu" is picked, having done nothing else; otherwise it announces the pick and its very next request and its last one list that catalog's schemas |
| Interactive.RunCatalogLoop | cmd/interactive.go:159-203 | the first and last requests list catalogs; every catalog listing but the last is followed directly by listing the schemas of a catalog; the log ends on the catalog banner and then a listing error, the empty note, a failed prompt or "Back to Main Menu"; host and token are unchanged |
| Interactive.PromptSchema | cmd/interactive.go:208-233 | exactly the banner, one schema listing of this catalog, and then the listing error or the schema prompt; the schema picked is the one the first answer chooses |
| Interactive.SchemaStep | cmd/interactive.go:206-238 | the pass lists this catalog's schemas first; it leaves exactly when the listing fails, the prompt fails or "Back" is picked, having done nothing else; otherwise it announces the pick and its very next request and its last one list that schema's tables |
| Interactive.NavigateSchemas | cmd/interactive.go:205-239 | the first and last requests list this catalog's schemas and nothing above that level is asked; every schema listing but the last is followed directly by a table listing; the log ends on the schema banner and then a listing error, a failed prompt or "Back" |
| Interactive.PromptTable | cmd/interactive.go:244-269 | exactly the banner, one table listing of this schema, and then the listing error or the table prompt; the table picked is the one the first answer chooses |
| Interactive.TableStep | cmd/interactive.go:242-274 | the pass lists this schema's tables first; it leaves exactly when the listing fails, the prompt fails or "Back" is picked, having done nothing else; otherwise it announces the pick and opens that table's action menu, and any later request is a table action's |
| Interactive.NavigateTables | cmd/interactive.go:241-275 | the first and last requests list this schema's tables and nothing above that level is asked; if the first pass picks nothing the loop does nothing else, otherwise it opens the picked table's menu; the log ends on the table banner and then a listing error, a failed prompt or "Back" |
| Interactive.RunAction | cmd/interactive.go:293-302 | View Columns and Extended Metadata each make one table lookup by full name, View Columns showing exactly the column view; Sample Data makes the warehouse listing when no id was set, then, once an id is known, its status lookup and the sample query |
| Interactive.ActionStep | cmd/interactive.go:278-306 | the header and the action menu first; it leaves exactly when the prompt fails or "Back to Tables" is picked, having done nothing else; otherwise it runs the picked action with its requests as for `RunAction`, prints the Enter note and reads one line of standard input |
| Interactive.NavigateTableActions | cmd/interactive.go:277-307 | opens with the table header; the log ends on the header, then a failed action prompt or "Back to Tables"; when the first prompt picks no action nothing else happens; only table-action requests are made |
| Interactive.ColumnRows | cmd/interactive.go:316-323 | the row loop builds the column rows |
| Interactive.ShowColumns | cmd/interactive.go:309-325 | one table lookup by full name; its error, or the column table |
| Interactive.ShowExtendedMetadata | cmd/interactive.go:327-344 | one table lookup by full name; its error, or the six metadata entries in some order |
| Interactive.ManifestHeaders | cmd/interactive.go:402-406 | the headers are the manifest's column names in order |
| Interactive.EnsureWarehouse | cmd/interactive.go:349-360 | a set warehouse id is used as it is, with no request and nothing shown; otherwise the missing-id error and the prompting note come first, the picker runs once, the id is whatever it left, and an id still empty ends on "No warehouse selected. Aborting query." |
| Interactive.RunSample | cmd/interactive.go:362-415 | one status lookup, then exactly the sample query on that warehouse with the table's catalog and schema; the last line shown is the query error, the empty note, the missing-manifest error or the result table |
| Interactive.SampleData | cmd/interactive.go:346-416 | no statement is sent without a warehouse id; the statement sent is the sample query of this table; with data and manifest the result table is the last thing shown |
| Interactive.Login | cmd/interactive.go:69-71 | after a login the user is logged in, or the environment is as it was and the last line is a "Login failed: " error; only credential variables change |
| Interactive.ResetAndLogin | cmd/interactive.go:64-73 | clear then one login: afterwards either logged in or none of the four variables set; other variables and the catalogs untouched |
| Interactive.Explore | cmd/interactive.go:80-91 | logs in first when needed; catalogs are listed exactly when the user ends up logged in |
| Interactive.MainMenuStatus | cmd/interactive.go:35-52 | the status line and the main menu entries for the current environment |
| Interactive.Dispatch | cmd/interactive.go:64-91 | Reset never lists catalogs; Start lists catalogs exactly when logged in afterwards |
| Interactive.JourneyStep | cmd/interactive.go:33-92 | quits exactly on a prompt error or Exit, with the journey's end shown; otherwise one menu answer is used up |
| Interactive.StartInteractiveJourney | cmd/interactive.go:29-94 | the header first; the journey ends only through a failed main menu prompt or Exit and its farewell |
| SqlCommand.StripScheme | cmd/sql.go:49-52 | `https://` is removed exactly when the host is longer than it and starts with it |
| SqlCommand.StripSchemeExamples | cmd/sql.go:49-52 | a bare `https://` and an `http://` host are kept; the scheme is removed only once |
| SqlCommand.ConnString | cmd/sql.go:54 | the connection string starts with the host and port part and ends with the token |
| SqlCommand.Before | cmd/sql.go:54 | the text before the first occurrence of a character |
| SqlCommand.BeforeFirst | cmd/sql.go:54 | that text is the part before an inserted separator that the part lacks |
| SqlCommand.DsnNamesHost | cmd/sql.go:54 | a host without `:` is read back from its connection string, whatever the path and token |
| SqlCommand.Scan | cmd/sql.go:79-80 | a row scans exactly when it has three non-NULL columns, giving those three values |
| SqlCommand.ScannedAccounts | cmd/sql.go:77-85 | every row is kept or reported, kept rows have three cells, and without scan errors all rows are kept in order |
| SqlCommand.ScannedCount | cmd/sql.go:77-85 | every row is either kept or reported as a scan error |
| SqlCommand.ScannedWidth | cmd/sql.go:77-85 | every kept row has three cells |
| SqlCommand.ScannedAll | cmd/sql.go:77-85 | when every row scans, the kept rows are all the rows' scans, in order |
| SqlCommand.ScannedAppend | cmd/sql.go:77-85 | the kept rows and errors of two parts are those of each, in order |
| SqlCommand.ScanRows | cmd/sql.go:77-85 | the loop keeps the rows that scan, in order, and reports one error per row that does not |
| SqlCommand.ListTables | cmd/sql.go:22-88 | a missing variable exits with status 1 before any connection; otherwise exactly the stripped-host connection string is opened; an open failure or a query failure exits with 1 after the connecting note and its own error line; otherwise the kept rows are printed under three headers |
| CatalogCommand.CollectCatalogRows | cmd/catalog.go:30-38 | one row per catalog yielded, in order; an iteration error stops the loop and keeps the rows collected |
| CatalogCommand.CatalogRowsShape | cmd/catalog.go:30-40 | each row is exactly name, owner and comment; no catalogs gives the "No data found." note |
| CatalogCommand.ListCatalogs | cmd/catalog.go:20-42 | one listing; an iteration error is reported and the table of the catalogs yielded before it is printed anyway |

## Left out

- The Databricks SDK, the SQL driver and the network are not modelled. They appear as scripted answers (`Platform.Service`, `SqlCommand.SqlDriver`), so request contents and order are modelled but the remote behaviour is not.
- Creating the workspace client (`getWorkspaceClient`, `NewWorkspaceClient`) and its exiting the process on failure are not modelled. So is the "failed to create workspace client" error of discovery: the model assumes the client can be created.
- SDK error texts are not modelled. A message the source formats with an SDK or OS error keeps only its fixed text. For example, "Failed to list catalogs: %v" is `Failure("Failed to list catalogs")`, and "Warehouse ID: id (Status: Unknown - %v)" drops the error.
- Auth.PersistCredentials: a failed create and a failed write both give the one error "failed to save .env file". The source wraps the create error and returns the write error as it is, whose text comes from the OS.
- Auth.DiscoverCredentials: its contract says only that the trace grows. The texts it shows ("Auto-discovering…", the selected name, "Could not determine HTTP Path…") are not stated.
- A write that fails part-way through a line is not modelled: a write either appends its whole line or nothing.
- `openBrowser` and its platform switch are not modelled. The model keeps the three lines pointing at the link.
- Colours and bold are not modelled: a printed line is its text. The prompts "Enter your Databricks Host…" that are printed without a newline are not part of the trace.
- The promptui widget itself is not modelled: paging (size 10), the cursor and key handling. A prompt is one scripted answer, an index or an abort. Its search filter is modelled separately (`Prompts.Searcher`).
- Go's map iteration order is unspecified. `Ui.PrintKeyValue` returns the order it used, and its contract holds for every order that lists each key once.
- Case folding is ASCII-only: `strings.ToLower` is modelled on `A`–`Z`. Other Unicode letters are left unchanged.
- The key press of "Press Enter to continue…" is modelled as reading one line of standard input.
- `godotenv.Load` at start-up (`cmd/root.go:26`) is not modelled. The environment given to `Os` is the one after loading.
- `pkg/catalog` (metastore, grants, volumes, functions, models) is not part of this model. It is not reachable from the interactive flow.
- `os.Exit` ends the process. `SqlCommand.ListTables` returns the exit status instead, and deferred closes are not modelled.
- Auth.UpsertedSplits: holds only for a warehouse id without a newline. `UpdateEnvWarehouse` does not check the id, and an id with a newline writes a line that splits into two.
- Auth.UpsertIdempotent: holds only for a warehouse id without a newline. With a newline in the id, the second upsert reads the id's line back as two lines, and the file changes again.
- Interactive.NavigateTables: the descent into a table's action menu is stated for the first pass only. Each later pass's descent is stated by `Interactive.TableStep`; the action loop may make no request at all, so no rule over the request log expresses it.
- The model follows the code in three places:
  - "Reset" unsets the four variables and then removes the file;
  - a failed save returns before any variable is set;
  - the interactive listings discard partial results on an error; only `catalog list-catalogs` keeps them.

## Findings

| source | as written | input that shows it | evidently intended | confidence | as-written member | corrected member |
|---|---|---|---|---|---|---|
| pkg/auth/login.go:85 | after a failed discovery `warehouse` is nil, and `warehouse.Id` dereferences it; the host and token lines (and the HTTP path line, if any) are already in `.env` when the process panics | host `https://a.net`, token `t0`, warehouse listing fails, empty manual path: the file gets two lines and the login panics (`Auth.NilWarehouseExample`) | a failed discovery saves no warehouse id, and the login finishes and sets the environment | not executed | Auth.SaveAsWritten | Auth.RunInteractiveLogin |
