/** The texts and tables of the interactive journey: the menus it shows, how a
    warehouse is listed, the sample query, and the rows it prints for a table. */
module InteractiveMenus {
  import opened Wrappers
  import opened Text
  import opened Remote
  import opened Platform

  const StartItem := "\U{1F680} Start Exploration"
  const ResetItem := "\U{1F504} Reset Credentials / Login"
  const SwitchItem := "\U{1F3ED} Switch SQL Warehouse"
  const SelectItem := "\U{1F3ED} Select SQL Warehouse"
  const ExitItem := "\U{274C} Exit"
  const CancelItem := "\U{274C} Cancel"
  const BackToMain := "\U{2B05}\U{FE0F}  Back to Main Menu"
  const Back := "\U{2B05}\U{FE0F}  Back"
  const ViewColumns := "\U{1F4CB} View Columns"
  const ExtendedMetadata := "\U{2139}\U{FE0F}  Extended Metadata"
  const SampleDataItem := "\U{1F4CA} Sample Data (Limit 5)"
  const BackToTables := "\U{2B05}\U{FE0F}  Back to Tables"
  const Pointer := "\U{1F449}"
  const Unmarked := "  "

  const MainMenu := "Main Menu"
  const WarehouseMenu := "Select SQL Warehouse"
  const CatalogMenu := "Select Catalog"
  const SchemaMenu := "Select Schema"
  const TableMenu := "Select Table"
  const ActionMenu := "Choose Action"

  /** The table actions, in menu order. */
  const Actions := [ViewColumns, ExtendedMetadata, SampleDataItem, BackToTables]

  /** Both the host and the token are set (and not empty). */
  predicate HasCreds(env: map<string, string>)
  {
    Lookup(env, HostKey) != "" && Lookup(env, TokenKey) != ""
  }

  /** The host and token are the same in both environments. */
  predicate SameLogin(before: map<string, string>, after: map<string, string>)
  {
    Lookup(after, HostKey) == Lookup(before, HostKey) && Lookup(after, TokenKey) == Lookup(before, TokenKey)
  }

  /** The main menu for environment `env`: exploration first and exit last; reset
      and the warehouse entry only when logged in, the entry saying "Switch" when a
      warehouse is already chosen and "Select" otherwise. */
  function MainMenuItems(env: map<string, string>): seq<string>
  {
    [StartItem]
    + (if HasCreds(env) then [ResetItem, if Lookup(env, WarehouseIdKey) != "" then SwitchItem else SelectItem] else [])
    + [ExitItem]
  }

  predicate Distinct(items: seq<string>)
  {
    forall i, j :: 0 <= i < j < |items| ==> items[i] != items[j]
  }

  lemma MainItemsDiffer()
    ensures StartItem != ResetItem && StartItem != SwitchItem && StartItem != SelectItem && StartItem != ExitItem
    ensures ResetItem != SwitchItem && ResetItem != SelectItem && ResetItem != ExitItem
    ensures SwitchItem != SelectItem && SwitchItem != ExitItem && SelectItem != ExitItem
  {
    assert StartItem[0] != ResetItem[0] && StartItem[0] != SwitchItem[0] && StartItem[0] != ExitItem[0];
    assert ResetItem[0] != SwitchItem[0] && ResetItem[0] != ExitItem[0] && SwitchItem[0] != ExitItem[0];
    assert SwitchItem[3] != SelectItem[3];
  }

  /** What the main menu offers: the entries are distinct, exploration is first and
      exit last, reset is offered exactly when logged in, and the warehouse entry
      reads "Switch" exactly when logged in with a warehouse chosen and "Select"
      exactly when logged in without one. */
  lemma MainMenuOffers(env: map<string, string>)
    ensures var items := MainMenuItems(env);
      && Distinct(items) && items[0] == StartItem && items[|items| - 1] == ExitItem
      && (ResetItem in items <==> HasCreds(env))
      && (SwitchItem in items <==> HasCreds(env) && Lookup(env, WarehouseIdKey) != "")
      && (SelectItem in items <==> HasCreds(env) && Lookup(env, WarehouseIdKey) == "")
  {
    MainItemsDiffer();
    var items := MainMenuItems(env);
    if HasCreds(env) {
      assert items == [StartItem, ResetItem, items[2], ExitItem];
    } else {
      assert items == [StartItem, ExitItem];
    }
  }

  /** The icon shown for a warehouse state. */
  function StateIcon(state: WarehouseState): string
  {
    match state
    case Running => "\U{2705}"
    case Starting => "\U{23F3}"
    case Stopped => "\U{1F6D1}"
    case _ => "\U{2753}"
  }

  /** The printed form of a warehouse state; the unspecified state prints as "". */
  function StateName(state: WarehouseState): string
  {
    match state
    case Running => "RUNNING"
    case Starting => "STARTING"
    case Stopped => "STOPPED"
    case Stopping => "STOPPING"
    case Deleting => "DELETING"
    case Deleted => "DELETED"
    case Unspecified => ""
  }

  /** A warehouse's entry in the warehouse menu: marked with a pointer when it is the
      current warehouse, then its state icon, name, size and serverless label. */
  function WarehouseItem(w: Warehouse, currentId: string): string
  {
    (if w.id == currentId then Pointer else Unmarked) + " " + StateIcon(w.state) + " " + w.name
    + " (" + w.clusterSize + ") " + (if w.serverless then "\U{26A1} [Serverless]" else "")
  }

  function WarehouseItems(ws: seq<Warehouse>, currentId: string): seq<string>
  {
    seq(|ws|, i requires 0 <= i < |ws| => WarehouseItem(ws[i], currentId))
  }

  function Ids(ws: seq<Warehouse>): seq<string>
  {
    seq(|ws|, i requires 0 <= i < |ws| => ws[i].id)
  }

  /** A warehouse entry starts with the pointer exactly when it is the current
      warehouse, and is never the cancel entry. */
  lemma WarehouseItemMarks(w: Warehouse, currentId: string)
    ensures HasPrefix(WarehouseItem(w, currentId), Pointer) <==> w.id == currentId
    ensures WarehouseItem(w, currentId) != CancelItem
  {
    var item := WarehouseItem(w, currentId);
    if w.id == currentId {
      assert item[0] == Pointer[0];
    } else {
      assert item[0] == ' ';
    }
    assert item[0] != CancelItem[0];
  }

  /** In the warehouse menu, exactly the current warehouse is marked, and only the
      last entry cancels: picking any other entry picks that warehouse. */
  lemma WarehouseMenuMarks(ws: seq<Warehouse>, currentId: string)
    ensures var items := WarehouseItems(ws, currentId);
      && (forall i :: 0 <= i < |ws| ==> (HasPrefix(items[i], Pointer) <==> ws[i].id == currentId))
      && CancelItem !in items
  {
    var items := WarehouseItems(ws, currentId);
    forall i | 0 <= i < |ws|
      ensures (HasPrefix(items[i], Pointer) <==> ws[i].id == currentId) && items[i] != CancelItem
    {
      WarehouseItemMarks(ws[i], currentId);
    }
  }

  /** The full name of a table, as the metadata lookups use it. */
  function FullName(c: string, s: string, t: string): string
  {
    c + "." + s + "." + t
  }

  /** The sample query for table `t` of schema `s` in catalog `c`. */
  function SampleQuery(c: string, s: string, t: string): (q: string)
    ensures HasPrefix(q, "SELECT * FROM ") && HasSuffix(q, " LIMIT 5")
  {
    "SELECT * FROM " + c + "." + s + "." + t + " LIMIT 5"
  }

  /** The sample query reads the very table whose columns and metadata are shown:
      between its fixed head and tail is the table's full name. */
  lemma SampleQueryNamesTable(c: string, s: string, t: string)
    ensures var q := SampleQuery(c, s, t);
      q[|"SELECT * FROM "|..|q| - |" LIMIT 5"|] == FullName(c, s, t)
  {
  }

  const ColumnHeaders := ["Column", "Type", "Comment"]

  /** The row shown for a column: name, type, and comment, with "-" for no comment. */
  function ColumnRow(col: Column): seq<string>
  {
    [col.name, col.typeName, if col.comment == "" then "-" else col.comment]
  }

  function ColumnTable(cols: seq<Column>): seq<seq<string>>
  {
    seq(|cols|, k requires 0 <= k < |cols| => ColumnRow(cols[k]))
  }

  /** Every column row fills all three header columns, and no comment cell is left
      empty: a comment shows as itself, a missing one as "-". */
  lemma ColumnTableFilled(cols: seq<Column>)
    ensures var rows := ColumnTable(cols);
      && |rows| == |cols|
      && forall k :: 0 <= k < |rows| ==>
        && |rows[k]| == |ColumnHeaders| && rows[k][0] == cols[k].name && rows[k][2] != ""
        && (cols[k].comment != "" ==> rows[k][2] == cols[k].comment)
  {
  }

  /** The extended metadata of a table, keyed by label. */
  function MetadataOf(info: TableInfo): map<string, string>
  {
    map[
      "ID" := info.tableId,
      "Type" := info.tableType,
      "Owner" := info.owner,
      "Created By" := info.createdBy,
      "Storage Location" := info.storageLocation,
      "Format" := info.dataSourceFormat]
  }

  /** The metadata always holds its six labels, so it is never the empty listing. */
  lemma MetadataComplete(info: TableInfo)
    ensures MetadataOf(info).Keys == {"ID", "Type", "Owner", "Created By", "Storage Location", "Format"}
    ensures |MetadataOf(info)| == 6
    ensures MetadataOf(info)["Owner"] == info.owner && MetadataOf(info)["ID"] == info.tableId
  {
    var m := MetadataOf(info);
    assert m.Keys == {"ID", "Type", "Owner", "Created By", "Storage Location", "Format"};
    assert "ID" != "Type" && "Owner" != "Format";
    assert |m.Keys| == 6;
  }

  /** How a navigation menu ended the loop around it: its pass opened with `banner`
      and then either gave one of the listing errors `errors`, or prompted with
      `menu` and got a prompt error or the way back `back`. */
  predicate LeftMenu(trace: seq<Event>, banner: Event, menu: string, back: string, errors: seq<string>)
  {
    |trace| >= 2 && trace[|trace| - 2] == banner &&
    var e := trace[|trace| - 1];
    (e.Failure? && e.text in errors) ||
    (e.Prompted? && e.menu == menu &&
      (e.picked.None? || (e.picked.value < |e.items| && e.items[e.picked.value] == back)))
  }

  /** How the journey ends: the main menu prompt failed, or exit was picked and the
      farewell printed. */
  predicate EndsJourney(trace: seq<Event>)
  {
    |trace| >= 1 &&
    var e := trace[|trace| - 1];
    (e.Prompted? && e.menu == MainMenu && e.picked.None?) ||
    (|trace| >= 2 && e == Info("Bye! \U{1F44B}") &&
      var p := trace[|trace| - 2];
      p.Prompted? && p.menu == MainMenu && p.picked.Some? && p.picked.value < |p.items| &&
      p.items[p.picked.value] == ExitItem)
  }
}
