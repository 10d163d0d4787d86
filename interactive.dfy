/** The interactive journey: the main menu loop, warehouse selection, and the
    catalog → schema → table → action navigation with its three table views. Every
    loop prompts once per pass and each prompt uses up one scripted answer, so each
    loop ends. */
module Interactive {
  import opened Wrappers
  import opened Listings
  import opened Remote
  import opened Platform
  import opened InteractiveMenus
  import Discovery
  import Auth
  import Ui

  /** Between two points of a run: no answer has come back, the screen and the
      request log only grew, and the login (host and token) is the same. */
  predicate Advances(
    a0: seq<Answer>, a1: seq<Answer>, t0: seq<Event>, t1: seq<Event>,
    c0: seq<Call>, c1: seq<Call>, e0: map<string, string>, e1: map<string, string>)
  {
    |a1| <= |a0| && t0 <= t1 && c0 <= c1 && SameLogin(e0, e1)
  }

  /** A menu of names followed by the way back, filled in by index as in Go. */
  method MenuOf(names: seq<string>, back: string) returns (items: seq<string>)
    ensures items == names + [back]
  {
    var a := new string[|names| + 1];
    for i := 0 to |names|
      invariant forall j :: 0 <= j < i ==> a[j] == names[j]
    {
      a[i] := names[i];
    }
    a[|names|] := back;
    items := a[..];
  }

  /** Prompts with the names and the way back; gives the name picked, or `None` when
      the prompt fails or the way back is picked. */
  method PickName(term: Terminal, menu: string, names: seq<string>, back: string) returns (picked: Option<string>)
    modifies term
    ensures var items := names + [back];
      var r := Resolve(old(term.answers), items);
      && term.answers == Tail(old(term.answers))
      && term.trace == old(term.trace) + [Prompted(menu, items, r)]
      && picked == Picked(old(term.answers), names, back)
    ensures picked.Some? ==> picked.value in names && picked.value != back
    ensures picked.Some? ==> |term.answers| < |old(term.answers)|
  {
    var items := MenuOf(names, back);
    var r := term.Select(menu, items);
    if r.None? || items[r.value] == back {
      return None;
    }
    assert r.value < |names|;
    return Some(items[r.value]);
  }

  /** The name of every catalog, in listing order. */
  function CatalogNames(cs: seq<CatalogInfo>): seq<string>
  {
    seq(|cs|, i requires 0 <= i < |cs| => cs[i].name)
  }

  /** The item and id loop of `selectWarehouse`. */
  method ListWarehouseItems(ws: seq<Warehouse>, currentId: string) returns (items: seq<string>, ids: seq<string>)
    ensures items == WarehouseItems(ws, currentId) && ids == Ids(ws)
  {
    items, ids := [], [];
    for i := 0 to |ws|
      invariant items == WarehouseItems(ws[..i], currentId) && ids == Ids(ws[..i])
    {
      assert ws[..i + 1][..i] == ws[..i];
      items := items + [WarehouseItem(ws[i], currentId)];
      ids := ids + [ws[i].id];
    }
    assert ws[..|ws|] == ws;
  }

  /** The line `selectWarehouse` ends on once it has asked to save `id`: the update
      error after "Failed to update .env: " (as `%v` prints it), or the id saved. */
  function SavedEvent(faults: seq<bool>, id: string): Event
  {
    if Fault(faults, 0) then Failure("Failed to update .env: " + "failed to read .env")
    else if Fault(faults, 1) then Failure("Failed to update .env: " + "failed to update .env")
    else Success("Selected Warehouse ID: " + id)
  }

  /** What `selectWarehouse` shows, for the listing it gets, the current id, the
      answers and the file faults: the banner, then the listing error, the empty
      note, or the warehouse prompt followed by the outcome of the save when a
      warehouse is picked. */
  function WarehouseEvents(l: Listing<Warehouse>, currentId: string, answers: seq<Answer>, faults: seq<bool>): seq<Event>
  {
    [Info("Fetching SQL Warehouses...")] +
    if l.fails then [Failure("Failed to list warehouses: " + "error iterating warehouses")]
    else if l.items == [] then [Failure("No SQL Warehouses found.")]
    else
      var items := WarehouseItems(l.items, currentId) + [CancelItem];
      var r := Resolve(answers, items);
      [Prompted(WarehouseMenu, items, r)] +
      if r.Some? && r.value < |l.items| then [SavedEvent(faults, l.items[r.value].id)] else []
  }

  /** `selectWarehouse` ends on a success line exactly when it saves a picked
      warehouse, and on an error line exactly when the listing fails or is empty or
      the save fails; after a prompt error or cancel its last line is the prompt. */
  lemma WarehouseOutcome(l: Listing<Warehouse>, currentId: string, answers: seq<Answer>, faults: seq<bool>)
    ensures var ev := WarehouseEvents(l, currentId, answers, faults);
      var items := WarehouseItems(l.items, currentId) + [CancelItem];
      var r := Resolve(answers, items);
      var picked := !l.fails && l.items != [] && r.Some? && r.value < |l.items|;
      var saved := !Fault(faults, 0) && !Fault(faults, 1);
      && |ev| >= 2 && ev[0] == Info("Fetching SQL Warehouses...")
      && (ev[|ev| - 1].Success? <==> picked && saved)
      && (ev[|ev| - 1].Failure? <==> l.fails || l.items == [] || (picked && !saved))
      && (ev[|ev| - 1].Prompted? <==> !l.fails && l.items != [] && !picked)
      && (picked && saved ==> ev[|ev| - 1] == Success("Selected Warehouse ID: " + l.items[r.value].id))
  {
  }

  /** The update and the line after it in `selectWarehouse`. */
  method SaveWarehouse(os: Os, term: Terminal, id: string)
    modifies os`faults, os`dotenv, os`env, term`trace
    ensures term.trace == old(term.trace) + [SavedEvent(old(os.faults), id)]
    ensures if !Fault(old(os.faults), 0) && !Fault(old(os.faults), 1) then
        os.env == old(os.env)[WarehouseIdKey := id] && os.dotenv == Some(Auth.Upserted(TextOf(old(os.dotenv)), id))
      else
        os.env == old(os.env) && os.dotenv == old(os.dotenv)
  {
    var updated := Auth.UpdateEnvWarehouse(os, id);
    if updated.Fail? {
      term.Emit(Failure("Failed to update .env: " + updated.message));
      return;
    }
    term.Emit(Success("Selected Warehouse ID: " + id));
  }

  /** `selectWarehouse`: lists the warehouses, shows them with the current one
      marked, and records the picked one with `UpdateEnvWarehouse`. Nothing changes
      when the listing fails or is empty, the prompt fails, or cancel is picked. The
      saved id is the id of the warehouse on the picked line. */
  method SelectWarehouse(os: Os, svc: Service, term: Terminal)
    modifies os`env, os`dotenv, os`faults, svc`warehouses, svc`calls, term
    ensures svc.calls == old(svc.calls) + [ListWarehousesCall] && svc.warehouses == Tail(old(svc.warehouses))
    ensures |term.answers| <= |old(term.answers)|
    ensures var l := HeadOr(old(svc.warehouses), Listing([], true));
      term.trace == old(term.trace) + WarehouseEvents(l, Lookup(old(os.env), WarehouseIdKey), old(term.answers), old(os.faults))
    ensures var l := HeadOr(old(svc.warehouses), Listing([], true));
      var items := WarehouseItems(l.items, Lookup(old(os.env), WarehouseIdKey)) + [CancelItem];
      var r := Resolve(old(term.answers), items);
      if !l.fails && l.items != [] && r.Some? && r.value < |l.items| then
        var id := l.items[r.value].id;
        if !Fault(old(os.faults), 0) && !Fault(old(os.faults), 1) then
          os.env == old(os.env)[WarehouseIdKey := id] && os.dotenv == Some(Auth.Upserted(TextOf(old(os.dotenv)), id))
        else
          os.env == old(os.env) && os.dotenv == old(os.dotenv)
      else
        os.env == old(os.env) && os.dotenv == old(os.dotenv) && os.faults == old(os.faults)
  {
    term.Emit(Info("Fetching SQL Warehouses..."));
    var listing := svc.ListWarehouses();
    var listed := Discovery.ListWarehouses(listing);
    if listed.Err? {
      term.Emit(Failure("Failed to list warehouses: " + listed.message));
      return;
    }
    if |listed.value| == 0 {
      term.Emit(Failure("No SQL Warehouses found."));
      return;
    }
    var currentId := os.Getenv(WarehouseIdKey);
    var items, ids := ListWarehouseItems(listed.value, currentId);
    items := items + [CancelItem];
    var r := term.Select(WarehouseMenu, items);
    WarehouseMenuMarks(listed.value, currentId);
    if r.None? || items[r.value] == CancelItem {
      assert r.Some? ==> r.value == |listed.value|;
      return;
    }
    SaveWarehouse(os, term, ids[r.value]);
  }

  // ---------------------------------------------------------------------------
  // The navigation loops

  /** What one pass of a navigation loop goes into: the entry picked from `names`
      followed by the way back, or `None` when the prompt fails or the way back is
      picked. */
  function Picked(answers: seq<Answer>, names: seq<string>, back: string): Option<string>
  {
    var items := names + [back];
    var r := Resolve(answers, items);
    if r.None? || items[r.value] == back then None else Some(items[r.value])
  }

  /** A picked entry is one of the names, never the way back, and picking it used
      the first answer; no pick is made exactly on a prompt error or the way back. */
  lemma PickedIsName(answers: seq<Answer>, names: seq<string>, back: string)
    ensures var p := Picked(answers, names, back);
      && (p.Some? ==> p.value in names && p.value != back && answers != [] && answers[0].Pick?)
      && (p.None? <==> var r := Resolve(answers, names + [back]);
            r.None? || (names + [back])[r.value] == back)
  {
  }

  /** What the catalog listing of a pass and the remote requests below it are ranked
      by: catalogs, then schemas, then tables, then everything a table action asks. */
  function Depth(c: Call): nat
  {
    match c
    case ListCatalogsCall => 0
    case ListSchemasCall(_) => 1
    case ListTablesCall(_, _) => 2
    case _ => 3
  }

  /** Every request from position `from` on is at least `d` deep. */
  predicate Below(calls: seq<Call>, from: nat, d: nat)
  {
    forall i :: from <= i < |calls| ==> Depth(calls[i]) >= d
  }

  /** From position `from` on, every request of depth `d` but the last request is
      directly followed by one of depth `d + 1`: each listing at that level goes
      into an entry it listed before the level lists again. */
  ghost predicate Descends(calls: seq<Call>, from: nat, d: nat)
  {
    forall i, j :: from <= i < j < |calls| && j == i + 1 && Depth(calls[i]) == d ==> Depth(calls[j]) == d + 1
  }

  /** One more pass that starts with a request of depth `d`, goes on at depth `d + 1`
      if at all, and stays deeper than `d`, keeps `Descends`, provided the passes
      until then did not end on a request of depth `d`. */
  lemma {:induction false} DescendsStep(c0: seq<Call>, c1: seq<Call>, from: nat, d: nat)
    requires from <= |c0| < |c1| && c0 <= c1
    requires Descends(c0, from, d) && (from < |c0| ==> Depth(c0[|c0| - 1]) != d)
    requires Depth(c1[|c0|]) == d && (|c0| + 1 < |c1| ==> Depth(c1[|c0| + 1]) == d + 1)
    requires Below(c0, from, d) && Below(c1, |c0| + 1, d + 1)
    ensures Below(c1, from, d) && Descends(c1, from, d)
  {
    forall i | from <= i < |c1|
      ensures Depth(c1[i]) >= d
    {
      if i < |c0| {
        assert c1[i] == c0[i];
      }
    }
    forall i, j | from <= i < j < |c1| && j == i + 1 && Depth(c1[i]) == d
      ensures Depth(c1[j]) == d + 1
    {
      if i < |c0| - 1 {
        assert c1[i] == c0[i] && c1[j] == c0[j];
      } else if i == |c0| - 1 {
        assert false;
      }
    }
  }

  const CatalogsBanner := Info("Fetching Catalogs...")
  const CatalogErrors := ["Failed to list catalogs", "No catalogs found."]

  function SchemasBanner(catalog: string): Event
  {
    Info("Fetching Schemas in " + catalog + "...")
  }

  function TablesBanner(catalog: string, schema: string): Event
  {
    Info("Fetching Tables in " + catalog + "." + schema + "...")
  }

  function TableBanner(t: string): Event
  {
    Header("Table: " + t)
  }

  const PressEnter := Printed(["", "Press Enter to continue..."])

  /** The catalog a pass of the catalog loop goes into, for the listing it gets and
      the answers left: none when the listing fails or is empty, the prompt fails or
      the way back is picked. */
  function CatalogPick(l: Listing<CatalogInfo>, answers: seq<Answer>): Option<string>
  {
    if l.fails || l.items == [] then None else Picked(answers, CatalogNames(l.items), BackToMain)
  }

  /** The event that ends the catalog pass's own part: the listing error, the empty
      note, or the catalog prompt. */
  function CatalogOutcome(l: Listing<CatalogInfo>, answers: seq<Answer>): Event
  {
    if l.fails then Failure("Failed to list catalogs")
    else if l.items == [] then Failure("No catalogs found.")
    else
      var items := CatalogNames(l.items) + [BackToMain];
      Prompted(CatalogMenu, items, Resolve(answers, items))
  }

  /** A catalog pass leaves the loop exactly when it picks no catalog. */
  lemma CatalogLeaves(t: seq<Event>, l: Listing<CatalogInfo>, answers: seq<Answer>)
    ensures LeftMenu(t + [CatalogsBanner, CatalogOutcome(l, answers)], CatalogsBanner, CatalogMenu, BackToMain, CatalogErrors)
      <==> CatalogPick(l, answers).None?
  {
  }

  /** The schema (or table) a pass of the schema (or table) loop goes into: none
      when the listing fails, the prompt fails or the way back is picked. An empty
      listing still shows the menu. */
  function NamePick(l: Listing<string>, answers: seq<Answer>): Option<string>
  {
    if l.fails then None else Picked(answers, l.items, Back)
  }

  /** The event that ends the schema (or table) pass's own part: the listing error,
      or the prompt. */
  function NameOutcome(l: Listing<string>, answers: seq<Answer>, menu: string, error: string): Event
  {
    if l.fails then Failure(error)
    else Prompted(menu, l.items + [Back], Resolve(answers, l.items + [Back]))
  }

  /** A schema or table pass leaves its loop exactly when it picks no entry. */
  lemma NameLeaves(t: seq<Event>, banner: Event, l: Listing<string>, answers: seq<Answer>, menu: string, error: string)
    ensures LeftMenu(t + [banner, NameOutcome(l, answers, menu, error)], banner, menu, Back, [error])
      <==> NamePick(l, answers).None?
  {
  }

  /** The table action a pass of the action loop runs: none when the prompt fails or
      "Back to Tables" is picked. */
  function ActionPick(answers: seq<Answer>): Option<string>
  {
    var r := Resolve(answers, Actions);
    if r.None? || Actions[r.value] == BackToTables then None else Some(Actions[r.value])
  }

  /** An action pass leaves its loop exactly when it runs no action, and an action
      run is one of the three table views. */
  lemma ActionLeaves(t: seq<Event>, table: string, answers: seq<Answer>)
    ensures var r := Resolve(answers, Actions);
      LeftMenu(t + [TableBanner(table), Prompted(ActionMenu, Actions, r)], TableBanner(table), ActionMenu, BackToTables, [])
      <==> ActionPick(answers).None?
    ensures ActionPick(answers).Some? ==> ActionPick(answers).value in {ViewColumns, ExtendedMetadata, SampleDataItem}
  {
  }

  /** The first part of a catalog pass: the banner, the catalog listing, and the
      catalog prompt when the listing gives catalogs. */
  method PromptCatalog(svc: Service, term: Terminal) returns (pick: Option<string>)
    modifies svc`catalogs, svc`calls, term
    ensures var l := HeadOr(old(svc.catalogs), Listing([], true));
      && pick == CatalogPick(l, old(term.answers))
      && svc.calls == old(svc.calls) + [ListCatalogsCall]
      && term.trace == old(term.trace) + [CatalogsBanner, CatalogOutcome(l, old(term.answers))]
    ensures |term.answers| <= |old(term.answers)| && (pick.Some? ==> |term.answers| < |old(term.answers)|)
  {
    term.Emit(CatalogsBanner);
    var listing := svc.ListCatalogs();
    var catalogs := DrainAll(listing);
    if catalogs.None? {
      term.Emit(Failure("Failed to list catalogs"));
      return None;
    }
    if |catalogs.value| == 0 {
      term.Emit(Failure("No catalogs found."));
      return None;
    }
    pick := PickName(term, CatalogMenu, CatalogNames(catalogs.value), BackToMain);
  }

  /** One pass of the loop of `runCatalogLoop`: lists the catalogs, prompts for one
      and explores its schemas. `done` says the loop returns: exactly when the
      listing fails or is empty, the prompt fails or the way back is picked. */
  method CatalogStep(os: Os, svc: Service, term: Terminal) returns (done: bool)
    modifies os, svc, term
    ensures Advances(old(term.answers), term.answers, old(term.trace), term.trace,
      old(svc.calls), svc.calls, old(os.env), os.env)
    ensures |svc.calls| > |old(svc.calls)| && svc.calls[|old(svc.calls)|] == ListCatalogsCall
    ensures Below(svc.calls, |old(svc.calls)| + 1, 1)
    ensures var l := HeadOr(old(svc.catalogs), Listing([], true));
      var pick := CatalogPick(l, old(term.answers));
      && (done <==> pick.None?)
      && (done ==>
            && svc.calls == old(svc.calls) + [ListCatalogsCall]
            && term.trace == old(term.trace) + [CatalogsBanner, CatalogOutcome(l, old(term.answers))]
            && os.env == old(os.env) && os.stdin == old(os.stdin))
      && (!done ==>
            && |svc.calls| > |old(svc.calls)| + 1
            && svc.calls[|old(svc.calls)| + 1] == ListSchemasCall(pick.value)
            && svc.calls[|svc.calls| - 1] == ListSchemasCall(pick.value)
            && old(term.trace) + [CatalogsBanner, CatalogOutcome(l, old(term.answers)),
                 Success("Selected Catalog: " + pick.value), SchemasBanner(pick.value)] <= term.trace
            && |term.answers| < |old(term.answers)|)
    ensures done ==> LeftMenu(term.trace, CatalogsBanner, CatalogMenu, BackToMain, CatalogErrors)
  {
    CatalogLeaves(old(term.trace), HeadOr(svc.catalogs, Listing([], true)), term.answers);
    var picked := PromptCatalog(svc, term);
    if picked.None? {
      return true;
    }
    term.Emit(Success("Selected Catalog: " + picked.value));
    ghost var calls1, trace1 := svc.calls, term.trace;
    NavigateSchemas(os, svc, term, picked.value);
    assert svc.calls[|old(svc.calls)|] == calls1[|old(svc.calls)|];
    assert term.trace[..|trace1|] == trace1;
    return false;
  }

  /** `runCatalogLoop`: explores catalogs until the listing fails or is empty, the
      prompt fails, or the way back to the main menu is picked. Its first request
      is the catalog listing and so is its last; every catalog listing before that
      goes straight into listing the schemas of the catalog picked. */
  method RunCatalogLoop(os: Os, svc: Service, term: Terminal)
    modifies os, svc, term
    ensures Advances(old(term.answers), term.answers, old(term.trace), term.trace,
      old(svc.calls), svc.calls, old(os.env), os.env)
    ensures |svc.calls| > |old(svc.calls)| && svc.calls[|old(svc.calls)|] == ListCatalogsCall
    ensures svc.calls[|svc.calls| - 1] == ListCatalogsCall
    ensures Descends(svc.calls, |old(svc.calls)|, 0)
    ensures LeftMenu(term.trace, CatalogsBanner, CatalogMenu, BackToMain, CatalogErrors)
  {
    var done := CatalogStep(os, svc, term);
    DescendsStep(old(svc.calls), svc.calls, |old(svc.calls)|, 0);
    while !done
      invariant Advances(old(term.answers), term.answers, old(term.trace), term.trace,
        old(svc.calls), svc.calls, old(os.env), os.env)
      invariant |svc.calls| > |old(svc.calls)| && svc.calls[|old(svc.calls)|] == ListCatalogsCall
      invariant Descends(svc.calls, |old(svc.calls)|, 0)
      invariant Depth(svc.calls[|svc.calls| - 1]) == 0 <==> done
      invariant done ==> LeftMenu(term.trace, CatalogsBanner, CatalogMenu, BackToMain, CatalogErrors)
      decreases |term.answers|, !done
    {
      ghost var calls0 := svc.calls;
      done := CatalogStep(os, svc, term);
      DescendsStep(calls0, svc.calls, |old(svc.calls)|, 0);
      assert svc.calls[|old(svc.calls)|] == calls0[|old(svc.calls)|];
    }
  }

  /** The first part of a schema pass: the banner, the schema listing of `catalog`,
      and the schema prompt when the listing succeeds. */
  method PromptSchema(svc: Service, term: Terminal, catalog: string) returns (pick: Option<string>)
    modifies svc`schemas, svc`calls, term
    ensures var l := HeadOr(old(svc.schemas), Listing([], true));
      && pick == NamePick(l, old(term.answers))
      && svc.calls == old(svc.calls) + [ListSchemasCall(catalog)]
      && term.trace == old(term.trace) + [SchemasBanner(catalog), NameOutcome(l, old(term.answers), SchemaMenu, "Failed to list schemas")]
    ensures |term.answers| <= |old(term.answers)| && (pick.Some? ==> |term.answers| < |old(term.answers)|)
  {
    term.Emit(SchemasBanner(catalog));
    var listing := svc.ListSchemas(catalog);
    var schemas := DrainAll(listing);
    if schemas.None? {
      term.Emit(Failure("Failed to list schemas"));
      return None;
    }
    pick := PickName(term, SchemaMenu, schemas.value, Back);
  }

  /** One pass of the loop of `navigateSchemas`: lists the schemas of `catalog`,
      prompts for one and explores its tables. `done` says the loop returns:
      exactly when the listing fails, the prompt fails or the way back is picked. */
  method SchemaStep(os: Os, svc: Service, term: Terminal, catalog: string) returns (done: bool)
    modifies os, svc, term
    ensures Advances(old(term.answers), term.answers, old(term.trace), term.trace,
      old(svc.calls), svc.calls, old(os.env), os.env)
    ensures |svc.calls| > |old(svc.calls)| && svc.calls[|old(svc.calls)|] == ListSchemasCall(catalog)
    ensures |term.trace| > |old(term.trace)| && term.trace[|old(term.trace)|] == SchemasBanner(catalog)
    ensures Below(svc.calls, |old(svc.calls)| + 1, 2)
    ensures var l := HeadOr(old(svc.schemas), Listing([], true));
      var pick := NamePick(l, old(term.answers));
      var outcome := NameOutcome(l, old(term.answers), SchemaMenu, "Failed to list schemas");
      && (done <==> pick.None?)
      && (done ==>
            && svc.calls == old(svc.calls) + [ListSchemasCall(catalog)]
            && term.trace == old(term.trace) + [SchemasBanner(catalog), outcome]
            && os.env == old(os.env) && os.stdin == old(os.stdin))
      && (!done ==>
            && |svc.calls| > |old(svc.calls)| + 1
            && svc.calls[|old(svc.calls)| + 1] == ListTablesCall(catalog, pick.value)
            && svc.calls[|svc.calls| - 1] == ListTablesCall(catalog, pick.value)
            && old(term.trace) + [SchemasBanner(catalog), outcome,
                 Success("Selected Schema: " + pick.value), TablesBanner(catalog, pick.value)] <= term.trace
            && |term.answers| < |old(term.answers)|)
    ensures done ==> LeftMenu(term.trace, SchemasBanner(catalog), SchemaMenu, Back, ["Failed to list schemas"])
  {
    NameLeaves(old(term.trace), SchemasBanner(catalog), HeadOr(svc.schemas, Listing([], true)), term.answers,
      SchemaMenu, "Failed to list schemas");
    var picked := PromptSchema(svc, term, catalog);
    if picked.None? {
      return true;
    }
    term.Emit(Success("Selected Schema: " + picked.value));
    ghost var calls1, trace1 := svc.calls, term.trace;
    NavigateTables(os, svc, term, catalog, picked.value);
    assert svc.calls[|old(svc.calls)|] == calls1[|old(svc.calls)|];
    assert term.trace[..|trace1|] == trace1;
    return false;
  }

  /** `navigateSchemas`: explores the schemas of `catalog` until the listing fails,
      the prompt fails, or the way back is picked. Its first and last requests list
      the schemas of `catalog`; every schema listing before the last goes straight
      into listing the tables of the schema picked. */
  method NavigateSchemas(os: Os, svc: Service, term: Terminal, catalog: string)
    modifies os, svc, term
    ensures Advances(old(term.answers), term.answers, old(term.trace), term.trace,
      old(svc.calls), svc.calls, old(os.env), os.env)
    ensures |svc.calls| > |old(svc.calls)| && svc.calls[|old(svc.calls)|] == ListSchemasCall(catalog)
    ensures svc.calls[|svc.calls| - 1] == ListSchemasCall(catalog)
    ensures |term.trace| > |old(term.trace)| && term.trace[|old(term.trace)|] == SchemasBanner(catalog)
    ensures Below(svc.calls, |old(svc.calls)|, 1) && Descends(svc.calls, |old(svc.calls)|, 1)
    ensures LeftMenu(term.trace, SchemasBanner(catalog), SchemaMenu, Back, ["Failed to list schemas"])
  {
    var done := SchemaStep(os, svc, term, catalog);
    ghost var calls1, trace1 := svc.calls, term.trace;
    DescendsStep(old(svc.calls), svc.calls, |old(svc.calls)|, 1);
    while !done
      invariant Advances(old(term.answers), term.answers, old(term.trace), term.trace,
        old(svc.calls), svc.calls, old(os.env), os.env)
      invariant calls1 <= svc.calls && trace1 <= term.trace
      invariant Below(svc.calls, |old(svc.calls)|, 1) && Descends(svc.calls, |old(svc.calls)|, 1)
      invariant done ==> svc.calls[|svc.calls| - 1] == ListSchemasCall(catalog)
      invariant !done ==> Depth(svc.calls[|svc.calls| - 1]) != 1
      invariant done ==> LeftMenu(term.trace, SchemasBanner(catalog), SchemaMenu, Back, ["Failed to list schemas"])
      decreases |term.answers|, !done
    {
      ghost var calls0 := svc.calls;
      done := SchemaStep(os, svc, term, catalog);
      DescendsStep(calls0, svc.calls, |old(svc.calls)|, 1);
    }
    assert svc.calls[..|calls1|] == calls1 && term.trace[..|trace1|] == trace1;
  }

  /** The first part of a table pass: the banner, the table listing of
      `catalog.schema`, and the table prompt when the listing succeeds. */
  method PromptTable(svc: Service, term: Terminal, catalog: string, schema: string) returns (pick: Option<string>)
    modifies svc`tables, svc`calls, term
    ensures var l := HeadOr(old(svc.tables), Listing([], true));
      && pick == NamePick(l, old(term.answers))
      && svc.calls == old(svc.calls) + [ListTablesCall(catalog, schema)]
      && term.trace == old(term.trace) + [TablesBanner(catalog, schema), NameOutcome(l, old(term.answers), TableMenu, "Failed to list tables")]
    ensures |term.answers| <= |old(term.answers)| && (pick.Some? ==> |term.answers| < |old(term.answers)|)
  {
    term.Emit(TablesBanner(catalog, schema));
    var listing := svc.ListTables(catalog, schema);
    var tables := DrainAll(listing);
    if tables.None? {
      term.Emit(Failure("Failed to list tables"));
      return None;
    }
    pick := PickName(term, TableMenu, tables.value, Back);
  }

  /** One pass of the loop of `navigateTables`: lists the tables of `catalog.schema`,
      prompts for one and opens its action menu. `done` says the loop returns:
      exactly when the listing fails, the prompt fails or the way back is picked. */
  method TableStep(os: Os, svc: Service, term: Terminal, catalog: string, schema: string) returns (done: bool)
    modifies os, svc, term
    ensures Advances(old(term.answers), term.answers, old(term.trace), term.trace,
      old(svc.calls), svc.calls, old(os.env), os.env)
    ensures |svc.calls| > |old(svc.calls)| && svc.calls[|old(svc.calls)|] == ListTablesCall(catalog, schema)
    ensures |term.trace| > |old(term.trace)| && term.trace[|old(term.trace)|] == TablesBanner(catalog, schema)
    ensures Below(svc.calls, |old(svc.calls)| + 1, 3)
    ensures var l := HeadOr(old(svc.tables), Listing([], true));
      var pick := NamePick(l, old(term.answers));
      var outcome := NameOutcome(l, old(term.answers), TableMenu, "Failed to list tables");
      && (done <==> pick.None?)
      && (done ==>
            && svc.calls == old(svc.calls) + [ListTablesCall(catalog, schema)]
            && term.trace == old(term.trace) + [TablesBanner(catalog, schema), outcome]
            && os.env == old(os.env) && os.stdin == old(os.stdin))
      && (!done ==>
            && old(term.trace) + [TablesBanner(catalog, schema), outcome,
                 Success("Selected Table: " + pick.value), TableBanner(pick.value)] <= term.trace
            && |term.answers| < |old(term.answers)|)
    ensures done ==> LeftMenu(term.trace, TablesBanner(catalog, schema), TableMenu, Back, ["Failed to list tables"])
  {
    NameLeaves(old(term.trace), TablesBanner(catalog, schema), HeadOr(svc.tables, Listing([], true)), term.answers,
      TableMenu, "Failed to list tables");
    var picked := PromptTable(svc, term, catalog, schema);
    if picked.None? {
      return true;
    }
    term.Emit(Success("Selected Table: " + picked.value));
    ghost var calls1, trace1 := svc.calls, term.trace;
    NavigateTableActions(os, svc, term, catalog, schema, picked.value);
    assert svc.calls[|old(svc.calls)|] == calls1[|old(svc.calls)|];
    assert term.trace[..|trace1|] == trace1;
    return false;
  }

  /** `navigateTables`: explores the tables of `catalog.schema` until the listing
      fails, the prompt fails, or the way back is picked. Its first and last
      requests list the tables of `catalog.schema`. */
  method NavigateTables(os: Os, svc: Service, term: Terminal, catalog: string, schema: string)
    modifies os, svc, term
    ensures Advances(old(term.answers), term.answers, old(term.trace), term.trace,
      old(svc.calls), svc.calls, old(os.env), os.env)
    ensures |svc.calls| > |old(svc.calls)| && svc.calls[|old(svc.calls)|] == ListTablesCall(catalog, schema)
    ensures svc.calls[|svc.calls| - 1] == ListTablesCall(catalog, schema)
    ensures |term.trace| > |old(term.trace)| && term.trace[|old(term.trace)|] == TablesBanner(catalog, schema)
    ensures Below(svc.calls, |old(svc.calls)|, 2)
    ensures LeftMenu(term.trace, TablesBanner(catalog, schema), TableMenu, Back, ["Failed to list tables"])
    ensures var l := HeadOr(old(svc.tables), Listing([], true));
      var pick := NamePick(l, old(term.answers));
      && (pick.None? ==>
            svc.calls == old(svc.calls) + [ListTablesCall(catalog, schema)] &&
            term.trace == old(term.trace) + [TablesBanner(catalog, schema), NameOutcome(l, old(term.answers), TableMenu, "Failed to list tables")])
      && (pick.Some? ==>
            |term.trace| > |old(term.trace)| + 3 && term.trace[|old(term.trace)| + 3] == TableBanner(pick.value))
  {
    var done := TableStep(os, svc, term, catalog, schema);
    ghost var first := done;
    ghost var calls1, trace1 := svc.calls, term.trace;
    while !done
      invariant Advances(old(term.answers), term.answers, old(term.trace), term.trace,
        old(svc.calls), svc.calls, old(os.env), os.env)
      invariant calls1 <= svc.calls && |calls1| > |old(svc.calls)| && calls1[|old(svc.calls)|] == ListTablesCall(catalog, schema)
      invariant trace1 <= term.trace
      invariant first ==> done && svc.calls == calls1 && term.trace == trace1
      invariant Below(svc.calls, |old(svc.calls)|, 2)
      invariant done ==> svc.calls[|svc.calls| - 1] == ListTablesCall(catalog, schema)
      invariant done ==> LeftMenu(term.trace, TablesBanner(catalog, schema), TableMenu, Back, ["Failed to list tables"])
      decreases |term.answers|, !done
    {
      done := TableStep(os, svc, term, catalog, schema);
      assert svc.calls[..|calls1|] == calls1;
    }
    assert term.trace[..|trace1|] == trace1;
  }

  /** The requests of `sampleData`: the warehouse listing when no id was set (`id0`),
      then, once an id is known (`id`), its status and the sample query. */
  function SampleCalls(id0: string, id: string, c: string, s: string, t: string): seq<Call>
  {
    (if id0 == "" then [ListWarehousesCall] else []) +
    (if id != "" then [GetWarehouseCall(id), ExecuteCall(StatementRequest(id, c, s, SampleQuery(c, s, t)))] else [])
  }

  /** The `switch` of `navigateTableActions`: runs the table view named `choice`
      (nothing for any other entry). */
  method RunAction(os: Os, svc: Service, term: Terminal, choice: string, c: string, s: string, t: string)
    modifies os`env, os`dotenv, os`faults, svc`tableInfos, svc`warehouses, svc`warehouseInfos, svc`responses, svc`calls, term
    ensures Advances(old(term.answers), term.answers, old(term.trace), term.trace,
      old(svc.calls), svc.calls, old(os.env), os.env)
    ensures Below(svc.calls, |old(svc.calls)|, 3)
    ensures choice == ViewColumns ==>
      svc.calls == old(svc.calls) + [GetTableCall(FullName(c, s, t))] &&
      term.trace == old(term.trace) + [ColumnsEvent(HeadOr(old(svc.tableInfos), None))]
    ensures choice == ExtendedMetadata ==> svc.calls == old(svc.calls) + [GetTableCall(FullName(c, s, t))]
    ensures choice == SampleDataItem ==>
      svc.calls == old(svc.calls) + SampleCalls(Lookup(old(os.env), WarehouseIdKey), Lookup(os.env, WarehouseIdKey), c, s, t)
  {
    if choice == ViewColumns {
      ShowColumns(svc, term, c, s, t);
    } else if choice == ExtendedMetadata {
      ShowExtendedMetadata(svc, term, c, s, t);
    } else if choice == SampleDataItem {
      SampleData(os, svc, term, c, s, t);
    }
  }

  /** One pass of the loop of `navigateTableActions`: shows the action menu, runs
      the action picked, then waits for Enter (one line of standard input). `done`
      says the loop returns: exactly when the prompt fails or "Back to Tables" is
      picked. */
  method ActionStep(os: Os, svc: Service, term: Terminal, c: string, s: string, t: string) returns (done: bool)
    modifies os, svc, term
    ensures Advances(old(term.answers), term.answers, old(term.trace), term.trace,
      old(svc.calls), svc.calls, old(os.env), os.env)
    ensures Below(svc.calls, |old(svc.calls)|, 3)
    ensures var r := Resolve(old(term.answers), Actions);
      var pick := ActionPick(old(term.answers));
      && (done <==> pick.None?)
      && old(term.trace) + [TableBanner(t), Prompted(ActionMenu, Actions, r)] <= term.trace
      && (done ==>
            term.trace == old(term.trace) + [TableBanner(t), Prompted(ActionMenu, Actions, r)] &&
            svc.calls == old(svc.calls) && os.env == old(os.env) && os.stdin == old(os.stdin))
      && (pick == Some(ViewColumns) ==>
            svc.calls == old(svc.calls) + [GetTableCall(FullName(c, s, t))] &&
            term.trace == old(term.trace) + [TableBanner(t), Prompted(ActionMenu, Actions, r),
              ColumnsEvent(HeadOr(old(svc.tableInfos), None)), PressEnter])
      && (pick == Some(ExtendedMetadata) ==>
            svc.calls == old(svc.calls) + [GetTableCall(FullName(c, s, t))])
      && (pick == Some(SampleDataItem) ==>
            svc.calls == old(svc.calls) + SampleCalls(Lookup(old(os.env), WarehouseIdKey), Lookup(os.env, WarehouseIdKey), c, s, t))
      && (!done ==>
            |term.answers| < |old(term.answers)| && os.stdin == Drop(old(os.stdin), 1) &&
            term.trace[|term.trace| - 1] == PressEnter)
    ensures done ==> LeftMenu(term.trace, TableBanner(t), ActionMenu, BackToTables, [])
  {
    ActionLeaves(old(term.trace), t, term.answers);
    term.Emit(TableBanner(t));
    var r := term.Select(ActionMenu, Actions);
    if r.None? {
      return true;
    }
    var choice := Actions[r.value];
    if choice == BackToTables {
      return true;
    }
    RunAction(os, svc, term, choice, c, s, t);
    term.Emit(PressEnter);
    var _ := os.ReadLine();
    return false;
  }

  /** `navigateTableActions`: runs actions on table `c.s.t` until the prompt fails or
      the way back to the tables is picked. It opens with the table's header and
      asks only for the table and for what the sample query needs. */
  method NavigateTableActions(os: Os, svc: Service, term: Terminal, c: string, s: string, t: string)
    modifies os, svc, term
    ensures Advances(old(term.answers), term.answers, old(term.trace), term.trace,
      old(svc.calls), svc.calls, old(os.env), os.env)
    ensures Below(svc.calls, |old(svc.calls)|, 3)
    ensures |term.trace| > |old(term.trace)| && term.trace[|old(term.trace)|] == TableBanner(t)
    ensures LeftMenu(term.trace, TableBanner(t), ActionMenu, BackToTables, [])
    ensures ActionPick(old(term.answers)).None? ==>
      term.trace == old(term.trace) + [TableBanner(t), Prompted(ActionMenu, Actions, Resolve(old(term.answers), Actions))] &&
      svc.calls == old(svc.calls)
  {
    var done := ActionStep(os, svc, term, c, s, t);
    ghost var first := done;
    ghost var trace1 := term.trace;
    while !done
      invariant Advances(old(term.answers), term.answers, old(term.trace), term.trace,
        old(svc.calls), svc.calls, old(os.env), os.env)
      invariant Below(svc.calls, |old(svc.calls)|, 3)
      invariant trace1 <= term.trace && |trace1| > |old(term.trace)| && trace1[|old(term.trace)|] == TableBanner(t)
      invariant first ==> done && term.trace == trace1 && svc.calls == old(svc.calls)
      invariant done ==> LeftMenu(term.trace, TableBanner(t), ActionMenu, BackToTables, [])
      decreases |term.answers|, !done
    {
      done := ActionStep(os, svc, term, c, s, t);
      assert term.trace[..|trace1|] == trace1;
    }
  }

  /** The row loop of `showColumns`. */
  method ColumnRows(cols: seq<Column>) returns (rows: seq<seq<string>>)
    ensures rows == ColumnTable(cols)
  {
    rows := [];
    for k := 0 to |cols|
      invariant rows == ColumnTable(cols[..k])
    {
      assert cols[..k + 1][..k] == cols[..k];
      var comment := cols[k].comment;
      if comment == "" {
        comment := "-";
      }
      rows := rows + [[cols[k].name, cols[k].typeName, comment]];
    }
    assert cols[..|cols|] == cols;
  }

  /** What `showColumns` shows for the table looked up: the lookup error, or the
      table of its columns. */
  function ColumnsEvent(info: Option<TableInfo>): Event
  {
    if info.None? then Failure("Failed to get table details")
    else Printed(Ui.TableLines(ColumnHeaders, ColumnTable(info.value.columns)))
  }

  /** `showColumns`: fetches the table by its full name and prints one row per
      column. */
  method ShowColumns(svc: Service, term: Terminal, c: string, s: string, t: string)
    modifies svc`tableInfos, svc`calls, term`trace
    ensures svc.calls == old(svc.calls) + [GetTableCall(FullName(c, s, t))]
    ensures term.trace == old(term.trace) + [ColumnsEvent(HeadOr(old(svc.tableInfos), None))]
  {
    var info := svc.GetTable(c + "." + s + "." + t);
    if info.None? {
      term.Emit(Failure("Failed to get table details"));
      return;
    }
    var rows := ColumnRows(info.value.columns);
    Ui.PrintTable(term, ColumnHeaders, rows);
  }

  /** `showExtendedMetadata`: fetches the table by its full name and prints its six
      metadata entries, in some order of the keys. */
  method ShowExtendedMetadata(svc: Service, term: Terminal, c: string, s: string, t: string)
    modifies svc`tableInfos, svc`calls, term`trace
    ensures svc.calls == old(svc.calls) + [GetTableCall(FullName(c, s, t))]
    ensures var info := HeadOr(old(svc.tableInfos), None);
      info.None? ==> term.trace == old(term.trace) + [Failure("Failed to get table details")]
    ensures var info := HeadOr(old(svc.tableInfos), None);
      info.Some? ==> exists order ::
        Ui.IsOrderOf(order, MetadataOf(info.value)) &&
        term.trace == old(term.trace) + [Header("Extended Metadata"), Printed(Ui.KeyValueLines(order, MetadataOf(info.value)))]
  {
    var info := svc.GetTable(c + "." + s + "." + t);
    if info.None? {
      term.Emit(Failure("Failed to get table details"));
      return;
    }
    var data := MetadataOf(info.value);
    assert |data| != 0 by {
      MetadataComplete(info.value);
    }
    var order := Ui.PrintKeyValue(term, "Extended Metadata", data);
  }

  /** The header loop of `sampleData`: the manifest's column names. */
  method ManifestHeaders(cols: seq<ResultColumn>) returns (headers: seq<string>)
    ensures |headers| == |cols| && forall i :: 0 <= i < |cols| ==> headers[i] == cols[i].name
  {
    headers := [];
    for i := 0 to |cols|
      invariant |headers| == i && forall j :: 0 <= j < i ==> headers[j] == cols[j].name
    {
      headers := headers + [cols[i].name];
    }
  }

  function ResultNames(cols: seq<ResultColumn>): seq<string>
  {
    seq(|cols|, i requires 0 <= i < |cols| => cols[i].name)
  }

  /** The part of `sampleData` before the query: the warehouse id to use, after
      offering the warehouse menu when none is set. */
  method EnsureWarehouse(os: Os, svc: Service, term: Terminal) returns (id: string)
    modifies os`env, os`dotenv, os`faults, svc`warehouses, svc`calls, term
    ensures var id0 := Lookup(old(os.env), WarehouseIdKey);
      && id == Lookup(os.env, WarehouseIdKey)
      && (id0 != "" ==> id == id0 && os.env == old(os.env) && svc.calls == old(svc.calls))
      && (id0 == "" ==> svc.calls == old(svc.calls) + [ListWarehousesCall])
    ensures SameLogin(old(os.env), os.env)
    ensures |term.answers| <= |old(term.answers)| && old(term.trace) <= term.trace
    ensures var id0 := Lookup(old(os.env), WarehouseIdKey);
      && (id0 != "" ==> term.trace == old(term.trace))
      && (id0 == "" ==>
            |term.trace| >= |old(term.trace)| + 2 &&
            term.trace[|old(term.trace)|] == Failure("DATABRICKS_WAREHOUSE_ID is missing.") &&
            term.trace[|old(term.trace)| + 1] == Info("Prompting for selection..."))
      && (id0 == "" && id == "" ==> term.trace[|term.trace| - 1] == Failure("No warehouse selected. Aborting query."))
  {
    id := os.Getenv(WarehouseIdKey);
    if id == "" {
      term.Emit(Failure("DATABRICKS_WAREHOUSE_ID is missing."));
      term.Emit(Info("Prompting for selection..."));
      SelectWarehouse(os, svc, term);
      id := os.Getenv(WarehouseIdKey);
      if id == "" {
        term.Emit(Failure("No warehouse selected. Aborting query."));
      }
    }
  }

  /** The part of `sampleData` once a warehouse id is known: shows the warehouse's
      status, sends the sample query of table `c.s.t` with `c` and `s` as default
      catalog and schema, and prints the result table. */
  method RunSample(svc: Service, term: Terminal, id: string, c: string, s: string, t: string)
    modifies svc`warehouseInfos, svc`responses, svc`calls, term`trace
    ensures svc.calls == old(svc.calls) + [GetWarehouseCall(id), ExecuteCall(StatementRequest(id, c, s, SampleQuery(c, s, t)))]
    ensures |term.trace| > |old(term.trace)| && old(term.trace) <= term.trace
    ensures var resp := HeadOr(old(svc.responses), None);
      term.trace[|term.trace| - 1] ==
        if resp.None? then Failure("Query failed")
        else if resp.value.data.None? then Info("No data found.")
        else if resp.value.manifest.None? then Failure("No schema manifest in response.")
        else Printed(Ui.TableLines(ResultNames(resp.value.manifest.value), resp.value.data.value))
  {
    var whInfo := svc.GetWarehouse(id);
    if whInfo.None? {
      term.Emit(Info("Warehouse ID: " + id + " (Status: Unknown)"));
    } else {
      var w := whInfo.value;
      term.Emit(Info("Using Warehouse: " + StateIcon(w.state) + " " + w.name + " (" + StateName(w.state) + ")"));
    }
    var query := "SELECT * FROM " + c + "." + s + "." + t + " LIMIT 5";
    term.Emit(Info("Executing: " + query));
    var resp := svc.Execute(StatementRequest(id, c, s, query));
    if resp.None? {
      term.Emit(Failure("Query failed"));
      return;
    }
    if resp.value.data.None? {
      term.Emit(Info("No data found."));
      return;
    }
    if resp.value.manifest.None? {
      term.Emit(Failure("No schema manifest in response."));
      return;
    }
    var headers := ManifestHeaders(resp.value.manifest.value);
    assert headers == ResultNames(resp.value.manifest.value);
    Ui.PrintTable(term, headers, resp.value.data.value);
  }

  /** `sampleData`: with a warehouse id (offering the warehouse menu first when there
      is none), runs the sample query on `c.s.t`. No statement is sent without a
      warehouse id, and the one sent runs on the id in the environment. */
  method SampleData(os: Os, svc: Service, term: Terminal, c: string, s: string, t: string)
    modifies os`env, os`dotenv, os`faults, svc`warehouses, svc`warehouseInfos, svc`responses, svc`calls, term
    ensures var id0 := Lookup(old(os.env), WarehouseIdKey);
      var id := Lookup(os.env, WarehouseIdKey);
      && (id0 != "" ==> id == id0)
      && svc.calls == old(svc.calls) + SampleCalls(id0, id, c, s, t)
    ensures |term.trace| > |old(term.trace)| && old(term.trace) <= term.trace
    ensures var resp := HeadOr(old(svc.responses), None);
      Lookup(os.env, WarehouseIdKey) != "" && resp.Some? && resp.value.data.Some? && resp.value.manifest.Some? ==>
        term.trace[|term.trace| - 1] == Printed(Ui.TableLines(ResultNames(resp.value.manifest.value), resp.value.data.value))
    ensures SameLogin(old(os.env), os.env)
    ensures |term.answers| <= |old(term.answers)|
  {
    term.Emit(Info("Querying data (via Statement Execution)..."));
    var id := EnsureWarehouse(os, svc, term);
    if id == "" {
      return;
    }
    RunSample(svc, term, id, c, s, t);
  }

  /** `RunInteractiveLogin` as the menus see it: on success the user is logged in
      and only the four credential variables may have changed; on failure the
      environment is as it was. At most the warehouse listing is requested. */
  method Login(os: Os, svc: Service, term: Terminal) returns (ok: bool)
    modifies os`stdin, os`faults, os`dotenv, os`env, svc`warehouses, svc`calls, term`trace
    ensures ok ==> HasCreds(os.env)
    ensures !ok ==> os.env == old(os.env)
    ensures forall k :: k !in CredentialKeys ==> Lookup(os.env, k) == Lookup(old(os.env), k)
    ensures svc.calls == old(svc.calls) || svc.calls == old(svc.calls) + [ListWarehousesCall]
    ensures old(term.trace) <= term.trace
    ensures !ok ==>
      |term.trace| > |old(term.trace)| && term.trace[|term.trace| - 1].Failure? &&
      "Login failed: " <= term.trace[|term.trace| - 1].text
  {
    var login := Auth.RunInteractiveLogin(os, svc, term);
    if login.Err? {
      term.Emit(Failure("Login failed: " + login.message));
      return false;
    }
    Auth.WithCredentialsKeeps(old(os.env), login.value);
    return true;
  }

  /** The "Reset Credentials / Login" entry: clears the credentials, then logs in
      again. Afterwards the user is either logged in (host and token set) or fully
      logged out (none of the four variables set); no other variable changes, and
      no catalog is listed. */
  method ResetAndLogin(os: Os, svc: Service, term: Terminal)
    modifies os`stdin, os`faults, os`dotenv, os`env, svc`warehouses, svc`calls, term`trace
    ensures HasCreds(os.env) || forall k :: k in CredentialKeys ==> k !in os.env
    ensures forall k :: k !in CredentialKeys ==> Lookup(os.env, k) == Lookup(old(os.env), k)
    ensures svc.calls == old(svc.calls) || svc.calls == old(svc.calls) + [ListWarehousesCall]
    ensures old(term.trace) <= term.trace
  {
    var cleared := Auth.ClearCredentials(os, term);
    if cleared.Fail? {
      term.Emit(Failure("Failed to clear credentials: " + cleared.message));
    }
    var _ := Login(os, svc, term);
  }

  /** "Start Exploration": logs in first when the host or token is missing, and
      explores catalogs only once logged in. So the catalogs are listed exactly
      when the user ends up logged in. */
  method Explore(os: Os, svc: Service, term: Terminal)
    modifies os, svc, term
    ensures old(svc.calls) <= svc.calls
    ensures (ListCatalogsCall in svc.calls[|old(svc.calls)|..]) <==> HasCreds(os.env)
    ensures |term.answers| <= |old(term.answers)| && old(term.trace) <= term.trace
  {
    if os.Getenv(HostKey) == "" || os.Getenv(TokenKey) == "" {
      term.Emit(Info("No credentials found. Starting interactive login..."));
      var ok := Login(os, svc, term);
      if !ok {
        assert svc.calls[|old(svc.calls)|..] == [] || svc.calls[|old(svc.calls)|..] == [ListWarehousesCall];
        return;
      }
    }
    ghost var calls1 := svc.calls;
    RunCatalogLoop(os, svc, term);
    assert svc.calls[|old(svc.calls)|..][|calls1| - |old(svc.calls)|] == ListCatalogsCall;
  }

  /** The top of the main menu loop: the login status line and the menu entries. */
  method MainMenuStatus(os: Os, term: Terminal) returns (items: seq<string>)
    modifies term`trace
    ensures items == MainMenuItems(os.env)
    ensures term.trace == old(term.trace) +
      [if HasCreds(os.env) then Info("Logged in as: " + Lookup(os.env, HostKey)) else Info("Status: Not Logged In")]
  {
    var hasCreds := os.Getenv(HostKey) != "" && os.Getenv(TokenKey) != "";
    items := [StartItem];
    if hasCreds {
      term.Emit(Info("Logged in as: " + os.Getenv(HostKey)));
      items := items + [ResetItem];
      if os.Getenv(WarehouseIdKey) != "" {
        items := items + [SwitchItem];
      } else {
        items := items + [SelectItem];
      }
    } else {
      term.Emit(Info("Status: Not Logged In"));
    }
    items := items + [ExitItem];
  }

  /** Runs the main menu entry `choice` other than exit. */
  method Dispatch(os: Os, svc: Service, term: Terminal, choice: string)
    modifies os, svc, term
    ensures old(svc.calls) <= svc.calls && old(term.trace) <= term.trace && |term.answers| <= |old(term.answers)|
    ensures choice == ResetItem ==>
      ListCatalogsCall !in svc.calls[|old(svc.calls)|..] &&
      (HasCreds(os.env) || forall k :: k in CredentialKeys ==> k !in os.env)
    ensures choice == StartItem ==>
      ((ListCatalogsCall in svc.calls[|old(svc.calls)|..]) <==> HasCreds(os.env))
  {
    MainItemsDiffer();
    if choice == ResetItem {
      ResetAndLogin(os, svc, term);
      assert svc.calls[|old(svc.calls)|..] == [] || svc.calls[|old(svc.calls)|..] == [ListWarehousesCall];
    } else if choice == SwitchItem || choice == SelectItem {
      SelectWarehouse(os, svc, term);
    } else {
      Explore(os, svc, term);
    }
  }

  /** One pass of the main menu loop of `startInteractiveJourney`. `quit` says the
      journey ends: the prompt failed or exit was picked. Reset never explores;
      exploration happens exactly when the user ends up logged in. */
  method JourneyStep(os: Os, svc: Service, term: Terminal) returns (quit: bool)
    modifies os, svc, term
    ensures old(svc.calls) <= svc.calls && old(term.trace) <= term.trace && |term.answers| <= |old(term.answers)|
    ensures var items := MainMenuItems(old(os.env));
      var r := Resolve(old(term.answers), items);
      && (quit <==> r.None? || items[r.value] == ExitItem)
      && (r.Some? && items[r.value] == ResetItem ==>
            ListCatalogsCall !in svc.calls[|old(svc.calls)|..] &&
            (HasCreds(os.env) || forall k :: k in CredentialKeys ==> k !in os.env))
      && (r.Some? && items[r.value] == StartItem ==>
            ((ListCatalogsCall in svc.calls[|old(svc.calls)|..]) <==> HasCreds(os.env)))
    ensures quit ==> EndsJourney(term.trace)
    ensures !quit ==> |term.answers| < |old(term.answers)|
  {
    var items := MainMenuStatus(os, term);
    var r := term.Select(MainMenu, items);
    if r.None? {
      return true;
    }
    var choice := items[r.value];
    if choice == ExitItem {
      term.Emit(Info("Bye! \U{1F44B}"));
      return true;
    }
    Dispatch(os, svc, term, choice);
    return false;
  }

  /** `startInteractiveJourney`: the header, then the main menu until its prompt
      fails or exit is picked. */
  method StartInteractiveJourney(os: Os, svc: Service, term: Terminal)
    modifies os, svc, term
    ensures |old(term.trace)| < |term.trace| && old(term.trace) <= term.trace
    ensures term.trace[|old(term.trace)|] == Header("Interactive Journey")
    ensures EndsJourney(term.trace)
  {
    term.Emit(Header("Interactive Journey"));
    var quit := false;
    while !quit
      invariant |old(term.trace)| < |term.trace| && old(term.trace) <= term.trace
      invariant term.trace[|old(term.trace)|] == Header("Interactive Journey")
      invariant quit ==> EndsJourney(term.trace)
      decreases |term.answers|, !quit
    {
      ghost var trace1 := term.trace;
      quit := JourneyStep(os, svc, term);
      assert term.trace[|old(term.trace)|] == trace1[|old(term.trace)|];
    }
  }
}
