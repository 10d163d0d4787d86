/** The `catalog list-catalogs` command: drains the catalog listing, keeping what was
    collected when the iteration fails, and prints one row per catalog. */
module CatalogCommand {
  import opened Wrappers
  import opened Listings
  import opened Remote
  import opened Platform
  import Ui

  const CatalogHeaders := ["Name", "Owner", "Comment"]

  /** The row shown for a catalog. */
  function CatalogRow(c: CatalogInfo): seq<string>
  {
    [c.name, c.owner, c.comment]
  }

  function CatalogRows(cs: seq<CatalogInfo>): seq<seq<string>>
  {
    seq(|cs|, i requires 0 <= i < |cs| => CatalogRow(cs[i]))
  }

  /** The drain loop of `listCatalogsCmd`: collects rows until the listing runs out
      or fails, and on a failure stops but keeps the rows collected so far. */
  method CollectCatalogRows(l: Listing<CatalogInfo>) returns (rows: seq<seq<string>>, failed: bool)
    ensures rows == CatalogRows(l.items) && failed == l.fails
  {
    rows := [];
    failed := false;
    var pos := 0;
    while HasNext(l, pos)
      invariant pos <= |l.items| && rows == CatalogRows(l.items[..pos]) && !failed
      decreases |l.items| - pos
    {
      var c := Next(l, pos);
      if c.None? {
        failed := true;
        break;
      }
      assert l.items[..pos + 1][..pos] == l.items[..pos];
      rows := rows + [CatalogRow(c.value)];
      pos := pos + 1;
    }
    assert l.items[..|l.items|] == l.items;
  }

  /** One row per catalog yielded, in iteration order and with exactly the cells
      name, owner and comment; no catalog gives the "no data" line. */
  lemma CatalogRowsShape(cs: seq<CatalogInfo>)
    ensures |CatalogRows(cs)| == |cs|
    ensures forall i :: 0 <= i < |cs| ==>
      |CatalogRows(cs)[i]| == |CatalogHeaders| && CatalogRows(cs)[i] == [cs[i].name, cs[i].owner, cs[i].comment]
    ensures cs == [] <==> Ui.TableLines(CatalogHeaders, CatalogRows(cs)) == [Ui.NoDataFound]
  {
    Ui.TableShape(CatalogHeaders, CatalogRows(cs));
  }

  /** `listCatalogsCmd`: asks for the catalogs once, reports an iteration error, and
      prints the table of the catalogs yielded before it in any case. */
  method ListCatalogs(svc: Service, term: Terminal)
    modifies svc`catalogs, svc`calls, term`trace
    ensures svc.calls == old(svc.calls) + [ListCatalogsCall]
    ensures var l := HeadOr(old(svc.catalogs), Listing([], true));
      term.trace == old(term.trace) + [Info("Listing catalogs...")]
        + (if l.fails then [Failure("Error iterating catalogs")] else [])
        + [Printed(Ui.TableLines(CatalogHeaders, CatalogRows(l.items)))]
  {
    term.Emit(Info("Listing catalogs..."));
    var listing := svc.ListCatalogs();
    var rows, failed := CollectCatalogRows(listing);
    if failed {
      term.Emit(Failure("Error iterating catalogs"));
    }
    Ui.PrintTable(term, CatalogHeaders, rows);
  }
}
