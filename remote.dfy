/** The records the remote catalog and compute service hands back, reduced to the
    fields the explorer reads. */
module Remote {
  import opened Wrappers

  /** The lifecycle state of a SQL warehouse; `Unspecified` is the empty state. */
  datatype WarehouseState = Running | Starting | Stopped | Stopping | Deleting | Deleted | Unspecified

  /** A SQL warehouse as listed; `odbcPath` is the HTTP path of its ODBC parameters,
      `None` when the service sends no ODBC parameters. */
  datatype Warehouse = Warehouse(
    id: string,
    name: string,
    state: WarehouseState,
    clusterSize: string,
    serverless: bool,
    odbcPath: Option<string>)

  datatype CatalogInfo = CatalogInfo(name: string, owner: string, comment: string)

  /** A column of a table; `typeName` is the printed form of its type. */
  datatype Column = Column(name: string, typeName: string, comment: string)

  datatype TableInfo = TableInfo(
    columns: seq<Column>,
    tableId: string,
    tableType: string,
    owner: string,
    createdBy: string,
    storageLocation: string,
    dataSourceFormat: string)

  /** A column of a statement result's schema manifest. */
  datatype ResultColumn = ResultColumn(name: string)

  /** The answer to a statement execution: `data` is the result's data array and
      `manifest` the columns of its schema manifest; either may be missing. */
  datatype StatementResponse = StatementResponse(
    data: Option<seq<seq<string>>>,
    manifest: Option<seq<ResultColumn>>)
}
