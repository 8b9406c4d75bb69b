/** The three request shapes the reporter sends to the table store
    (tables.get, tables.insert, tabledata.insertAll) and the errors it can get
    back. The authorised client travels with every request in the source; it
    is an opaque capability and is not part of these records. */
module Requests {
  import opened Json
  import opened Schema
  import opened Seqs

  /** The triple that names one table in the store. */
  datatype TableReference = TableReference(projectId: string, datasetId: string, tableId: string)

  /** An error reply from the store, passed on unchanged. */
  datatype RemoteError = RemoteError(code: int, reason: string)

  /** The reply to a lookup of a table that does not exist. */
  const NotFound: RemoteError := RemoteError(404, "notFound")

  /** The reply to a create request for a table that already exists. */
  const Duplicate: RemoteError := RemoteError(409, "duplicate")

  const TableKind: string := "bigquery#table"
  const InsertAllKind: string := "bigquery#tableDataInsertAllRequest"

  datatype GetTableParams = GetTableParams(projectId: string, datasetId: string, tableId: string)

  datatype TableSchema = TableSchema(fields: seq<Field>)

  /** The table resource: what a create request carries and a lookup returns. */
  datatype TableResource = TableResource(kind: string, tableReference: TableReference, schema: TableSchema)

  datatype CreateTableParams = CreateTableParams(projectId: string, datasetId: string, resource: TableResource)

  /** One row as the insertAll request carries it: `{json: row}`. */
  datatype RowEnvelope = RowEnvelope(json: Row)

  datatype InsertAllResource = InsertAllResource(kind: string, rows: seq<RowEnvelope>)

  datatype InsertAllParams = InsertAllParams(projectId: string, datasetId: string, tableId: string, resource: InsertAllResource)

  /** The table a configuration designates. */
  function TargetOf(cfg: TableConfig): TableReference
  {
    TableReference(cfg.projectId, cfg.datasetId, cfg.table.id)
  }

  function GetTarget(p: GetTableParams): TableReference
  {
    TableReference(p.projectId, p.datasetId, p.tableId)
  }

  function InsertAllTarget(p: InsertAllParams): TableReference
  {
    TableReference(p.projectId, p.datasetId, p.tableId)
  }

  /** The configuration a create request was built from, read back off the request. */
  function ConfigOfCreate(p: CreateTableParams): TableConfig
  {
    TableConfig(p.projectId, p.datasetId, TableSpec(p.resource.tableReference.tableId, p.resource.schema.fields))
  }

  /** The lookup request for the configured table. */
  function GetTableRequest(cfg: TableConfig): (p: GetTableParams)
    ensures GetTarget(p) == TargetOf(cfg)
  {
    GetTableParams(cfg.projectId, cfg.datasetId, cfg.table.id)
  }

  /** The create request: a table resource whose reference is the configured
      table and whose schema is the configured field list, unchanged. */
  function CreateTableRequest(cfg: TableConfig): (p: CreateTableParams)
    ensures p.resource.kind == TableKind
    ensures p.resource.tableReference == TargetOf(cfg)
    ensures p.projectId == p.resource.tableReference.projectId
    ensures p.datasetId == p.resource.tableReference.datasetId
    ensures p.resource.schema.fields == cfg.table.fields
    ensures ConfigOfCreate(p) == cfg
  {
    CreateTableParams(cfg.projectId, cfg.datasetId,
      TableResource(TableKind, TableReference(cfg.projectId, cfg.datasetId, cfg.table.id), TableSchema(cfg.table.fields)))
  }

  /** Wraps each row as `{json: row}`, one envelope per row, in order. */
  function WrapRows(rows: seq<Row>): (envs: seq<RowEnvelope>)
    ensures |envs| == |rows|
    ensures forall i :: 0 <= i < |rows| ==> envs[i].json == rows[i]
  {
    MapSeq(rows, (r: Row) => RowEnvelope(r))
  }

  /** The rows inside a list of envelopes. */
  function UnwrapRows(envs: seq<RowEnvelope>): seq<Row>
  {
    MapSeq(envs, (e: RowEnvelope) => e.json)
  }

  /** Wrapping loses nothing and adds nothing: unwrapping gives the rows back,
      and every envelope list is the wrapping of its rows. */
  lemma WrapRowsRoundTrip(rows: seq<Row>, envs: seq<RowEnvelope>)
    ensures UnwrapRows(WrapRows(rows)) == rows
    ensures WrapRows(UnwrapRows(envs)) == envs
  {
    assert forall i :: 0 <= i < |envs| ==> envs[i] == RowEnvelope(envs[i].json);
  }

  /** The insertAll request for the configured table carrying `rows`. */
  function InsertAllRequest(cfg: TableConfig, rows: seq<Row>): (p: InsertAllParams)
    ensures InsertAllTarget(p) == TargetOf(cfg)
    ensures p.resource.kind == InsertAllKind
    ensures UnwrapRows(p.resource.rows) == rows
  {
    WrapRowsRoundTrip(rows, []);
    InsertAllParams(cfg.projectId, cfg.datasetId, cfg.table.id, InsertAllResource(InsertAllKind, WrapRows(rows)))
  }
}
