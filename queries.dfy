/**
 * The `Query` trait of src/queries/mod.rs. Its two implementations form a closed set, so a
 * query is a datatype with one variant per implementation, each holding the bindings it was
 * built from. `QuerySuccess`, an empty struct, is the unit value `()`.
 */
module Queries {
  import opened Wrappers
  import opened Tokens
  import opened Errors
  import opened TableStore
  import opened CreateTableQueries
  import opened DeleteTableQueries

  datatype Query =
    | CreateTableQuery(data: map<string, Token>)
    | DeleteTableQuery(data: map<string, Token>)

  /**
   * `Query::execute` on the store's map, dispatched on the implementation. A failed query leaves
   * the store as it was; a successful CREATE adds exactly its named table and a successful
   * DELETE removes exactly its named table; no other table is touched.
   */
  function Run(q: Query, tables: map<string, TableContents>): (r: (Result<(), DbErr>, map<string, TableContents>))
    ensures r.0.Err? ==> r.1 == tables
    ensures q.CreateTableQuery? && r.0.Ok? ==>
      && GetTableName(q.data).Ok? && TableDescription(q.data).Ok?
      && GetTableName(q.data).value !in tables && r.1.Keys == tables.Keys + {GetTableName(q.data).value}
      && r.1[GetTableName(q.data).value] == TableContents(TableDescription(q.data).value, [])
    ensures q.DeleteTableQuery? && r.0.Ok? ==>
      "Name" in q.data && q.data["Name"].Identifier? && q.data["Name"].text in tables && r.1.Keys == tables.Keys - {q.data["Name"].text}
    ensures forall k :: k in tables && k in r.1 ==> r.1[k] == tables[k]
  {
    match q
    case CreateTableQuery(data) => CreateRun(data, tables)
    case DeleteTableQuery(data) => DeleteRun(data, tables)
  }

  /** `Query::execute`: exactly the change `Run` describes. */
  method Execute(q: Query, database: Database) returns (r: Result<(), DbErr>)
    modifies database
    ensures (r, database.Contents()) == Run(q, old(database.Contents()))
  {
    match q
    case CreateTableQuery(data) => r := ExecuteCreate(data, database);
    case DeleteTableQuery(data) => r := ExecuteDelete(data, database);
  }
}
