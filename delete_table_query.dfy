/** `DeleteTableQuery` of src/queries/delete_table_query.rs: looks up the name, then deletes that table. */
module DeleteTableQueries {
  import opened Wrappers
  import opened Tokens
  import opened Errors
  import opened TableStore

  /**
   * `execute` on the store's map: with "Name" bound to `Identifier(t)`, `delete_table(t)` and its
   * error unchanged; otherwise "Bad name param" and the store as it was.
   */
  function DeleteRun(data: map<string, Token>, tables: map<string, TableContents>): (r: (Result<(), DbErr>, map<string, TableContents>))
    ensures !("Name" in data && data["Name"].Identifier?) ==> r == (Err(Generic(BadNameParam)), tables)
    ensures "Name" in data && data["Name"].Identifier? ==>
      var name := data["Name"].text;
      && (r.0.Ok? <==> name in tables)
      && (r.0.Err? ==> r.0.error == TableNotExists && r.1 == tables)
      && (r.0.Ok? ==> r.1.Keys == tables.Keys - {name} && forall k :: k in r.1 ==> r.1[k] == tables[k])
  {
    if "Name" in data && data["Name"].Identifier? then
      var (result, after) := DeleteFrom(tables, data["Name"].text);
      (if result.Ok? then Ok(()) else Err(result.error), after)
    else
      (Err(Generic(BadNameParam)), tables)
  }

  /** `DeleteTableQuery::execute`: exactly the change `DeleteRun` describes. */
  method ExecuteDelete(data: map<string, Token>, database: Database) returns (r: Result<(), DbErr>)
    modifies database
    ensures (r, database.Contents()) == DeleteRun(data, old(database.Contents()))
  {
    if "Name" in data && data["Name"].Identifier? {
      var deleted := database.DeleteTable(data["Name"].text);
      match deleted
      case Ok(_) => r := Ok(());
      case Err(e) => r := Err(e);
    } else {
      r := Err(Generic(BadNameParam));
    }
  }
}
