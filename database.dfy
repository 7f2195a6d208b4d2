/**
 * The in-memory table store of src/database.rs: a map from table name to table, with
 * insert-if-absent and remove-if-present.
 */
module TableStore {
  import opened Wrappers
  import opened Errors

  /** Rust's `i32`. */
  newtype i32 = x: int | -0x8000_0000 <= x < 0x8000_0000

  datatype FieldValue = I32(value: i32)

  datatype ColumnDescription = ColumnDescription(columnName: string, columnType: string)

  /** One row: `TableEntry`, whose fields `set_field` updates in place. */
  class TableEntry {
    var fields: seq<FieldValue>

    constructor (values: seq<FieldValue>)
      ensures fields == values
    {
      fields := values;
    }

    /** `TableEntry::set_field`: replaces field fieldId and no other. */
    method SetField(fieldId: nat, value: FieldValue)
      requires fieldId < |fields|
      modifies this
      ensures |fields| == |old(fields)| && fields[fieldId] == value
      ensures forall j :: 0 <= j < |fields| && j != fieldId ==> fields[j] == old(fields)[j]
    {
      fields := fields[fieldId := value];
    }
  }

  /** What a table holds, as a value: its columns and its rows. */
  datatype TableContents = TableContents(columns: seq<ColumnDescription>, rows: seq<TableEntry>)

  /** One table: `Table`, whose rows `insert_row` and `delete_row` update in place. */
  class Table {
    var columns: seq<ColumnDescription>
    var rows: seq<TableEntry>

    /** `Table::from_column_definition`: the given columns, in order, and no rows. */
    constructor FromColumnDefinition(columns: seq<ColumnDescription>)
      ensures this.columns == columns && rows == []
    {
      this.columns := columns;
      rows := [];
    }

    function Contents(): TableContents
      reads this
    {
      TableContents(columns, rows)
    }

    /** `Table::insert_row`: one new row holding the values, at the end; the columns and the earlier rows stay. */
    method InsertRow(values: seq<FieldValue>)
      modifies this
      ensures columns == old(columns)
      ensures |rows| == |old(rows)| + 1 && rows[..|old(rows)|] == old(rows)
      ensures fresh(rows[|old(rows)|]) && rows[|old(rows)|].fields == values
    {
      var entry := new TableEntry(values);
      rows := rows + [entry];
    }

    /** `Table::delete_row`: removes row rowId only; the rows before it and after it keep their order. */
    method DeleteRow(rowId: nat)
      requires rowId < |rows|
      modifies this
      ensures columns == old(columns) && |rows| == |old(rows)| - 1
      ensures forall j :: 0 <= j < rowId ==> rows[j] == old(rows)[j]
      ensures forall j :: rowId <= j < |rows| ==> rows[j] == old(rows)[j + 1]
    {
      rows := rows[..rowId] + rows[rowId + 1..];
    }
  }

  /**
   * `create_table` on the map: on a name already present, `TableAlreadyExists` and no change;
   * otherwise a new table with exactly the given columns and no rows under that name, and every
   * other table as it was.
   */
  function CreateIn(tables: map<string, TableContents>, name: string, columns: seq<ColumnDescription>): (r: (Result<TableContents, DbErr>, map<string, TableContents>))
    ensures r.0.Err? <==> name in tables
    ensures r.0.Err? ==> r.0.error == TableAlreadyExists && r.1 == tables
    ensures r.0.Ok? ==>
      && r.0.value.columns == columns && r.0.value.rows == []
      && r.1.Keys == tables.Keys + {name}
      && r.1[name] == r.0.value
      && forall k :: k in tables ==> r.1[k] == tables[k]
  {
    if name in tables then (Err(TableAlreadyExists), tables)
    else
      var table := TableContents(columns, []);
      (Ok(table), tables[name := table])
  }

  /**
   * `delete_table` on the map: on a present name, that table is returned and removed and every
   * other table stays; on an absent one, `TableNotExists` and no change.
   */
  function DeleteFrom(tables: map<string, TableContents>, name: string): (r: (Result<TableContents, DbErr>, map<string, TableContents>))
    ensures r.0.Err? <==> name !in tables
    ensures r.0.Err? ==> r.0.error == TableNotExists && r.1 == tables
    ensures r.0.Ok? ==>
      && r.0.value == tables[name]
      && r.1.Keys == tables.Keys - {name}
      && forall k :: k in r.1 ==> r.1[k] == tables[k]
  {
    if name in tables then (Ok(tables[name]), tables - {name})
    else (Err(TableNotExists), tables)
  }

  /** Creating a table under a fresh name and then deleting it restores the store. */
  lemma CreateThenDeleteRestores(tables: map<string, TableContents>, name: string, columns: seq<ColumnDescription>)
    requires name !in tables
    ensures var created := CreateIn(tables, name, columns).1;
      DeleteFrom(created, name) == (Ok(TableContents(columns, [])), tables)
  {
    var created := CreateIn(tables, name, columns).1;
    assert DeleteFrom(created, name).1 == tables;
  }

  /** Creating a table twice under one name fails the second time and leaves the first table. */
  lemma CreateTwiceFails(tables: map<string, TableContents>, name: string, c1: seq<ColumnDescription>, c2: seq<ColumnDescription>)
    ensures var once := CreateIn(tables, name, c1).1;
      CreateIn(once, name, c2) == (Err(TableAlreadyExists), once)
  {
  }

  /** The store: `Database` in src/database.rs. Its map is updated in place. */
  class Database {
    var tables: map<string, Table>

    /** `Database::new`: an empty store. */
    constructor ()
      ensures tables == map[]
    {
      tables := map[];
    }

    /** The store as values: the contents of the table under each name. */
    function Contents(): map<string, TableContents>
      reads this, tables.Values
    {
      map name | name in tables :: tables[name].Contents()
    }

    /** `Database::get_table`: the table stored under exactly that name, if any. */
    function GetTable(name: string): (r: Option<Table>)
      reads this
      ensures r.Some? <==> name in tables
      ensures r.Some? ==> r.value == tables[name]
    {
      if name in tables then Some(tables[name]) else None
    }

    /**
     * `Database::create_table`: on a taken name, `TableAlreadyExists` and no change; otherwise a
     * new table under that name, every other entry kept; the contents change as `CreateIn` says.
     */
    method CreateTable(name: string, columns: seq<ColumnDescription>) returns (r: Result<Table, DbErr>)
      modifies this
      ensures name in old(tables) ==> r == Err(TableAlreadyExists) && tables == old(tables)
      ensures name !in old(tables) ==> r.Ok? && fresh(r.value) && tables == old(tables)[name := r.value]
      ensures r.Ok? ==> CreateIn(old(Contents()), name, columns).0 == Ok(r.value.Contents())
      ensures Contents() == CreateIn(old(Contents()), name, columns).1
    {
      if name in tables {
        return Err(TableAlreadyExists);
      }
      var table := new Table.FromColumnDefinition(columns);
      tables := tables[name := table];
      r := Ok(tables[name]);
      assert Contents() == old(Contents())[name := table.Contents()];
    }

    /**
     * `Database::delete_table`: on a present name, that table is returned and its entry removed,
     * every other entry kept; on an absent one, `TableNotExists` and no change; the contents
     * change as `DeleteFrom` says.
     */
    method DeleteTable(name: string) returns (r: Result<Table, DbErr>)
      modifies this
      ensures name in old(tables) ==> r == Ok(old(tables)[name]) && tables == old(tables) - {name}
      ensures name !in old(tables) ==> r == Err(TableNotExists) && tables == old(tables)
      ensures r.Ok? ==> DeleteFrom(old(Contents()), name).0 == Ok(r.value.Contents())
      ensures Contents() == DeleteFrom(old(Contents()), name).1
    {
      if name in tables {
        r := Ok(tables[name]);
        tables := tables - {name};
        assert Contents() == old(Contents()) - {name};
      } else {
        r := Err(TableNotExists);
      }
    }
  }
}
