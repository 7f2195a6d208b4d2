/**
 * `CreateTableQuery` of src/queries/create_table_query.rs: reads the table name and the
 * captured column list out of the bindings, then creates the table.
 */
module CreateTableQueries {
  import opened Wrappers
  import opened Tokens
  import opened Errors
  import opened TableStore

  /** `get_table_name`: the text of an `Identifier` bound to "Name", else "Bad name param". */
  function GetTableName(data: map<string, Token>): (r: Result<string, DbErr>)
    ensures r.Ok? <==> "Name" in data && data["Name"].Identifier?
    ensures r.Ok? ==> data["Name"] == Identifier(r.value)
    ensures r.Err? ==> r.error == Generic(BadNameParam)
  {
    if "Name" in data && data["Name"].Identifier? then Ok(data["Name"].text) else Err(Generic(BadNameParam))
  }

  /**
   * The column-list loop from position i on: a pair `Identifier Identifier`, then the end of the
   * list or a comma and more. Reading the second item of a pair that would start on the last
   * item indexes past the end; the Rust program panics there, and the model returns
   * IndexOutOfBounds instead.
   */
  function ColumnsFrom(tokens: seq<Token>, i: nat): (r: Result<seq<ColumnDescription>, DbErr>)
    requires i <= |tokens|
    ensures r.Ok? ==> |r.value| > 0
    decreases |tokens| - i
  {
    if i == |tokens| then Err(Generic(UnexpectedParsingError))
    else if i + 1 == |tokens| then Err(IndexOutOfBounds(i + 1, |tokens|))
    else if !tokens[i].Identifier? || !tokens[i + 1].Identifier? then Err(Generic(BadTableDescription))
    else
      var column := ColumnDescription(tokens[i].text, tokens[i + 1].text);
      if i + 2 == |tokens| then Ok([column])
      else if tokens[i + 2] != Comma then Err(Generic(UnexpectedItem))
      else
        match ColumnsFrom(tokens, i + 3)
        case Ok(more) => Ok([column] + more)
        case Err(e) => Err(e)
  }

  /** The parsed column list of a whole captured list. */
  function ParseColumns(tokens: seq<Token>): Result<seq<ColumnDescription>, DbErr> {
    ColumnsFrom(tokens, 0)
  }

  /** `get_table_description` as a value: a `List` bound to "TableDescription" is parsed, anything else is "Bad name param". */
  function TableDescription(data: map<string, Token>): (r: Result<seq<ColumnDescription>, DbErr>)
    ensures !("TableDescription" in data && data["TableDescription"].List?) ==> r == Err(Generic(BadNameParam))
    ensures "TableDescription" in data && data["TableDescription"].List? ==> r == ParseColumns(data["TableDescription"].items)
  {
    if "TableDescription" in data && data["TableDescription"].List? then ParseColumns(data["TableDescription"].items)
    else Err(Generic(BadNameParam))
  }

  /** The columns already collected, put in front of what the rest of the loop yields. */
  function Prepend(columns: seq<ColumnDescription>, r: Result<seq<ColumnDescription>, DbErr>): Result<seq<ColumnDescription>, DbErr> {
    match r
    case Ok(more) => Ok(columns + more)
    case Err(e) => Err(e)
  }

  /** `get_table_description`: the `while` loop over the captured list; it computes exactly `TableDescription`. */
  method GetTableDescription(data: map<string, Token>) returns (r: Result<seq<ColumnDescription>, DbErr>)
    ensures r == TableDescription(data)
  {
    if !("TableDescription" in data && data["TableDescription"].List?) {
      return Err(Generic(BadNameParam));
    }
    var tokens := data["TableDescription"].items;
    var i := 0;
    var columnDescriptions: seq<ColumnDescription> := [];
    match ColumnsFrom(tokens, 0) {
      case Ok(all) => assert columnDescriptions + all == all;
      case Err(_) =>
    }
    while i < |tokens|
      invariant i <= |tokens|
      invariant ParseColumns(tokens) == Prepend(columnDescriptions, ColumnsFrom(tokens, i))
      decreases |tokens| - i
    {
      if i + 1 >= |tokens| {
        return Err(IndexOutOfBounds(i + 1, |tokens|));
      }
      if !(tokens[i].Identifier? && tokens[i + 1].Identifier?) {
        return Err(Generic(BadTableDescription));
      }
      var column := ColumnDescription(tokens[i].text, tokens[i + 1].text);
      ghost var before := columnDescriptions;
      columnDescriptions := columnDescriptions + [column];
      i := i + 2;
      if i == |tokens| {
        return Ok(columnDescriptions);
      } else if tokens[i] == Comma {
        i := i + 1;
        match ColumnsFrom(tokens, i) {
          case Ok(more) => assert before + ([column] + more) == columnDescriptions + more;
          case Err(_) =>
        }
      } else {
        return Err(Generic(UnexpectedItem));
      }
    }
    return Err(Generic(UnexpectedParsingError));
  }

  // ---------------------------------------------------------------------------
  // The column list and its rendering
  // ---------------------------------------------------------------------------

  /** The captured list a column list is written as: `name type` pairs separated by commas. */
  function Render(columns: seq<ColumnDescription>): seq<Token> {
    if columns == [] then []
    else if |columns| == 1 then [Identifier(columns[0].columnName), Identifier(columns[0].columnType)]
    else [Identifier(columns[0].columnName), Identifier(columns[0].columnType), Comma] + Render(columns[1..])
  }

  /** A rendered column list holds identifiers and commas only. */
  lemma {:induction false} RenderKinds(columns: seq<ColumnDescription>)
    ensures forall i :: 0 <= i < |Render(columns)| ==> Render(columns)[i].Identifier? || Render(columns)[i] == Comma
    decreases |columns|
  {
    if |columns| > 1 {
      RenderKinds(columns[1..]);
    }
  }

  /** Parsing from a position where the rendering of a non-empty column list starts yields exactly those columns. */
  lemma {:induction false} ColumnsFromRender(tokens: seq<Token>, i: nat, columns: seq<ColumnDescription>)
    requires columns != [] && i <= |tokens| && tokens[i..] == Render(columns)
    ensures ColumnsFrom(tokens, i) == Ok(columns)
    decreases |columns|
  {
    var c := columns[0];
    assert tokens[i] == Identifier(c.columnName) && tokens[i + 1] == Identifier(c.columnType);
    if |columns| == 1 {
      assert |tokens| == i + 2;
      assert columns == [c];
    } else {
      assert tokens[i + 2] == Comma;
      assert tokens[i + 3..] == tokens[i..][3..];
      ColumnsFromRender(tokens, i + 3, columns[1..]);
      assert columns == [c] + columns[1..];
    }
  }

  /** Round trip: a rendered non-empty column list parses back to the same columns, in order. */
  lemma RenderParses(columns: seq<ColumnDescription>)
    requires columns != []
    ensures ParseColumns(Render(columns)) == Ok(columns)
  {
    ColumnsFromRender(Render(columns), 0, columns);
  }

  /** The other direction: whatever parses is the rendering of a non-empty column list, the one it yields. */
  lemma {:induction false} ColumnsFromIsRender(tokens: seq<Token>, i: nat)
    requires i <= |tokens| && ColumnsFrom(tokens, i).Ok?
    ensures tokens[i..] == Render(ColumnsFrom(tokens, i).value)
    decreases |tokens| - i
  {
    var column := ColumnDescription(tokens[i].text, tokens[i + 1].text);
    assert tokens[i] == Identifier(column.columnName) && tokens[i + 1] == Identifier(column.columnType);
    if i + 2 == |tokens| {
      assert tokens[i..] == [tokens[i], tokens[i + 1]];
    } else {
      ColumnsFromIsRender(tokens, i + 3);
      var more := ColumnsFrom(tokens, i + 3).value;
      assert ColumnsFrom(tokens, i).value == [column] + more;
      assert ([column] + more)[1..] == more;
      assert tokens[i..] == [tokens[i], tokens[i + 1], tokens[i + 2]] + tokens[i + 3..];
    }
  }

  /** A captured list parses exactly when it renders a non-empty column list. */
  lemma ParsesIffRender(tokens: seq<Token>, columns: seq<ColumnDescription>)
    ensures ParseColumns(tokens) == Ok(columns) <==> columns != [] && tokens == Render(columns)
  {
    if ParseColumns(tokens) == Ok(columns) {
      ColumnsFromIsRender(tokens, 0);
      assert tokens[0..] == tokens;
    }
    if columns != [] && tokens == Render(columns) {
      RenderParses(columns);
    }
  }

  /** An empty list, or a column list with a trailing comma, leaves the loop and fails with "Unexpected parsing error". */
  lemma TrailingCommaFails(columns: seq<ColumnDescription>)
    ensures ParseColumns([]) == Err(Generic(UnexpectedParsingError))
    ensures columns != [] ==> ParseColumns(Render(columns) + [Comma]) == Err(Generic(UnexpectedParsingError))
  {
    if columns != [] {
      TrailingCommaFrom(Render(columns) + [Comma], 0, columns);
    }
  }

  lemma {:induction false} TrailingCommaFrom(tokens: seq<Token>, i: nat, columns: seq<ColumnDescription>)
    requires columns != [] && i <= |tokens| && tokens[i..] == Render(columns) + [Comma]
    ensures ColumnsFrom(tokens, i) == Err(Generic(UnexpectedParsingError))
    decreases |columns|
  {
    if |columns| == 1 {
      assert columns == [columns[0]];
      RenderedOne(columns[0], [Comma]);
      assert tokens[i] == tokens[i..][0] && tokens[i + 1] == tokens[i..][1] && tokens[i + 2..] == tokens[i..][2..];
    } else {
      assert columns == [columns[0]] + columns[1..];
      RenderedMore(columns[0], columns[1..], [Comma]);
      assert tokens[i] == tokens[i..][0] && tokens[i + 1] == tokens[i..][1] && tokens[i + 2] == tokens[i..][2];
      assert tokens[i + 3..] == tokens[i..][3..];
      TrailingCommaFrom(tokens, i + 3, columns[1..]);
    }
  }

  /** A one-column rendering, then a suffix: the pair, then the suffix. */
  lemma RenderedOne(c: ColumnDescription, suffix: seq<Token>)
    ensures var s := Render([c]) + suffix;
      && |s| >= 2 && s[0] == Identifier(c.columnName) && s[1] == Identifier(c.columnType) && s[2..] == suffix
  {
    HeadThenRest([Identifier(c.columnName), Identifier(c.columnType)], suffix);
  }

  /** A rendering of several columns, then a suffix: the first pair, a comma, then the rest and the suffix. */
  lemma RenderedMore(c: ColumnDescription, more: seq<ColumnDescription>, suffix: seq<Token>)
    requires more != []
    ensures var s := Render([c] + more) + suffix;
      && |s| >= 3 && s[0] == Identifier(c.columnName) && s[1] == Identifier(c.columnType) && s[2] == Comma
      && s[3..] == Render(more) + suffix
  {
    var head := [Identifier(c.columnName), Identifier(c.columnType), Comma];
    assert ([c] + more)[1..] == more;
    assert Render([c] + more) + suffix == head + (Render(more) + suffix);
    HeadThenRest(head, Render(more) + suffix);
  }

  lemma HeadThenRest(head: seq<Token>, rest: seq<Token>)
    ensures |head + rest| == |head| + |rest| && (head + rest)[|head|..] == rest
    ensures forall k :: 0 <= k < |head| ==> (head + rest)[k] == head[k]
  {
  }

  /**
   * A pair that would start on the last item, as in `(a)` or `(a b, c)`, reads past the end of
   * the list: the failure is the out-of-bounds index, never a success.
   */
  lemma DanglingItemIsOutOfBounds(columns: seq<ColumnDescription>, last: Token)
    ensures ParseColumns([last]) == Err(IndexOutOfBounds(1, 1))
    ensures columns != [] ==>
      var tokens := Render(columns) + [Comma, last];
      ParseColumns(tokens) == Err(IndexOutOfBounds(|tokens|, |tokens|))
  {
    if columns != [] {
      DanglingFrom(Render(columns) + [Comma, last], 0, columns, last);
    }
  }

  lemma {:induction false} DanglingFrom(tokens: seq<Token>, i: nat, columns: seq<ColumnDescription>, last: Token)
    requires columns != [] && i <= |tokens| && tokens[i..] == Render(columns) + [Comma, last]
    ensures ColumnsFrom(tokens, i) == Err(IndexOutOfBounds(|tokens|, |tokens|))
    decreases |columns|
  {
    if |columns| == 1 {
      assert columns == [columns[0]];
      RenderedOne(columns[0], [Comma, last]);
      assert tokens[i] == tokens[i..][0] && tokens[i + 1] == tokens[i..][1] && tokens[i + 2..] == tokens[i..][2..];
    } else {
      assert columns == [columns[0]] + columns[1..];
      RenderedMore(columns[0], columns[1..], [Comma, last]);
      assert tokens[i] == tokens[i..][0] && tokens[i + 1] == tokens[i..][1] && tokens[i + 2] == tokens[i..][2];
      assert tokens[i + 3..] == tokens[i..][3..];
      DanglingFrom(tokens, i + 3, columns[1..], last);
    }
  }

  /** A pair position holding something other than an identifier fails with "Bad table description provided". */
  lemma NonIdentifierInPair(first: Token, second: Token, rest: seq<Token>)
    requires !first.Identifier? || !second.Identifier?
    ensures ParseColumns([first, second] + rest) == Err(Generic(BadTableDescription))
  {
  }

  /** Anything but a comma after a pair, and before the end, fails with "Unexpected item where , or nothing was expected". */
  lemma NonCommaAfterPair(name: string, kind: string, next: Token, rest: seq<Token>)
    requires next != Comma
    ensures ParseColumns([Identifier(name), Identifier(kind), next] + rest) == Err(Generic(UnexpectedItem))
  {
  }

  // ---------------------------------------------------------------------------
  // execute
  // ---------------------------------------------------------------------------

  /**
   * `execute` on the store's map: the name and the column list are resolved first, and their
   * errors leave the store as it was; then `create_table`, whose error is passed on unchanged.
   */
  function CreateRun(data: map<string, Token>, tables: map<string, TableContents>): (r: (Result<(), DbErr>, map<string, TableContents>))
    ensures GetTableName(data).Err? ==> r == (Err(GetTableName(data).error), tables)
    ensures GetTableName(data).Ok? && TableDescription(data).Err? ==> r == (Err(TableDescription(data).error), tables)
    ensures GetTableName(data).Ok? && TableDescription(data).Ok? ==>
      var created := CreateIn(tables, GetTableName(data).value, TableDescription(data).value);
      r.1 == created.1 && (r.0.Ok? <==> created.0.Ok?) && (r.0.Err? ==> r.0.error == created.0.error)
  {
    match GetTableName(data)
    case Err(e) => (Err(e), tables)
    case Ok(name) =>
      match TableDescription(data)
      case Err(e) => (Err(e), tables)
      case Ok(columns) =>
        var (result, after) := CreateIn(tables, name, columns);
        (if result.Ok? then Ok(()) else Err(result.error), after)
  }

  /** `CreateTableQuery::execute`: exactly the change `CreateRun` describes. */
  method ExecuteCreate(data: map<string, Token>, database: Database) returns (r: Result<(), DbErr>)
    modifies database
    ensures (r, database.Contents()) == CreateRun(data, old(database.Contents()))
  {
    var tableName := GetTableName(data);
    if tableName.Err? {
      return Err(tableName.error);
    }
    var tableDescription := GetTableDescription(data);
    if tableDescription.Err? {
      return Err(tableDescription.error);
    }
    var created := database.CreateTable(tableName.value, tableDescription.value);
    match created
    case Ok(_) => r := Ok(());
    case Err(e) => r := Err(e);
  }
}
