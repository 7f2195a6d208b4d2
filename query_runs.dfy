/**
 * What `execute_query` of src/queries/query_parser.rs does with whole statements: the registry's
 * choice on any token list, and the effect on the store of a CREATE or DELETE statement written
 * in the usual way.
 */
module QueryRuns {
  import opened Wrappers
  import opened Tokens
  import opened Errors
  import opened Tokenizer
  import opened ParseStepsMatching
  import TableStore
  import opened Queries
  import opened QueryBuilders
  import opened QueryParsing
  import opened CreateTableQueries
  import opened QueryText

  /**
   * The registry on a token list: the CREATE query when its grammar matches, the DELETE query
   * when that one does (never both); when neither does, the error of the grammar that got
   * further, CREATE winning ties, and "Unknown error" when both failed on the first token.
   */
  lemma RegistryPlan(tokens: seq<Token>)
    ensures var create, delete := Match(CreateGrammar().steps, tokens), Match(DeleteGrammar().steps, tokens);
      && (create.Ok? ==> PlanTokens(GetBuilders(), tokens) == Ok([CreateTableQuery(create.value)]))
      && (delete.Ok? ==> PlanTokens(GetBuilders(), tokens) == Ok([DeleteTableQuery(delete.value)]))
      && (create.Err? && delete.Err? ==>
            PlanTokens(GetBuilders(), tokens) == Err(
              if delete.error.1 > create.error.1 then delete.error.0
              else if create.error.1 > 0 then create.error.0
              else Generic(UnknownError)))
  {
    GrammarsExclusive(tokens);
    var builders := GetBuilders();
    assert Outcome(builders[0], tokens) == Match(CreateGrammar().steps, tokens);
    assert Outcome(builders[1], tokens) == Match(DeleteGrammar().steps, tokens);
    var first := Consider(PlanState([], 0, Generic(UnknownError)), builders[0], tokens);
    assert Fold(builders[..1], tokens) == first by {
      assert builders[..1][..0] == [];
    }
    assert Fold(builders, tokens) == Consider(first, builders[1], tokens) by {
      assert builders[..1] == builders[..|builders| - 1];
    }
    var create, delete := Match(CreateGrammar().steps, tokens), Match(DeleteGrammar().steps, tokens);
    if create.Ok? {
      assert first.plan == [] + [CreateTableQuery(create.value)] == [CreateTableQuery(create.value)];
    } else if delete.Ok? {
      assert first.plan == [];
      assert [] + [DeleteTableQuery(delete.value)] == [DeleteTableQuery(delete.value)];
    }
  }

  /**
   * Every plan the registry makes holds exactly one query, so a statement runs as that one query:
   * its error, or "Done", with the store as that query left it.
   */
  lemma OneQueryPerStatement(query: string, tables: map<string, TableStore.TableContents>)
    ensures PlanQuery(query).Ok? ==> |PlanQuery(query).value| == 1
    ensures PlanQuery(query).Ok? ==>
      var (result, after) := Run(PlanQuery(query).value[0], tables);
      ExecuteSpec(query, tables) == (if result.Err? then Err(result.error) else Ok(Done), after)
  {
    if PlanQuery(query).Ok? {
      RegistryPlan(Lex(StandardParsers(), query).value);
      var plan := PlanQuery(query).value;
      assert plan == [plan[0]];
      RunPlanSingle(plan[0], tables);
    }
  }

  /** Text that lexes to no statement of the registry: "Not done yet", and the store as it was. */
  lemma UnmatchedText(text: string, tables: map<string, TableStore.TableContents>)
    requires Lex(StandardParsers(), text).Ok?
    requires Match(CreateGrammar().steps, Lex(StandardParsers(), text).value).Err?
    requires Match(DeleteGrammar().steps, Lex(StandardParsers(), text).value).Err?
    ensures ExecuteSpec(text, tables) == (Err(Generic(NotDoneYet)), tables)
  {
    RegistryPlan(Lex(StandardParsers(), text).value);
  }

  /** Text lexing to `Create Table name ( items ) ;`, the items free of `)`, plans to the one CREATE query with those bindings. */
  lemma PlanOfCreateTokens(text: string, name: string, items: seq<Token>)
    requires Lex(StandardParsers(), text) == Ok([Create, Table, Identifier(name), OpenBracket] + items + [CloseBracket, SemiColon])
    requires forall i :: 0 <= i < |items| ==> items[i] != CloseBracket
    ensures PlanQuery(text) == Ok([CreateTableQuery(map["Name" := Identifier(name), "TableDescription" := List(items)])])
  {
    var tokens := [Create, Table, Identifier(name), OpenBracket] + items + [CloseBracket, SemiColon];
    CreateGrammarMatches(name, items, []);
    assert tokens + [] == tokens;
    RegistryPlan(tokens);
  }

  /** Running the CREATE query of a name and a captured list: the list's parse error, or the store's `create_table` on the parsed columns. */
  lemma RunCreateQuery(name: string, items: seq<Token>, tables: map<string, TableStore.TableContents>)
    ensures RunPlan([CreateTableQuery(map["Name" := Identifier(name), "TableDescription" := List(items)])], tables) ==
      if ParseColumns(items).Err? then (Err(ParseColumns(items).error), tables)
      else if name in tables then (Err(TableAlreadyExists), tables)
      else (Ok(Done), tables[name := TableStore.TableContents(ParseColumns(items).value, [])])
  {
    var data := map["Name" := Identifier(name), "TableDescription" := List(items)];
    assert GetTableName(data) == Ok(name);
    assert [CreateTableQuery(data)][1..] == [];
  }

  /**
   * Text lexing to `Create Table name ( items ) ;`, the items free of `)`: the column list's
   * parse error with the store unchanged, `TableAlreadyExists` on a taken name, else "Done"
   * and the new table with the parsed columns.
   */
  lemma ExecuteCreateTokens(text: string, name: string, items: seq<Token>, tables: map<string, TableStore.TableContents>)
    requires Lex(StandardParsers(), text) == Ok([Create, Table, Identifier(name), OpenBracket] + items + [CloseBracket, SemiColon])
    requires forall i :: 0 <= i < |items| ==> items[i] != CloseBracket
    ensures ExecuteSpec(text, tables) ==
      if ParseColumns(items).Err? then (Err(ParseColumns(items).error), tables)
      else if name in tables then (Err(TableAlreadyExists), tables)
      else (Ok(Done), tables[name := TableStore.TableContents(ParseColumns(items).value, [])])
  {
    PlanOfCreateTokens(text, name, items);
    RunCreateQuery(name, items, tables);
  }

  /**
   * `CREATE TABLE name (` followed by well-separated lexemes whose tokens are a list free of `)`,
   * then `)` and `;`: the list's parse error with the store unchanged, `TableAlreadyExists` on a
   * taken name, else "Done" and the new table with the parsed columns.
   */
  lemma ExecuteCreateWritten(name: string, body: seq<string>, gaps: seq<string>, items: seq<Token>, tables: map<string, TableStore.TableContents>)
    requires PlainName(name) && WellSeparated(body, gaps)
    requires LexemeTokens(body) == items + [CloseBracket, SemiColon]
    requires forall i :: 0 <= i < |items| ==> items[i] != CloseBracket
    ensures ExecuteSpec("CREATE TABLE " + name + " (" + Join(body, gaps), tables) ==
      if ParseColumns(items).Err? then (Err(ParseColumns(items).error), tables)
      else if name in tables then (Err(TableAlreadyExists), tables)
      else (Ok(Done), tables[name := TableStore.TableContents(ParseColumns(items).value, [])])
  {
    LexCreateHead(name, body, gaps);
    var head := [Create, Table, Identifier(name), OpenBracket];
    assert head + (items + [CloseBracket, SemiColon]) == head + items + [CloseBracket, SemiColon];
    ExecuteCreateTokens("CREATE TABLE " + name + " (" + Join(body, gaps), name, items, tables);
  }

  /** `CREATE TABLE name (` followed by well-separated lexemes whose tokens the CREATE grammar rejects: "Not done yet", and no change. */
  lemma ExecuteUnmatchedWritten(name: string, body: seq<string>, gaps: seq<string>, tables: map<string, TableStore.TableContents>)
    requires PlainName(name) && WellSeparated(body, gaps)
    requires Match(CreateGrammar().steps, [Create, Table, Identifier(name), OpenBracket] + LexemeTokens(body)).Err?
    ensures ExecuteSpec("CREATE TABLE " + name + " (" + Join(body, gaps), tables) == (Err(Generic(NotDoneYet)), tables)
  {
    LexCreateHead(name, body, gaps);
    UnmatchedText("CREATE TABLE " + name + " (" + Join(body, gaps), tables);
  }

  /**
   * A CREATE statement with plain names: with no columns it fails with "Unexpected parsing
   * error", on a name already taken with `TableAlreadyExists`, both leaving the store as it was;
   * otherwise it answers "Done" and the store gains exactly that table, with those columns and
   * no rows.
   */
  lemma ExecuteCreateText(name: string, columns: seq<TableStore.ColumnDescription>, tables: map<string, TableStore.TableContents>)
    requires PlainName(name) && PlainColumns(columns)
    ensures ExecuteSpec(CreateText(name, columns), tables) ==
      if columns == [] then (Err(Generic(UnexpectedParsingError)), tables)
      else if name in tables then (Err(TableAlreadyExists), tables)
      else (Ok(Done), tables[name := TableStore.TableContents(columns, [])])
  {
    LexCreateText(name, columns);
    RenderedList(columns);
    ExecuteCreateTokens(CreateText(name, columns), name, Render(columns), tables);
  }

  /** A rendered column list holds no `)`, and parses back to its columns, or fails as an empty list when there are none. */
  lemma RenderedList(columns: seq<TableStore.ColumnDescription>)
    ensures forall i :: 0 <= i < |Render(columns)| ==> Render(columns)[i] != CloseBracket
    ensures ParseColumns(Render(columns)) == if columns == [] then Err(Generic(UnexpectedParsingError)) else Ok(columns)
  {
    RenderKinds(columns);
    if columns == [] {
      TrailingCommaFails(columns);
    } else {
      RenderParses(columns);
    }
  }

  /** A DELETE statement with a plain name plans to the one DELETE query, bound to that name. */
  lemma PlanOfDeleteText(name: string)
    requires PlainName(name)
    ensures PlanQuery(DeleteText(name)) == Ok([DeleteTableQuery(map["Name" := Identifier(name)])])
  {
    var tokens := [Delete, Table, Identifier(name)];
    LexDeleteText(name);
    DeleteGrammarMatches(name, []);
    assert tokens + [] == tokens;
    RegistryPlan(tokens);
  }

  /**
   * A DELETE statement with a plain name: "Done" and the table removed, every other one kept,
   * when the name is present; `TableNotExists` and no change when it is not.
   */
  lemma ExecuteDeleteText(name: string, tables: map<string, TableStore.TableContents>)
    requires PlainName(name)
    ensures ExecuteSpec(DeleteText(name), tables) ==
      if name in tables then (Ok(Done), tables - {name}) else (Err(TableNotExists), tables)
  {
    PlanOfDeleteText(name);
    RunDeleteQuery(name, tables);
  }

  /**
   * The DELETE grammar ignores what follows the name, so `DELETE TABLE name;` does the same as
   * `DELETE TABLE name`.
   */
  lemma ExecuteDeleteTerminated(name: string, tables: map<string, TableStore.TableContents>)
    requires PlainName(name)
    ensures ExecuteSpec(DeleteText(name) + ";", tables) ==
      if name in tables then (Ok(Done), tables - {name}) else (Err(TableNotExists), tables)
  {
    var tokens := [Delete, Table, Identifier(name), SemiColon];
    LexDeleteTerminated(name);
    DeleteGrammarMatches(name, [SemiColon]);
    assert [Delete, Table, Identifier(name)] + [SemiColon] == tokens;
    RegistryPlan(tokens);
    RunDeleteQuery(name, tables);
  }

  /** Running the DELETE query of a name: "Done" and the table removed when present, else `TableNotExists` and no change. */
  lemma RunDeleteQuery(name: string, tables: map<string, TableStore.TableContents>)
    ensures RunPlan([DeleteTableQuery(map["Name" := Identifier(name)])], tables) ==
      if name in tables then (Ok(Done), tables - {name}) else (Err(TableNotExists), tables)
  {
    var data := map["Name" := Identifier(name)];
    assert [DeleteTableQuery(data)][1..] == [];
  }

  /** A CREATE statement that succeeds, followed by the DELETE statement of the same name, gives back the store it started from. */
  lemma CreateThenDeleteText(name: string, columns: seq<TableStore.ColumnDescription>, tables: map<string, TableStore.TableContents>)
    requires PlainName(name) && PlainColumns(columns)
    requires columns != [] && name !in tables
    ensures ExecuteSpec(CreateText(name, columns), tables).0 == Ok(Done)
    ensures ExecuteSpec(DeleteText(name), ExecuteSpec(CreateText(name, columns), tables).1) == (Ok(Done), tables)
  {
    ExecuteCreateText(name, columns, tables);
    var after := tables[name := TableStore.TableContents(columns, [])];
    ExecuteDeleteText(name, after);
    RemoveAdded(tables, name, TableStore.TableContents(columns, []));
  }

  lemma RemoveAdded(tables: map<string, TableStore.TableContents>, name: string, table: TableStore.TableContents)
    requires name !in tables
    ensures tables[name := table] - {name} == tables
  {
    assert (tables[name := table] - {name}).Keys == tables.Keys;
  }

  /** Running the same successful CREATE statement twice fails the second time with `TableAlreadyExists` and keeps the first table. */
  lemma CreateTextTwice(name: string, columns: seq<TableStore.ColumnDescription>, tables: map<string, TableStore.TableContents>)
    requires PlainName(name) && PlainColumns(columns)
    requires columns != [] && name !in tables
    ensures var after := ExecuteSpec(CreateText(name, columns), tables).1;
      ExecuteSpec(CreateText(name, columns), after) == (Err(TableAlreadyExists), after)
  {
    ExecuteCreateText(name, columns, tables);
    ExecuteCreateText(name, columns, tables[name := TableStore.TableContents(columns, [])]);
  }
}
