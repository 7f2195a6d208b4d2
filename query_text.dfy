/**
 * The text of the two statements the registry knows, written the way the examples in
 * src/queries/query_parser.rs and src/queries/create_table_query.rs write them, and what the
 * standard lexer makes of it.
 */
module QueryText {
  import opened Wrappers
  import opened Text
  import opened Tokens
  import opened IdentifierParsing
  import opened Tokenizer
  import TableStore
  import opened CreateTableQueries

  /** A word the lexer reads as an identifier, not a keyword. */
  predicate PlainName(w: string) {
    IsIdentifier(w) && ToLower(w) !in Keywords()
  }

  lemma PlainNameLexeme(w: string)
    requires PlainName(w)
    ensures IsLexeme(w) && IsIdentifier(w) && LexemeToken(w) == Identifier(w)
  {
  }

  /** A word no keyword can be, by its length or by its first letter. */
  lemma PlainByShape(w: string)
    requires IsIdentifier(w)
    requires |w| < 5 || |w| > 6 || (ToLowerChar(w[0]) != 'c' && ToLowerChar(w[0]) != 't' && ToLowerChar(w[0]) != 'd')
    ensures PlainName(w)
  {
    assert ToLower(w)[0] == ToLowerChar(w[0]);
  }

  predicate PlainColumns(columns: seq<TableStore.ColumnDescription>) {
    forall i :: 0 <= i < |columns| ==> PlainName(columns[i].columnName) && PlainName(columns[i].columnType)
  }

  /** A column list as text: `name type, name type, …`. */
  function ColumnText(columns: seq<TableStore.ColumnDescription>): string {
    if columns == [] then ""
    else if |columns| == 1 then columns[0].columnName + " " + columns[0].columnType
    else columns[0].columnName + " " + columns[0].columnType + ", " + ColumnText(columns[1..])
  }

  /** `CREATE TABLE name (columns);` */
  function CreateText(name: string, columns: seq<TableStore.ColumnDescription>): string {
    "CREATE TABLE " + name + " (" + ColumnText(columns) + ");"
  }

  /** `DELETE TABLE name` */
  function DeleteText(name: string): string {
    "DELETE TABLE " + name
  }

  function ColumnLexemes(columns: seq<TableStore.ColumnDescription>): seq<string> {
    if columns == [] then []
    else if |columns| == 1 then [columns[0].columnName, columns[0].columnType]
    else [columns[0].columnName, columns[0].columnType, ","] + ColumnLexemes(columns[1..])
  }

  function ColumnGaps(columns: seq<TableStore.ColumnDescription>): seq<string> {
    if columns == [] then []
    else if |columns| == 1 then [" ", ""]
    else [" ", "", " "] + ColumnGaps(columns[1..])
  }

  /** Column text is the column lexemes with their gaps; they lex to the rendered column list. */
  lemma {:induction false} ColumnLexing(columns: seq<TableStore.ColumnDescription>)
    requires PlainColumns(columns)
    ensures WellSeparated(ColumnLexemes(columns), ColumnGaps(columns))
    ensures Join(ColumnLexemes(columns), ColumnGaps(columns)) == ColumnText(columns)
    ensures LexemeTokens(ColumnLexemes(columns)) == Render(columns)
  {
    if columns != [] {
      var c := columns[0];
      assert PlainName(c.columnName) && PlainName(c.columnType);
      PlainNameLexeme(c.columnName);
      PlainNameLexeme(c.columnType);
      Punctuation();
      if |columns| == 1 {
        var lexemes := [c.columnName, c.columnType];
        assert Join(lexemes, [" ", ""]) == c.columnName + " " + (c.columnType + "" + []) by {
          assert Join(lexemes[2..], [" ", ""][2..]) == [];
        }
        assert c.columnType + "" + [] == c.columnType;
        assert LexemeTokens(lexemes) == [Identifier(c.columnName), Identifier(c.columnType)];
      } else {
        assert PlainColumns(columns[1..]) by {
          assert forall i :: 0 <= i < |columns| - 1 ==> columns[1..][i] == columns[i + 1];
        }
        ColumnLexing(columns[1..]);
        ColumnPairLexing(c, columns[1..]);
      }
    }
  }

  lemma ColumnPairLexing(c: TableStore.ColumnDescription, more: seq<TableStore.ColumnDescription>)
    requires PlainName(c.columnName) && PlainName(c.columnType) && more != []
    requires WellSeparated(ColumnLexemes(more), ColumnGaps(more))
    requires Join(ColumnLexemes(more), ColumnGaps(more)) == ColumnText(more)
    requires LexemeTokens(ColumnLexemes(more)) == Render(more)
    ensures var columns := [c] + more;
      && WellSeparated(ColumnLexemes(columns), ColumnGaps(columns))
      && Join(ColumnLexemes(columns), ColumnGaps(columns)) == ColumnText(columns)
      && LexemeTokens(ColumnLexemes(columns)) == Render(columns)
  {
    var columns := [c] + more;
    assert columns[0] == c && columns[1..] == more;
    var head, headGaps := [c.columnName, c.columnType, ","], [" ", "", " "];
    ColumnHead(c);
    WellSeparatedAppend(head, headGaps, ColumnLexemes(more), ColumnGaps(more));
    JoinAppend(head, headGaps, ColumnLexemes(more), ColumnGaps(more));
    LexemeTokensAppend(head, ColumnLexemes(more));
  }

  /** A column followed by a comma, as lexemes: `name type,`. */
  lemma ColumnHead(c: TableStore.ColumnDescription)
    requires PlainName(c.columnName) && PlainName(c.columnType)
    ensures WellSeparated([c.columnName, c.columnType, ","], [" ", "", " "])
    ensures Join([c.columnName, c.columnType, ","], [" ", "", " "]) == c.columnName + " " + c.columnType + ", "
    ensures LexemeTokens([c.columnName, c.columnType, ","]) == [Identifier(c.columnName), Identifier(c.columnType), Comma]
  {
    var head, headGaps := [c.columnName, c.columnType, ","], [" ", "", " "];
    PlainNameLexeme(c.columnName);
    PlainNameLexeme(c.columnType);
    Punctuation();
    assert Join(head, headGaps) == c.columnName + " " + c.columnType + ", " by {
      assert Join(head[3..], headGaps[3..]) == [];
      assert Join(head[2..], headGaps[2..]) == ", ";
    }
  }

  /**
   * Text that starts `CREATE TABLE name (` with a plain name and goes on with well-separated
   * lexemes lexes to Create, Table, the name, `(` and the tokens of those lexemes.
   */
  lemma LexCreateHead(name: string, body: seq<string>, bodyGaps: seq<string>)
    requires PlainName(name) && WellSeparated(body, bodyGaps)
    ensures Lex(StandardParsers(), "CREATE TABLE " + name + " (" + Join(body, bodyGaps)) ==
      Ok([Create, Table, Identifier(name), OpenBracket] + LexemeTokens(body))
  {
    var head, headGaps := ["CREATE", "TABLE", name, "("], [" ", " ", " ", ""];
    CreateHead(name);
    Punctuation();
    WellSeparatedAppend(head, headGaps, body, bodyGaps);
    JoinAppend(head, headGaps, body, bodyGaps);
    LexemeTokensAppend(head, body);
    LexWritten("CREATE TABLE " + name + " (" + Join(body, bodyGaps), head + body, headGaps + bodyGaps,
      [Create, Table, Identifier(name), OpenBracket] + LexemeTokens(body));
  }

  /** A CREATE statement with plain names lexes to the tokens of its parts, columns rendered as pairs and commas. */
  lemma LexCreateText(name: string, columns: seq<TableStore.ColumnDescription>)
    requires PlainName(name) && PlainColumns(columns)
    ensures Lex(StandardParsers(), CreateText(name, columns)) == Ok([Create, Table, Identifier(name), OpenBracket] + Render(columns) + [CloseBracket, SemiColon])
  {
    var tail, tailGaps := [")", ";"], ["", ""];
    var body, bodyGaps := ColumnLexemes(columns), ColumnGaps(columns);
    ColumnLexing(columns);
    TailLexing();
    WellSeparatedAppend(body, bodyGaps, tail, tailGaps);
    JoinAppend(body, bodyGaps, tail, tailGaps);
    LexemeTokensAppend(body, tail);
    assert Join(body + tail, bodyGaps + tailGaps) == ColumnText(columns) + ");";
    assert CreateText(name, columns) == "CREATE TABLE " + name + " (" + Join(body + tail, bodyGaps + tailGaps);
    assert LexemeTokens(body + tail) == Render(columns) + [CloseBracket, SemiColon];
    LexCreateHead(name, body + tail, bodyGaps + tailGaps);
    assert [Create, Table, Identifier(name), OpenBracket] + (Render(columns) + [CloseBracket, SemiColon])
      == [Create, Table, Identifier(name), OpenBracket] + Render(columns) + [CloseBracket, SemiColon];
  }

  lemma CreateHead(name: string)
    requires PlainName(name)
    ensures WellSeparated(["CREATE", "TABLE", name, "("], [" ", " ", " ", ""])
    ensures Join(["CREATE", "TABLE", name, "("], [" ", " ", " ", ""]) == "CREATE TABLE " + name + " ("
    ensures LexemeTokens(["CREATE", "TABLE", name, "("]) == [Create, Table, Identifier(name), OpenBracket]
  {
    CreateHeadLexemes(name);
    CreateHeadJoin(name);
  }

  lemma CreateHeadLexemes(name: string)
    requires PlainName(name)
    ensures WellSeparated(["CREATE", "TABLE", name, "("], [" ", " ", " ", ""])
    ensures LexemeTokens(["CREATE", "TABLE", name, "("]) == [Create, Table, Identifier(name), OpenBracket]
  {
    UpperCreateLexeme();
    UpperTableLexeme();
    PlainNameLexeme(name);
    Punctuation();
  }

  lemma CreateHeadJoin(name: string)
    ensures Join(["CREATE", "TABLE", name, "("], [" ", " ", " ", ""]) == "CREATE TABLE " + name + " ("
  {
    var head, headGaps := ["CREATE", "TABLE", name, "("], [" ", " ", " ", ""];
    assert Join(head[2..], headGaps[2..]) == name + " (" by {
      assert Join(head[4..], headGaps[4..]) == [];
      assert Join(head[3..], headGaps[3..]) == "(";
    }
  }

  lemma TailLexing()
    ensures WellSeparated([")", ";"], ["", ""])
    ensures Join([")", ";"], ["", ""]) == ");"
    ensures LexemeTokens([")", ";"]) == [CloseBracket, SemiColon]
  {
    Punctuation();
    assert Join([")", ";"][1..], ["", ""][1..]) == ";" by {
      assert Join([")", ";"][2..], ["", ""][2..]) == [];
    }
  }

  /** A DELETE statement with a plain name lexes to Delete, Table and the name. */
  lemma LexDeleteText(name: string)
    requires PlainName(name)
    ensures Lex(StandardParsers(), DeleteText(name)) == Ok([Delete, Table, Identifier(name)])
  {
    DeleteLexemes(name);
    DeleteJoin(name);
    LexWritten(DeleteText(name), ["DELETE", "TABLE", name], [" ", " ", ""], [Delete, Table, Identifier(name)]);
  }

  /** The same statement followed by `;` lexes to the same tokens and a `SemiColon`. */
  lemma LexDeleteTerminated(name: string)
    requires PlainName(name)
    ensures Lex(StandardParsers(), DeleteText(name) + ";") == Ok([Delete, Table, Identifier(name), SemiColon])
  {
    var lexemes, gaps := ["DELETE", "TABLE", name], [" ", " ", ""];
    DeleteLexemes(name);
    DeleteJoin(name);
    SemiColonLexeme();
    WellSeparatedAppend(lexemes, gaps, [";"], [""]);
    JoinAppend(lexemes, gaps, [";"], [""]);
    LexemeTokensAppend(lexemes, [";"]);
    LexWritten(DeleteText(name) + ";", lexemes + [";"], gaps + [""], [Delete, Table, Identifier(name), SemiColon]);
  }

  lemma SemiColonLexeme()
    ensures WellSeparated([";"], [""])
    ensures Join([";"], [""]) == ";"
    ensures LexemeTokens([";"]) == [SemiColon]
  {
    Punctuation();
    assert Join([";"][1..], [""][1..]) == [];
  }

  lemma DeleteLexemes(name: string)
    requires PlainName(name)
    ensures WellSeparated(["DELETE", "TABLE", name], [" ", " ", ""])
    ensures LexemeTokens(["DELETE", "TABLE", name]) == [Delete, Table, Identifier(name)]
  {
    UpperDeleteLexeme();
    UpperTableLexeme();
    PlainNameLexeme(name);
  }

  lemma DeleteJoin(name: string)
    ensures Join(["DELETE", "TABLE", name], [" ", " ", ""]) == DeleteText(name)
  {
    var lexemes, gaps := ["DELETE", "TABLE", name], [" ", " ", ""];
    assert Join(lexemes[3..], gaps[3..]) == [];
    assert Join(lexemes[2..], gaps[2..]) == name;
    assert Join(lexemes[1..], gaps[1..]) == "TABLE " + name;
  }
}
