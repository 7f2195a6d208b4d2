/**
 * The statements the unit tests of src/queries/query_parser.rs and
 * src/queries/create_table_query.rs run, and what `execute_query` makes of them.
 */
module QueryExamples {
  import opened Wrappers
  import opened Tokens
  import opened Errors
  import opened IdentifierParsing
  import opened Tokenizer
  import opened CreateTableQueries
  import opened ParseStepsMatching
  import opened QueryBuilders
  import TableStore
  import opened QueryParsing
  import opened QueryText
  import opened QueryRuns

  function Column(name: string, kind: string): TableStore.ColumnDescription {
    TableStore.ColumnDescription(name, kind)
  }

  /** `CREATE TABLE apple (age INTEGER);` on an empty store creates "apple" with the one column age INTEGER. */
  lemma CreateApple()
    ensures ExecuteSpec("CREATE TABLE apple (age INTEGER);", map[]) ==
      (Ok(Done), map["apple" := TableStore.TableContents([Column("age", "INTEGER")], [])])
  {
    var columns := [Column("age", "INTEGER")];
    PlainByShape("apple");
    PlainByShape("age");
    PlainByShape("INTEGER");
    assert CreateText("apple", columns) == "CREATE TABLE apple (age INTEGER);";
    ExecuteCreateText("apple", columns, map[]);
  }

  /** `CREATE TABLE apple (name STRING, age INTEGER);` creates "apple" with both columns, in the order written. */
  lemma CreateAppleTwoColumns()
    ensures ExecuteSpec("CREATE TABLE apple (name STRING, age INTEGER);", map[]) ==
      (Ok(Done), map["apple" := TableStore.TableContents([Column("name", "STRING"), Column("age", "INTEGER")], [])])
  {
    AppleTwoColumnsText();
    AppleTwoColumnsRun();
  }

  lemma AppleTwoColumnsText()
    ensures CreateText("apple", [Column("name", "STRING"), Column("age", "INTEGER")]) == "CREATE TABLE apple (name STRING, age INTEGER);"
  {
    TwoColumnText("name", "STRING", "age", "INTEGER");
  }

  lemma AppleTwoColumnsRun()
    ensures ExecuteSpec(CreateText("apple", [Column("name", "STRING"), Column("age", "INTEGER")]), map[]) ==
      (Ok(Done), map["apple" := TableStore.TableContents([Column("name", "STRING"), Column("age", "INTEGER")], [])])
  {
    PlainByShape("apple");
    PlainPairs("name", "STRING", "age", "INTEGER");
    ExecuteCreateText("apple", [Column("name", "STRING"), Column("age", "INTEGER")], map[]);
  }

  /** `CREATE TABLE users (name string, age i32);` creates "users" with the columns name string and age i32. */
  lemma CreateUsers()
    ensures ExecuteSpec("CREATE TABLE users (name string, age i32);", map[]) ==
      (Ok(Done), map["users" := TableStore.TableContents([Column("name", "string"), Column("age", "i32")], [])])
  {
    UsersText();
    UsersRun();
  }

  lemma UsersText()
    ensures CreateText("users", [Column("name", "string"), Column("age", "i32")]) == "CREATE TABLE users (name string, age i32);"
  {
    TwoColumnText("name", "string", "age", "i32");
  }

  lemma UsersRun()
    ensures ExecuteSpec(CreateText("users", [Column("name", "string"), Column("age", "i32")]), map[]) ==
      (Ok(Done), map["users" := TableStore.TableContents([Column("name", "string"), Column("age", "i32")], [])])
  {
    PlainByShape("users");
    PlainPairs("name", "string", "age", "i32");
    ExecuteCreateText("users", [Column("name", "string"), Column("age", "i32")], map[]);
  }

  lemma PlainPairs(name1: string, kind1: string, name2: string, kind2: string)
    requires IsIdentifier(name1) && |name1| < 5
    requires IsIdentifier(kind1) && (|kind1| > 6 || (|kind1| == 6 && (kind1[0] == 's' || kind1[0] == 'S')))
    requires IsIdentifier(name2) && |name2| < 5
    requires IsIdentifier(kind2) && (|kind2| < 5 || |kind2| > 6)
    ensures PlainColumns([Column(name1, kind1), Column(name2, kind2)])
  {
    PlainByShape(name1);
    PlainByShape(kind1);
    PlainByShape(name2);
    PlainByShape(kind2);
  }

  lemma TwoColumnText(name1: string, kind1: string, name2: string, kind2: string)
    ensures ColumnText([Column(name1, kind1), Column(name2, kind2)]) == name1 + " " + kind1 + ", " + name2 + " " + kind2
  {
    var columns := [Column(name1, kind1), Column(name2, kind2)];
    assert columns[1..] == [Column(name2, kind2)];
  }

  /** Running `CREATE TABLE users (name string);` twice: "Done", then `TableAlreadyExists` with the store unchanged. */
  lemma CreateUsersTwice()
    ensures var (first, after) := ExecuteSpec("CREATE TABLE users (name string);", map[]);
      && first == Ok(Done)
      && ExecuteSpec("CREATE TABLE users (name string);", after) == (Err(TableAlreadyExists), after)
  {
    var columns := [Column("name", "string")];
    PlainByShape("users");
    PlainByShape("name");
    PlainByShape("string");
    assert CreateText("users", columns) == "CREATE TABLE users (name string);";
    ExecuteCreateText("users", columns, map[]);
    CreateTextTwice("users", columns, map[]);
  }

  /** `CREATE TABLE apple ();` fails with "Unexpected parsing error" and creates nothing. */
  lemma CreateWithoutColumns(tables: map<string, TableStore.TableContents>)
    ensures ExecuteSpec("CREATE TABLE apple ();", tables) == (Err(Generic(UnexpectedParsingError)), tables)
  {
    PlainByShape("apple");
    assert CreateText("apple", []) == "CREATE TABLE apple ();";
    ExecuteCreateText("apple", [], tables);
  }

  /** `DELETE TABLE apple` after `create_table("apple", [])` answers "Done" and leaves the store empty. */
  lemma DeleteApple()
    ensures var tables := TableStore.CreateIn(map[], "apple", []).1;
      ExecuteSpec("DELETE TABLE apple", tables) == (Ok(Done), map[])
  {
    var tables := TableStore.CreateIn(map[], "apple", []).1;
    PlainByShape("apple");
    assert DeleteText("apple") == "DELETE TABLE apple";
    ExecuteDeleteText("apple", tables);
    assert tables - {"apple"} == map[];
  }

  /** `DELETE TABLE users;` on an empty store: the trailing `;` is ignored and the answer is `TableNotExists`. */
  lemma DeleteMissingUsers()
    ensures ExecuteSpec("DELETE TABLE users;", map[]) == (Err(TableNotExists), map[])
  {
    PlainByShape("users");
    ExecuteDeleteTerminated("users", map[]);
    DeleteUsersText();
  }

  lemma DeleteUsersText()
    ensures DeleteText("users") + ";" == "DELETE TABLE users;"
  {
    assert "DELETE TABLE " + "users" == "DELETE TABLE users";
  }

  // ---------------------------------------------------------------------------
  // Malformed column lists
  // ---------------------------------------------------------------------------

  // Each statement below is `CREATE TABLE apple (` followed by lexemes written with gaps:
  // one lemma gives the lexemes' tokens, one the text, and the third what `execute_query` answers.

  lemma UnclosedLexemes()
    ensures WellSeparated([";"], [""]) && LexemeTokens([";"]) == [SemiColon]
  {
    Punctuation();
  }

  lemma UnclosedText()
    ensures "CREATE TABLE " + "apple" + " (" + Join([";"], [""]) == "CREATE TABLE apple (;"
  {
    assert Join([";"][1..], [""][1..]) == [];
  }

  /** `CREATE TABLE apple (;`: the list is never closed, no grammar matches, "Not done yet". */
  lemma UnclosedListFails(tables: map<string, TableStore.TableContents>)
    ensures ExecuteSpec("CREATE TABLE apple (;", tables) == (Err(Generic(NotDoneYet)), tables)
  {
    PlainByShape("apple");
    UnclosedLexemes();
    CreateGrammarNeedsClose("apple", [SemiColon]);
    ExecuteUnmatchedWritten("apple", [";"], [""], tables);
    UnclosedText();
  }

  lemma ThreeWordsLexemes()
    ensures WellSeparated(["something", "one", "two", ")", ";"], [" ", " ", "", "", ""])
    ensures LexemeTokens(["something", "one", "two", ")", ";"]) ==
      [Identifier("something"), Identifier("one"), Identifier("two")] + [CloseBracket, SemiColon]
  {
    SomethingIsPlain();
    PlainWord("one");
    PlainWord("two");
    Punctuation();
  }

  lemma SomethingIsPlain()
    ensures IsLexeme("something") && IsIdentifier("something") && LexemeToken("something") == Identifier("something")
  {
    PlainWord("something");
  }

  lemma ThreeWordsText()
    ensures "CREATE TABLE " + "apple" + " (" + Join(["something", "one", "two", ")", ";"], [" ", " ", "", "", ""]) ==
      "CREATE TABLE apple (something one two);"
  {
    var l, g := ["something", "one", "two", ")", ";"], [" ", " ", "", "", ""];
    assert Join(l[5..], g[5..]) == [];
    assert Join(l[4..], g[4..]) == ";";
    assert Join(l[3..], g[3..]) == ");";
    assert Join(l[2..], g[2..]) == "two);";
    assert Join(l[1..], g[1..]) == "one two);";
  }

  /** `CREATE TABLE apple (something one two);`: the third word is not a comma, "Unexpected item", and nothing changes. */
  lemma ThreeWordsFail(tables: map<string, TableStore.TableContents>)
    ensures ExecuteSpec("CREATE TABLE apple (something one two);", tables) == (Err(Generic(UnexpectedItem)), tables)
  {
    var items := [Identifier("something"), Identifier("one"), Identifier("two")];
    PlainByShape("apple");
    ThreeWordsLexemes();
    NonCommaAfterPair("something", "one", Identifier("two"), []);
    assert items + [] == items;
    ExecuteCreateWritten("apple", ["something", "one", "two", ")", ";"], [" ", " ", "", "", ""], items, tables);
    ThreeWordsText();
  }

  lemma CommaFirstLexemes()
    ensures WellSeparated([",", "one", ",", "two", ")", ";"], [" ", "", " ", "", "", ""])
    ensures LexemeTokens([",", "one", ",", "two", ")", ";"]) ==
      [Comma, Identifier("one"), Comma, Identifier("two")] + [CloseBracket, SemiColon]
  {
    PlainWord("one");
    PlainWord("two");
    Punctuation();
  }

  lemma CommaFirstText()
    ensures "CREATE TABLE " + "apple" + " (" + Join([",", "one", ",", "two", ")", ";"], [" ", "", " ", "", "", ""]) ==
      "CREATE TABLE apple (, one, two);"
  {
    var l, g := [",", "one", ",", "two", ")", ";"], [" ", "", " ", "", "", ""];
    assert Join(l[6..], g[6..]) == [];
    assert Join(l[5..], g[5..]) == ";";
    assert Join(l[4..], g[4..]) == ");";
    assert Join(l[3..], g[3..]) == "two);";
    assert Join(l[2..], g[2..]) == ", two);";
    assert Join(l[1..], g[1..]) == "one, two);";
  }

  /** `CREATE TABLE apple (, one, two);`: the list starts with a comma, "Bad table description", and nothing changes. */
  lemma CommaFirstFails(tables: map<string, TableStore.TableContents>)
    ensures ExecuteSpec("CREATE TABLE apple (, one, two);", tables) == (Err(Generic(BadTableDescription)), tables)
  {
    var items := [Comma, Identifier("one"), Comma, Identifier("two")];
    PlainByShape("apple");
    CommaFirstLexemes();
    NonIdentifierInPair(Comma, Identifier("one"), [Comma, Identifier("two")]);
    ExecuteCreateWritten("apple", [",", "one", ",", "two", ")", ";"], [" ", "", " ", "", "", ""], items, tables);
    CommaFirstText();
  }

  lemma ExtraCloseLexemes()
    ensures WellSeparated([",", "one", ",", "two_", ")", ")", ";"], [" ", "", " ", "", "", "", ""])
    ensures LexemeTokens([",", "one", ",", "two_", ")", ")", ";"]) ==
      [Comma, Identifier("one"), Comma, Identifier("two_")] + [CloseBracket, CloseBracket] + [SemiColon]
  {
    PlainWord("one");
    PlainWord("two_");
    Punctuation();
  }

  lemma ExtraCloseText()
    ensures "CREATE TABLE " + "apple" + " (" + Join([",", "one", ",", "two_", ")", ")", ";"], [" ", "", " ", "", "", "", ""]) ==
      "CREATE TABLE apple (, one, two_));"
  {
    var l, g := [",", "one", ",", "two_", ")", ")", ";"], [" ", "", " ", "", "", "", ""];
    assert Join(l[7..], g[7..]) == [];
    assert Join(l[6..], g[6..]) == ";";
    assert Join(l[5..], g[5..]) == ");";
    assert Join(l[4..], g[4..]) == "));";
    assert Join(l[3..], g[3..]) == "two_));";
    assert Join(l[2..], g[2..]) == ", two_));";
    assert Join(l[1..], g[1..]) == "one, two_));";
  }

  /** `CREATE TABLE apple (, one, two_));`: a `)` follows the closed list instead of `;`, no grammar matches, "Not done yet". */
  lemma ExtraCloseFails(tables: map<string, TableStore.TableContents>)
    ensures ExecuteSpec("CREATE TABLE apple (, one, two_));", tables) == (Err(Generic(NotDoneYet)), tables)
  {
    var items := [Comma, Identifier("one"), Comma, Identifier("two_")];
    PlainByShape("apple");
    ExtraCloseLexemes();
    CreateGrammarNeedsSemiColon("apple", items, CloseBracket, [SemiColon]);
    Regrouped([Create, Table, Identifier("apple"), OpenBracket], items, [CloseBracket, CloseBracket], [SemiColon]);
    ExecuteUnmatchedWritten("apple", [",", "one", ",", "two_", ")", ")", ";"], [" ", "", " ", "", "", "", ""], tables);
    ExtraCloseText();
  }

  lemma PairExtraCloseLexemes()
    ensures WellSeparated(["one", "two", ")", ")", ";"], [" ", "", "", "", ""])
    ensures LexemeTokens(["one", "two", ")", ")", ";"]) ==
      [Identifier("one"), Identifier("two")] + [CloseBracket, CloseBracket] + [SemiColon]
  {
    PlainWord("one");
    PlainWord("two");
    Punctuation();
  }

  lemma PairExtraCloseText()
    ensures "CREATE TABLE " + "apple" + " (" + Join(["one", "two", ")", ")", ";"], [" ", "", "", "", ""]) ==
      "CREATE TABLE apple (one two));"
  {
    var l, g := ["one", "two", ")", ")", ";"], [" ", "", "", "", ""];
    assert Join(l[5..], g[5..]) == [];
    assert Join(l[4..], g[4..]) == ";";
    assert Join(l[3..], g[3..]) == ");";
    assert Join(l[2..], g[2..]) == "));";
    assert Join(l[1..], g[1..]) == "two));";
  }

  /** `CREATE TABLE apple (one two));`: a `)` follows the closed list instead of `;`, no grammar matches, "Not done yet". */
  lemma PairExtraCloseFails(tables: map<string, TableStore.TableContents>)
    ensures ExecuteSpec("CREATE TABLE apple (one two));", tables) == (Err(Generic(NotDoneYet)), tables)
  {
    var items := [Identifier("one"), Identifier("two")];
    PlainByShape("apple");
    PairExtraCloseLexemes();
    CreateGrammarNeedsSemiColon("apple", items, CloseBracket, [SemiColon]);
    Regrouped([Create, Table, Identifier("apple"), OpenBracket], items, [CloseBracket, CloseBracket], [SemiColon]);
    ExecuteUnmatchedWritten("apple", ["one", "two", ")", ")", ";"], [" ", "", "", "", ""], tables);
    PairExtraCloseText();
  }

  /** `CREATE TABLE name ((a b);` with plain words: the list starts with `(`, "Bad table description", and nothing changes. */
  lemma DoubleOpenShape(name: string, a: string, b: string, tables: map<string, TableStore.TableContents>)
    requires PlainName(name) && PlainName(a) && PlainName(b)
    ensures ExecuteSpec("CREATE TABLE " + name + " ((" + a + " " + b + ");", tables) == (Err(Generic(BadTableDescription)), tables)
  {
    var l, g := ["(", a, b, ")", ";"], ["", " ", "", "", ""];
    DoubleOpenLexemes(a, b);
    DoubleOpenJoin(name, a, b);
    NonIdentifierInPair(OpenBracket, Identifier(a), [Identifier(b)]);
    ExecuteCreateWritten(name, l, g, [OpenBracket, Identifier(a), Identifier(b)], tables);
  }

  lemma DoubleOpenLexemes(a: string, b: string)
    requires PlainName(a) && PlainName(b)
    ensures WellSeparated(["(", a, b, ")", ";"], ["", " ", "", "", ""])
    ensures LexemeTokens(["(", a, b, ")", ";"]) == [OpenBracket, Identifier(a), Identifier(b)] + [CloseBracket, SemiColon]
  {
    PlainNameLexeme(a);
    PlainNameLexeme(b);
    Punctuation();
  }

  lemma DoubleOpenJoin(name: string, a: string, b: string)
    ensures "CREATE TABLE " + name + " (" + Join(["(", a, b, ")", ";"], ["", " ", "", "", ""]) ==
      "CREATE TABLE " + name + " ((" + a + " " + b + ");"
  {
    var l, g := ["(", a, b, ")", ";"], ["", " ", "", "", ""];
    assert Join(l[5..], g[5..]) == [];
    assert Join(l[4..], g[4..]) == ";";
    assert Join(l[3..], g[3..]) == ");";
    assert Join(l[2..], g[2..]) == b + ");";
    assert Join(l[1..], g[1..]) == a + " " + b + ");";
  }

  /** `CREATE TABLE apple ((one two);`: the list starts with `(`, "Bad table description", and nothing changes. */
  lemma DoubleOpenFails(tables: map<string, TableStore.TableContents>)
    ensures ExecuteSpec("CREATE TABLE apple ((one two);", tables) == (Err(Generic(BadTableDescription)), tables)
  {
    PlainByShape("apple");
    PlainByShape("one");
    PlainByShape("two");
    DoubleOpenShape("apple", "one", "two", tables);
    DoubleOpenText();
  }

  lemma DoubleOpenText()
    ensures "CREATE TABLE " + "apple" + " ((" + "one" + " " + "two" + ");" == "CREATE TABLE apple ((one two);"
  {
    assert "CREATE TABLE " + "apple" == "CREATE TABLE apple";
    assert "CREATE TABLE apple" + " ((" == "CREATE TABLE apple ((";
    assert "CREATE TABLE apple ((" + "one" == "CREATE TABLE apple ((one";
    assert "CREATE TABLE apple ((one" + " " == "CREATE TABLE apple ((one ";
    assert "CREATE TABLE apple ((one " + "two" == "CREATE TABLE apple ((one two";
  }

  lemma Regrouped(head: seq<Token>, items: seq<Token>, middle: seq<Token>, tail: seq<Token>)
    ensures head + (items + middle + tail) == head + items + middle + tail
  {
  }
}
