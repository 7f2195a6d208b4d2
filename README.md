# rsdb core in Dafny

A model of the core of rsdb, a small in-memory SQL-like database, with proofs about it. The model covers:

- **The lexer.** It has an identifier/keyword recogniser (`IdentifierParser`) and a literal recogniser (`SimpleParser`) for `,` `(` `)` `;`. The `Tokenizer` applies its recognisers pass after pass to a trimmed buffer that shrinks from the front.
- **The grammar matcher `ParseSteps`.** A grammar is a list of steps (a single token, a named token, or a named stream of tokens up to an end token). The steps are matched by one cursor. The result is either the named bindings or an error together with the cursor position it was raised at (its "progress").
- **The registry of two grammars (`get_builders`).** Each grammar is paired with the factory that builds a query from the bindings:
  - `CREATE TABLE name ( … ) ;`
  - `DELETE TABLE name`
- **The two queries.** `CreateTableQuery` resolves the table name and parses the column list from the bindings. `DeleteTableQuery` looks up the name.
- **The dispatcher (`execute_query`, `create_query_plan`).** It lexes once and tries every grammar. It keeps the queries of those that match; when none matches, it keeps the failure that got furthest. It then runs the queries in order.
- **The table store (`Database`).** A map from names to tables. Tables and rows are updated in place.

Files, one Dafny module each:

| file | module | models |
|---|---|---|
| `wrappers.dfy` | `Wrappers` | `Option` and `Result` |
| `text.dfy` | `Text` | ASCII case folding and `trim`/`trim_start` |
| `tokens.dfy` | `Tokens` | `Token` and `mem::discriminant` |
| `errors.dfy` | `Errors` | `DbErr` and the fixed messages |
| `identifier_parser.dfy` | `IdentifierParsing` | `src/tokenizer/identifier_parser.rs` |
| `simple_parser.dfy` | `SimpleParsing` | `src/tokenizer/simple_parser.rs` |
| `tokenizer.dfy` | `Tokenizer` | `src/tokenizer/mod.rs` |
| `parse_steps.dfy` | `ParseStepsMatching` | `src/queries/parse_steps.rs` |
| `query_builder.dfy` | `QueryBuilders` | `src/queries/query_builder.rs` |
| `queries.dfy` | `Queries` | the `Query` trait of `src/queries/mod.rs` |
| `create_table_query.dfy` | `CreateTableQueries` | `src/queries/create_table_query.rs` |
| `delete_table_query.dfy` | `DeleteTableQueries` | `src/queries/delete_table_query.rs` |
| `query_parser.dfy` | `QueryParsing` | `src/queries/query_parser.rs` |
| `database.dfy` | `TableStore` | `src/database.rs` |

Three further modules state end-to-end facts:

- `QueryText` (`query_text.dfy`) writes statements as text and proves what the lexer makes of them.
- `QueryRuns` (`query_runs.dfy`) proves what `execute_query` does with such text in general.
- `QueryExamples` (`query_examples.dfy`) proves the source's own test cases.

Modelling choices:

- **Operations that change state are methods**, each proved equal to a specification function:
  - `tokenize`, with its pass loop;
  - `parse`, with its step loop and inner stream loop;
  - `get_table_description`, with its `while` loop;
  - `create_query_plan`, with its builder loop;
  - `execute_query`, with its query loop;
  - the `Database`, `Table` and `TableEntry` updates.

  The lemmas are then proved about those functions.
- **`Database`, `Table` and `TableEntry` are classes**, updated in place. `Database.Contents()` reads the store as a map from names to `TableContents` values, and the specification functions `CreateIn`, `DeleteFrom`, `CreateRun`, `DeleteRun`, `Run`, `RunPlan` and `ExecuteSpec` work on that map.
- **`parse_skip(&mut String) -> Option<Token>`** becomes a function that returns the token and the remaining input. The Rust code mutates the buffer in place instead.
- **Two error variants are added to `DbErr`:**
  - `UnexpectedToken(got, expected)` stands for the `Generic` message that `parse` formats with `{:?}`;
  - `IndexOutOfBounds(index, length)` stands for the panic of `tokens[i + 1]` in `get_table_description`.
- **`QuerySuccess` is the unit value `()`.** It is an empty struct in the Rust code.
- **`Box<dyn Query>` and the factory closures** are closed datatypes (`Query`, `Factory`).

## Model

| member | source | states |
|---|---|---|
| Text.ToLower | src/tokenizer/simple_parser.rs:19 | lower-casing keeps the length and folds each character on its own (A–Z down by 32, all else unchanged); no upper-case letter remains |
| Text.TrimStart | src/tokenizer/mod.rs:62 | the result is a suffix of the input; every dropped character is whitespace; the result does not start with whitespace |
| Text.TrimEnd | src/tokenizer/mod.rs:54 | the result is a prefix of the input; every dropped character is whitespace; the result does not end with whitespace |
| Text.TrimAllWhitespace | src/tokenizer/mod.rs:54-55 | text made only of whitespace trims to nothing, so the lexer loop does not run |
| IdentifierParsing.MatchLength | src/tokenizer/identifier_parser.rs:14 | the anchored pattern `^[a-zA-Z_][a-zA-Z0-9_]*` matches nothing exactly when the input is empty or does not start with a letter or `_`; otherwise the matched prefix is an identifier and the next character cannot extend it |
| IdentifierParsing.MatchIsLongest | src/tokenizer/identifier_parser.rs:14 | no longer prefix is an identifier: the match is greedy |
| IdentifierParsing.MatchLengthOfWord | src/tokenizer/identifier_parser.rs:14 | on an identifier followed by a character that cannot extend it, the match is exactly that identifier |
| IdentifierParsing.WordToken | src/tokenizer/identifier_parser.rs:32-37 | the token of a matched word is a mapped keyword or an `Identifier` of the word in its own case, and always the latter when the lower-cased word is not mapped |
| IdentifierParsing.ScanIdentifier | src/tokenizer/identifier_parser.rs:26-41 | `None` exactly when no identifier starts the input; otherwise the input is the matched word followed by the returned rest, which is strictly shorter than the input and cannot extend the word, and the token is the mapped keyword of the lower-cased word or an `Identifier` in the word's own case |
| IdentifierParsing.ScanWord | src/tokenizer/identifier_parser.rs:26-41 | scanning a word followed by a non-identifier character returns that word's token and exactly the rest |
| IdentifierParsing.KeywordsIgnoreCase | src/tokenizer/identifier_parser.rs:19-22 | two spellings of a mapped keyword that agree up to case give the same token |
| IdentifierParsing.IdentifierParser.constructor | src/tokenizer/identifier_parser.rs:12-17 | a new parser has no keyword mappings |
| IdentifierParsing.IdentifierParser.AddTokenMapping | src/tokenizer/identifier_parser.rs:19-22 | the mapping gains or overwrites the lower-cased key; every other key keeps its token |
| IdentifierParsing.ScanUnmapped | src/tokenizer/identifier_parser.rs:12-17 | with no keyword mapped, every identifier is an `Identifier` of itself and is consumed whole |
| IdentifierParsing.ScanPlainWord | src/tokenizer/identifier_parser.rs:49-56 | `MYSTRINGIDENTIFIER` gives `Identifier("MYSTRINGIDENTIFIER")` |
| IdentifierParsing.ScanUnderscores | src/tokenizer/identifier_parser.rs:59-67 | `my_str`, `_egg` and `_` give identifiers of themselves |
| IdentifierParsing.ScanDigits | src/tokenizer/identifier_parser.rs:70-76 | `hi1` and `h_32` give identifiers of themselves |
| IdentifierParsing.ScanMappedCreate | src/tokenizer/identifier_parser.rs:79-93 | with the test's keyword table, `CREATE` and `CREATE EGGS` give `Create`, leaving nothing and ` EGGS` |
| IdentifierParsing.ScanMappedUpperTable | src/tokenizer/identifier_parser.rs:79-93 | `TABLE EGGS` gives `Table`, leaving ` EGGS` |
| IdentifierParsing.ScanMappedLowerTable | src/tokenizer/identifier_parser.rs:79-93 | `table EGGS` gives `Table`, leaving ` EGGS` |
| IdentifierParsing.ScanRejectsNonLetters | src/tokenizer/identifier_parser.rs:96-102 | `123_hello` and `+932` give no token |
| IdentifierParsing.ScanKeywordWithSuffix | src/tokenizer/identifier_parser.rs:105-113 | `Table_` is the identifier `Table_`, not the keyword `table` |
| SimpleParsing.SimpleParser.ParseSkip | src/tokenizer/simple_parser.rs:18-25 | a token exactly when the input is at least as long as the search string and its lower-cased prefix equals it; then the token is the configured one and the rest is the input minus that prefix |
| SimpleParsing.CaseInsensitive | src/tokenizer/simple_parser.rs:19 | two inputs that agree up to case are both accepted or both rejected |
| SimpleParsing.MatchesFoldedPrefix | src/tokenizer/simple_parser.rs:18-25 | a prefix that folds to the search string is stripped, whatever follows it |
| SimpleParsing.FirstCharacterDecides | src/tokenizer/simple_parser.rs:18-25 | an input whose first character does not fold to the search string's first character is rejected |
| SimpleParsing.MatchesLowerCase | src/tokenizer/simple_parser.rs:32-43 | `create EGGS` gives `Create`, leaving ` EGGS` |
| SimpleParsing.MatchesUpperCase | src/tokenizer/simple_parser.rs:32-43 | `CREATE something` and `CREATE` give `Create`, leaving ` something` and nothing |
| SimpleParsing.CreateMustBePrefix | src/tokenizer/simple_parser.rs:45-56 | `12create`, `12create12` and `12CREATE1` are rejected |
| Tokenizer.ParseSkip | src/tokenizer/mod.rs:25-26 | `TokenParser::parse_skip` dispatched on the recogniser; a match only ever removes a prefix: what is left is a suffix of the input |
| Tokenizer.ParseSkipConsumes | src/tokenizer/mod.rs:58-63 | a recogniser with a non-empty search string never matches without removing a character |
| Tokenizer.Pass | src/tokenizer/mod.rs:56-64 | a pass with no match yields no tokens and leaves the buffer as it was; a pass with a match yields at least one token and a strictly shorter buffer |
| Tokenizer.PassStep | src/tokenizer/mod.rs:58-63 | within a pass, a recogniser that matches emits its token, and the later recognisers continue on the `trim_start` of what it left |
| Tokenizer.Lex | src/tokenizer/mod.rs:51-72 | the query is trimmed at both ends first; the only error is "Unable to parse"; a query that trims to nothing lexes to no tokens |
| Tokenizer.LexFrom | src/tokenizer/mod.rs:55-71 | the only lexer error is "Unable to parse"; an empty buffer lexes to no tokens |
| Tokenizer.StandardParsers | src/tokenizer/mod.rs:34-49 | no recogniser in the standard list has an empty search string, so each pass that matches shrinks the buffer and the loop ends |
| Tokenizer.Tokenizer.RunPass | src/tokenizer/mod.rs:56-64 | one turn of the outer loop: the `for` over the recognisers appends exactly the tokens of `Pass` and leaves its rest and success flag |
| Tokenizer.Tokenizer.Tokenize | src/tokenizer/mod.rs:51-72 | the pass loop computes exactly `Lex` over the recognisers |
| Tokenizer.NewTokenizer | src/tokenizer/mod.rs:34-49 | the keyword table built through `add_token_mapping` and the four literal recognisers form the standard list |
| Tokenizer.LexBlank | src/tokenizer/mod.rs:54-71 | a query of whitespace only lexes to no tokens |
| Tokenizer.ParseSkipEmits | src/tokenizer/mod.rs:59-60 | a token returned by a recogniser is one that recogniser can emit |
| Tokenizer.PassEmits | src/tokenizer/mod.rs:58-63 | every token of a pass is one some recogniser of the list can emit |
| Tokenizer.LexEmitsOnlyRecognised | src/tokenizer/mod.rs:55-71 | every token the lexer returns is one some recogniser can emit |
| Tokenizer.LexNeverEmitsList | src/tokenizer/mod.rs:34-49 | the standard lexer never produces a `List` token |
| Tokenizer.StandardParseSkip | src/tokenizer/mod.rs:41-47 | on joined lexemes, each standard recogniser accepts exactly the lexemes of its own kind and leaves the gap and the rest |
| Tokenizer.PassOverJoin | src/tokenizer/mod.rs:56-64 | one pass over joined lexemes takes exactly the leading run that the recognisers meet in list order, and leaves the rest joined |
| Tokenizer.TrimEndJoin | src/tokenizer/mod.rs:54 | trimming joined lexemes drops only the last gap |
| Tokenizer.LexFromJoin | src/tokenizer/mod.rs:51-72 | lexemes joined by whitespace (a gap wherever two identifiers meet) lex back to exactly their tokens |
| Tokenizer.LexJoined | src/tokenizer/mod.rs:51-72 | the same with leading whitespace, through `trim` |
| Tokenizer.LexWritten | src/tokenizer/mod.rs:51-72 | text written as joined lexemes lexes to the tokens of those lexemes |
| Tokenizer.LexCreateTable | src/tokenizer/mod.rs:79-84 | `CREATE TABLE` lexes to `Create, Table` |
| Tokenizer.LexDeleteDeleteTable | src/tokenizer/mod.rs:87-92 | `delete DELETE TABLE` lexes to `Delete, Delete, Table` |
| Tokenizer.UpperCreateLexeme | src/tokenizer/mod.rs:36 | `CREATE` is a keyword lexeme giving `Create` |
| Tokenizer.UpperTableLexeme | src/tokenizer/mod.rs:37 | `TABLE` is a keyword lexeme giving `Table` |
| Tokenizer.UpperDeleteLexeme | src/tokenizer/mod.rs:38 | `DELETE` is a keyword lexeme giving `Delete` |
| Tokenizer.LowerDeleteLexeme | src/tokenizer/mod.rs:38 | `delete` is a keyword lexeme giving `Delete` |
| Tokenizer.PlainWord | src/tokenizer/mod.rs:35-38 | an identifier whose length or first letter rules out every keyword lexes to an `Identifier` of itself |
| Tokenizer.Punctuation | src/tokenizer/mod.rs:43-46 | `,` `(` `)` `;` lex to `Comma`, `OpenBracket`, `CloseBracket`, `SemiColon` |
| Tokenizer.LexRejectsUnknownStart | src/tokenizer/mod.rs:66-68 | a trimmed query starting with a character no recogniser accepts fails with "Unable to parse" |
| Tokens.SameKindIsSameVariant | src/queries/parse_steps.rs:54-84 | two tokens are of the same kind, as `mem::discriminant` compares them, exactly when they are the same variant, whatever their payloads |
| ParseStepsMatching.Capture | src/queries/parse_steps.rs:79-90 | the stream loop ends at or after its start, within the list, and at the end of the list when no end token was found |
| ParseStepsMatching.CaptureStopsAtFirstEnd | src/queries/parse_steps.rs:81-90 | the captured items hold no token of the end token's kind; when found, the end token is consumed and the items are exactly the tokens in between; otherwise the items are all the remaining tokens |
| ParseStepsMatching.CaptureUpTo | src/queries/parse_steps.rs:81-90 | a stream whose first end-kind token is at position j gathers exactly the tokens before j and resumes after it |
| ParseStepsMatching.CaptureStep | src/queries/parse_steps.rs:81-89 | one turn of the loop on a token not of the end kind pushes it and keeps the loop invariant: the tokens gathered so far followed by what the rest gathers make up the whole stream |
| ParseStepsMatching.CaptureStream | src/queries/parse_steps.rs:79-90 | the `while let` loop computes exactly `Capture` |
| ParseStepsMatching.MatchFrom | src/queries/parse_steps.rs:38-100 | an "end of token stream" error is raised at the end of the list; an unexpected-token error is raised one past the offending token, names that token and a different kind; no error lies before the cursor's start |
| ParseStepsMatching.ParseSteps.AddStep | src/queries/parse_steps.rs:28-31 | appends exactly one unnamed step and keeps the earlier ones |
| ParseStepsMatching.ParseSteps.AddNamedStep | src/queries/parse_steps.rs:23-26 | appends exactly one named step and keeps the earlier ones |
| ParseStepsMatching.ParseSteps.AddTokenCaptureStream | src/queries/parse_steps.rs:33-36 | appends exactly one stream step and keeps the earlier ones |
| ParseStepsMatching.ParseSteps.Parse | src/queries/parse_steps.rs:38-100 | the step loop with its inner stream loop computes exactly `Match` |
| ParseStepsMatching.CaptureUpToKind | src/queries/parse_steps.rs:84 | end tokens of the same kind capture the same items |
| ParseStepsMatching.MatchUpToKinds | src/queries/parse_steps.rs:54-84 | grammars whose steps have the same tokens up to kind and the same names give the same bindings, and fail at the same position with the same error variant, the same offending token, and an expected token of the same kind |
| ParseStepsMatching.StreamUpToKinds | src/queries/parse_steps.rs:71-94 | the stream case of the same agreement, errors included |
| ParseStepsMatching.IdentifierStepAcceptsAnyName | src/queries/parse_steps.rs:61-69 | a named `Identifier("_")` step accepts every identifier and binds it unchanged |
| ParseStepsMatching.UnterminatedStream | src/queries/parse_steps.rs:79-94 | a stream never closed adds no binding: as the last step it succeeds, otherwise the next step fails at the end of the list |
| ParseStepsMatching.CaptureExtend | src/queries/parse_steps.rs:81-90 | a stream that found its end captures the same whatever follows |
| ParseStepsMatching.TrailingTokensIgnored | src/queries/parse_steps.rs:42-99 | tokens after a successful match do not change it, unless the last step is a stream |
| QueryBuilders.Build | src/queries/query_builder.rs:24-32 | each factory wraps the bindings, unchanged, in its own kind of query |
| QueryBuilders.CreateGrammar | src/queries/query_builder.rs:18-23 | `Create`, `Table`, an `Identifier` named "Name", a stream from `(` to `)` named "TableDescription", `;` |
| QueryBuilders.DeleteGrammar | src/queries/query_builder.rs:28-31 | `Delete`, `Table`, an `Identifier` named "Name" |
| QueryBuilders.GetBuilders | src/queries/query_builder.rs:14-36 | exactly two builders: CREATE first, DELETE second |
| QueryBuilders.GrammarsExclusive | src/queries/query_builder.rs:19-29 | no token list matches both grammars |
| QueryBuilders.CreateGrammarMatches | src/queries/query_builder.rs:18-23 | `Create Table Identifier ( items ) ;`, items free of `)`, matches whatever follows, binding "Name" to the identifier and "TableDescription" to the items |
| QueryBuilders.CreateGrammarOnlyMatches | src/queries/query_builder.rs:18-23 | conversely, every match starts that way, and its bindings are exactly "Name" and "TableDescription" |
| QueryBuilders.CreateGrammarNeedsClose | src/queries/query_builder.rs:22-23 | a list never closed fails with "end of token stream" at the end of the tokens |
| QueryBuilders.CreateGrammarNeedsSemiColon | src/queries/query_builder.rs:22-23 | a closed list followed by anything but `;` fails at that token, expecting `;` |
| QueryBuilders.DeleteGrammarMatches | src/queries/query_builder.rs:28-31 | `Delete Table Identifier` matches whatever follows, binding "Name" |
| QueryBuilders.DeleteGrammarOnlyMatches | src/queries/query_builder.rs:28-31 | conversely, every match starts that way and binds only "Name" |
| Queries.Run | src/queries/mod.rs:19-24 | `execute` dispatched on the query: a failure leaves the store as it was; a successful CREATE adds exactly its named, previously absent table with the parsed columns and no rows; a successful DELETE removes exactly its named, present table; no other table changes |
| Queries.Execute | src/queries/mod.rs:23 | `execute`, dispatched on the query, changes the store exactly as `Run` says |
| CreateTableQueries.GetTableName | src/queries/create_table_query.rs:27-33 | success exactly when "Name" is bound to an `Identifier`, whose text it returns; otherwise "Bad name param" |
| CreateTableQueries.ColumnsFrom | src/queries/create_table_query.rs:40-58 | a parsed column list is never empty |
| CreateTableQueries.TableDescription | src/queries/create_table_query.rs:35-64 | a `List` bound to "TableDescription" is parsed; anything else is "Bad name param" |
| CreateTableQueries.GetTableDescription | src/queries/create_table_query.rs:35-64 | the `while` loop computes exactly `TableDescription` |
| CreateTableQueries.RenderKinds | src/queries/create_table_query.rs:42-56 | a rendered column list holds identifiers and commas only |
| CreateTableQueries.ColumnsFromRender | src/queries/create_table_query.rs:40-58 | from any position, the loop reads back a rendered non-empty column list |
| CreateTableQueries.RenderParses | src/queries/create_table_query.rs:40-58 | parsing a rendered non-empty column list gives back those columns |
| CreateTableQueries.ColumnsFromIsRender | src/queries/create_table_query.rs:40-58 | whatever the loop accepts from a position is the rendering of the columns it returns |
| CreateTableQueries.ParsesIffRender | src/queries/create_table_query.rs:40-58 | a token list parses to given columns exactly when they are non-empty and it is their rendering `name type, name type, …` |
| CreateTableQueries.TrailingCommaFails | src/queries/create_table_query.rs:40-63 | an empty list, or a list ending with a comma, is "Unexpected parsing error" |
| CreateTableQueries.TrailingCommaFrom | src/queries/create_table_query.rs:40-63 | the same from any position of the loop |
| CreateTableQueries.DanglingItemIsOutOfBounds | src/queries/create_table_query.rs:41 | a lone last item reads `tokens[i + 1]` past the end: the index-out-of-range failure |
| CreateTableQueries.DanglingFrom | src/queries/create_table_query.rs:41 | the same from any position of the loop |
| CreateTableQueries.NonIdentifierInPair | src/queries/create_table_query.rs:41-50 | a pair that is not two identifiers is "Bad table description provided" |
| CreateTableQueries.NonCommaAfterPair | src/queries/create_table_query.rs:53-56 | a pair followed by anything but a comma is "Unexpected item where , or nothing was expected" |
| CreateTableQueries.CreateRun | src/queries/create_table_query.rs:15-23 | name and description errors are returned with the store unchanged; otherwise the store changes as `create_table` does, and its error is passed on unchanged |
| CreateTableQueries.ExecuteCreate | src/queries/create_table_query.rs:15-23 | changes the store exactly as `CreateRun` says |
| DeleteTableQueries.DeleteRun | src/queries/delete_table_query.rs:15-24 | without an `Identifier` under "Name", "Bad name param" and no change; otherwise success exactly when the table exists, which is then removed with every other table kept, and `TableNotExists` with no change when it is not |
| DeleteTableQueries.ExecuteDelete | src/queries/delete_table_query.rs:15-24 | changes the store exactly as `DeleteRun` says |
| QueryParsing.PlanTokens | src/queries/query_parser.rs:46-50 | a plan that succeeds is never empty |
| QueryParsing.PlanQuery | src/queries/query_parser.rs:20-26 | a lexer failure becomes the error "test"; otherwise the plan over the registry |
| QueryParsing.CreateQueryPlan | src/queries/query_parser.rs:20-51 | computes exactly `PlanQuery` |
| QueryParsing.SelectPlan | src/queries/query_parser.rs:28-50 | the builder loop computes exactly `PlanTokens` |
| QueryParsing.ExecuteSpec | src/queries/query_parser.rs:5-18 | any planning failure is "Not done yet" with no change; otherwise the plan runs in order and stops at the first error |
| QueryParsing.ExecuteQuery | src/queries/query_parser.rs:5-18 | changes the store exactly as `ExecuteSpec` says |
| QueryParsing.ConsiderSelects | src/queries/query_parser.rs:31-50 | one turn of the builder loop keeps the four facts below for the builders seen so far |
| QueryParsing.FoldSelects | src/queries/query_parser.rs:31-50 | the loop over any list of builders ends in a state with the four facts below |
| QueryParsing.FoldSelectsFirstFurthest | src/queries/query_parser.rs:31-50 | the plan is empty exactly when every grammar fails; no failure got further than the kept one; with progress 0 the error is "Unknown error"; otherwise it is the error of the first grammar in registry order that reached the greatest progress |
| QueryParsing.FoldPlanIsMatches | src/queries/query_parser.rs:31-44 | the loop's plan is exactly the queries of the grammars that match, in registry order, against a front-to-back reference definition |
| QueryParsing.RunPlan | src/queries/query_parser.rs:10-14 | the plan loop answers "Done" whenever it succeeds; an empty plan changes nothing |
| QueryParsing.RunPlanSingle | src/queries/query_parser.rs:10-14 | a one-query plan gives that query's error or "Done", with the store as that query left it |
| QueryParsing.RunPlanAppend | src/queries/query_parser.rs:10-14 | the `?` stops the plan at the first error with the effects of the earlier queries kept; later queries run only after success, on the store the earlier ones left |
| QueryRuns.RegistryPlan | src/queries/query_parser.rs:31-50 | over the two-entry registry: a CREATE match plans one create query, a DELETE match one delete query, and with both failing the DELETE error wins only when it got strictly further |
| QueryRuns.OneQueryPerStatement | src/queries/query_parser.rs:5-51 | every plan the registry makes holds exactly one query, so a statement's outcome is that one query's error or "Done", with its effect on the store |
| QueryRuns.UnmatchedText | src/queries/query_parser.rs:5-18 | text that lexes but matches neither grammar is "Not done yet" and changes nothing |
| QueryRuns.PlanOfCreateTokens | src/queries/query_parser.rs:20-51 | text that lexes to a CREATE statement plans exactly one create query with its name and items |
| QueryRuns.RunCreateQuery | src/queries/create_table_query.rs:15-23 | that query fails with the column error, or with `TableAlreadyExists`, leaving the store, or adds the named table with the parsed columns and no rows |
| QueryRuns.ExecuteCreateTokens | src/queries/query_parser.rs:5-18 | the same, from the text |
| QueryRuns.ExecuteCreateWritten | src/queries/query_parser.rs:5-18 | the same for text written as `CREATE TABLE name (` and lexemes |
| QueryRuns.ExecuteUnmatchedWritten | src/queries/query_parser.rs:5-18 | such text whose tokens the CREATE grammar rejects is "Not done yet" and changes nothing |
| QueryRuns.ExecuteCreateText | src/queries/query_parser.rs:5-18 | `CREATE TABLE name (columns);` with plain names fails on an empty list, fails with `TableAlreadyExists` on a taken name, and otherwise adds exactly that table |
| QueryRuns.RenderedList | src/queries/create_table_query.rs:40-63 | a rendered column list holds no `)`, and parses back to its columns, or to "Unexpected parsing error" when empty |
| QueryRuns.RunDeleteQuery | src/queries/delete_table_query.rs:15-24 | a plan of one delete query bound to a name removes that table when present, else fails with `TableNotExists` and no change |
| QueryRuns.PlanOfDeleteText | src/queries/query_parser.rs:20-51 | `DELETE TABLE name` plans exactly one delete query bound to that name |
| QueryRuns.ExecuteDeleteText | src/queries/delete_table_query.rs:15-24 | `DELETE TABLE name` removes that table when present, else `TableNotExists` with no change |
| QueryRuns.ExecuteDeleteTerminated | src/queries/query_builder.rs:28-31 | the DELETE grammar ignores trailing tokens: `DELETE TABLE name;` does what `DELETE TABLE name` does |
| QueryRuns.CreateThenDeleteText | src/database.rs:36-52 | creating a table by text and then deleting it by text restores the store |
| QueryRuns.CreateTextTwice | src/queries/create_table_query.rs:89-96 | the same CREATE text run a second time fails with `TableAlreadyExists` and changes nothing |
| QueryText.PlainByShape | src/tokenizer/mod.rs:36-38 | an identifier whose length or first letter rules out `create`, `table` and `delete` is not a keyword |
| QueryText.ColumnLexing | src/tokenizer/mod.rs:51-72 | column text `name type, …` is well-separated lexemes that lex to the rendered column list |
| QueryText.LexCreateHead | src/tokenizer/mod.rs:51-72 | text starting `CREATE TABLE name (` lexes to `Create, Table, Identifier(name), OpenBracket` followed by the tokens of the rest |
| QueryText.LexCreateText | src/tokenizer/mod.rs:51-72 | `CREATE TABLE name (columns);` lexes to the head, the rendered columns, `)` and `;` |
| QueryText.LexDeleteText | src/tokenizer/mod.rs:51-72 | `DELETE TABLE name` lexes to `Delete, Table, Identifier(name)` |
| QueryText.LexDeleteTerminated | src/tokenizer/mod.rs:51-72 | `DELETE TABLE name;` lexes to `Delete, Table, Identifier(name), SemiColon` |
| QueryExamples.CreateApple | src/queries/query_parser.rs:59-68 | `CREATE TABLE apple (age INTEGER);` creates `apple` with the one column `age INTEGER` |
| QueryExamples.CreateAppleTwoColumns | src/queries/query_parser.rs:71-84 | `CREATE TABLE apple (name STRING, age INTEGER);` creates `apple` with those two columns in order |
| QueryExamples.CreateUsers | src/queries/create_table_query.rs:72-86 | `CREATE TABLE users (name string, age i32);` creates `users` with those two columns in order |
| QueryExamples.CreateUsersTwice | src/queries/create_table_query.rs:89-96 | the second `CREATE TABLE users (name string);` fails with `TableAlreadyExists` |
| QueryExamples.UnclosedListFails | src/queries/query_parser.rs:90 | `CREATE TABLE apple (;` is "Not done yet" and changes nothing |
| QueryExamples.CreateWithoutColumns | src/queries/query_parser.rs:91 | `CREATE TABLE apple ();` is "Unexpected parsing error" and changes nothing |
| QueryExamples.ThreeWordsFail | src/queries/query_parser.rs:92 | `CREATE TABLE apple (something one two);` is "Unexpected item where , or nothing was expected" |
| QueryExamples.CommaFirstFails | src/queries/query_parser.rs:93 | `CREATE TABLE apple (, one, two);` is "Bad table description provided" |
| QueryExamples.ExtraCloseFails | src/queries/query_parser.rs:94 | `CREATE TABLE apple (, one, two_));` is "Not done yet" |
| QueryExamples.PairExtraCloseFails | src/queries/query_parser.rs:95 | `CREATE TABLE apple (one two));` is "Not done yet" |
| QueryExamples.DoubleOpenFails | src/queries/query_parser.rs:96 | `CREATE TABLE apple ((one two);` is "Bad table description provided" |
| QueryExamples.DeleteApple | src/queries/query_parser.rs:100-108 | `DELETE TABLE apple` after creating `apple` leaves an empty store |
| QueryExamples.DeleteMissingUsers | src/queries/delete_table_query.rs:15-24 | `DELETE TABLE users;` on an empty store is `TableNotExists` and changes nothing |
| TableStore.TableEntry.constructor | src/database.rs:67 | a new row holds exactly the given values |
| TableStore.TableEntry.SetField | src/database.rs:56-58 | replaces field `fieldId` and no other; the row keeps its length |
| TableStore.Table.FromColumnDefinition | src/database.rs:62-64 | a table with exactly the given columns, in order, and no rows |
| TableStore.Table.InsertRow | src/database.rs:66-68 | appends one new row holding the values; the columns and the earlier rows stay |
| TableStore.Table.DeleteRow | src/database.rs:70-72 | removes row `rowId` only; the other rows keep their order |
| TableStore.CreateIn | src/database.rs:36-45 | fails with `TableAlreadyExists` and no change exactly when the name is taken; otherwise adds a table with the given columns and no rows under that name, and keeps every other table |
| TableStore.DeleteFrom | src/database.rs:47-52 | fails with `TableNotExists` and no change exactly when the name is absent; otherwise returns that table and removes it, and keeps every other table |
| TableStore.CreateThenDeleteRestores | src/database.rs:94-98 | creating a table under a new name and then deleting it returns that table and the original store |
| TableStore.CreateTwiceFails | src/database.rs:86-91 | a second create under the same name fails and leaves the first table |
| TableStore.Database.constructor | src/database.rs:28-30 | a new store is empty |
| TableStore.Database.GetTable | src/database.rs:32-34 | the table under exactly that name, if there is one |
| TableStore.Database.CreateTable | src/database.rs:36-45 | a taken name gives `TableAlreadyExists` and no change; otherwise a fresh table under that name, every other entry kept, and the contents change as `CreateIn` says |
| TableStore.Database.DeleteTable | src/database.rs:47-52 | a present name returns its table and removes the entry, every other entry kept; an absent one gives `TableNotExists` and no change; the contents change as `DeleteFrom` says |

## Left out

- The `regex` crate is replaced by the one pattern `^[a-zA-Z_][a-zA-Z0-9_]*` written out as predicates. src/tokenizer/regex_parser.rs, declared in src/tokenizer/mod.rs:6, is not part of this model.
- Only ASCII case folding and ASCII whitespace are modelled. Rust's Unicode `to_lowercase`, which can change a string's length, and Unicode `trim` are not.
- Strings are sequences of characters, not UTF-8 bytes. `replace_range` by byte length is modelled as dropping that many characters, which agrees on ASCII.
- The text of the "Unexpected token, got …, expected …" message, which `parse` formats with `{:?}`, is kept as the two tokens (`UnexpectedToken`).
- SimpleParsing.SimpleParser.ParseSkip: the Rust code removes the search string's length from the original input after matching its lower-cased form; with ASCII folding the two have the same length.
- CreateTableQueries.ColumnsFrom: the panic of `tokens[i + 1]` on a lone last item is modelled as the error value `IndexOutOfBounds`, because the Rust program aborts there instead of returning.
- Tokenizer.Tokenizer.Tokenize: requires `Valid()`, a recogniser list with no empty search string (`Consuming`). With such a recogniser the source's `while` loop would match without consuming and never end; `Tokenizer::new` never builds one, so the model leaves that non-termination out.
- TableStore.TableEntry.SetField: requires `fieldId` in range; the Rust code panics on an index out of range.
- TableStore.Table.DeleteRow: requires `rowId` in range; the Rust code panics on an index out of range.
- `HashMap` iteration order is not modelled. The bindings and the store are Dafny maps, and no operation of the core depends on that order.
- The builder methods of `ParseSteps` take the value and return it. They are modelled as functions on a value rather than as moves.
- The unused `_database` parameter of `create_query_plan` is dropped.
- `QuerySuccess` carries nothing and is modelled as `()`. `Box<dyn Query>` and the boxed factory closures become the closed datatypes `Query` and `Factory`.
- `get_table` returns a shared reference. The model returns the `Table` object; no operation in the core mutates a table it got that way.
- The program's entry point in src/main.rs, which runs one fixed query on a new store and discards the result, is not modelled.
