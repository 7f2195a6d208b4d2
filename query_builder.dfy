/**
 * The registry of src/queries/query_builder.rs: the two fixed grammars, each paired with the
 * factory that turns its bindings into a query.
 */
module QueryBuilders {
  import opened Wrappers
  import opened Tokens
  import opened Errors
  import opened ParseStepsMatching
  import opened Queries

  /** The factory closures: each wraps the bindings, unchanged, in its kind of query. */
  datatype Factory = CreateTableFactory | DeleteTableFactory

  function Build(factory: Factory, data: map<string, Token>): (q: Query)
    ensures q.data == data
    ensures q.CreateTableQuery? <==> factory == CreateTableFactory
  {
    match factory
    case CreateTableFactory => CreateTableQuery(data)
    case DeleteTableFactory => DeleteTableQuery(data)
  }

  datatype QueryBuilder = QueryBuilder(steps: ParseSteps, factory: Factory)

  /** CREATE TABLE name ( … ) ; */
  function CreateGrammar(): (g: ParseSteps)
    ensures g.steps == [
      UnnamedStep(Create), UnnamedStep(Table), NamedStep(Identifier("_"), "Name"),
      NamedStream(OpenBracket, CloseBracket, "TableDescription"), UnnamedStep(SemiColon)]
  {
    ParseSteps([])
      .AddStep(Create)
      .AddStep(Table)
      .AddNamedStep(Identifier("_"), "Name")
      .AddTokenCaptureStream(OpenBracket, CloseBracket, "TableDescription")
      .AddStep(SemiColon)
  }

  /** DELETE TABLE name, with no closing semicolon. */
  function DeleteGrammar(): (g: ParseSteps)
    ensures g.steps == [UnnamedStep(Delete), UnnamedStep(Table), NamedStep(Identifier("_"), "Name")]
  {
    ParseSteps([])
      .AddStep(Delete)
      .AddStep(Table)
      .AddNamedStep(Identifier("_"), "Name")
  }

  /** `get_builders`: exactly two entries, CREATE first and DELETE second. */
  function GetBuilders(): (r: seq<QueryBuilder>)
    ensures |r| == 2
    ensures r[0] == QueryBuilder(CreateGrammar(), CreateTableFactory)
    ensures r[1] == QueryBuilder(DeleteGrammar(), DeleteTableFactory)
  {
    [QueryBuilder(CreateGrammar(), CreateTableFactory), QueryBuilder(DeleteGrammar(), DeleteTableFactory)]
  }

  // ---------------------------------------------------------------------------
  // What the two grammars accept
  // ---------------------------------------------------------------------------

  /** No token list matches both grammars: their first steps ask for different tags. */
  lemma GrammarsExclusive(tokens: seq<Token>)
    ensures !(Match(CreateGrammar().steps, tokens).Ok? && Match(DeleteGrammar().steps, tokens).Ok?)
  {
  }

  /** The first three steps of the CREATE grammar on `Create Table Identifier (`: "Name" is bound and the stream step is next. */
  lemma CreateGrammarHead(name: string, rest: seq<Token>)
    ensures var tokens := [Create, Table, Identifier(name), OpenBracket] + rest;
      Match(CreateGrammar().steps, tokens) == MatchFrom(CreateGrammar().steps[3..], tokens, 3, map["Name" := Identifier(name)])
  {
    var steps := CreateGrammar().steps;
    assert steps[1..][1..] == steps[2..] && steps[2..][1..] == steps[3..];
  }

  /** The stream gathers items free of `)` up to the first `)`, which it consumes. */
  lemma CaptureItems(tokens: seq<Token>, items: seq<Token>)
    requires 5 + |items| <= |tokens| && tokens[4..4 + |items|] == items && tokens[4 + |items|] == CloseBracket
    requires forall i :: 0 <= i < |items| ==> items[i] != CloseBracket
    ensures Capture(tokens, 4, CloseBracket) == CaptureResult(items, 5 + |items|, true)
  {
    assert forall i :: 4 <= i < 4 + |items| ==> tokens[i] == items[i - 4];
    CaptureUpTo(tokens, 4, 4 + |items|, CloseBracket);
  }

  /** The stream step of the CREATE grammar on `( items )`: it binds "TableDescription" and leaves the `;` step. */
  lemma CreateGrammarBody(tokens: seq<Token>, items: seq<Token>, bindings: Bindings)
    requires 5 + |items| <= |tokens| && tokens[3] == OpenBracket
    requires tokens[4..4 + |items|] == items && tokens[4 + |items|] == CloseBracket
    requires forall i :: 0 <= i < |items| ==> items[i] != CloseBracket
    ensures MatchFrom(CreateGrammar().steps[3..], tokens, 3, bindings)
      == MatchFrom([UnnamedStep(SemiColon)], tokens, 5 + |items|, bindings["TableDescription" := List(items)])
  {
    var steps := CreateGrammar().steps;
    CaptureItems(tokens, items);
    assert steps[3..][1..] == [UnnamedStep(SemiColon)];
  }

  /**
   * The CREATE grammar accepts `Create Table Identifier ( items ) ;` followed by anything, when
   * the items hold no `)`; it binds "Name" to the identifier and "TableDescription" to the items.
   */
  lemma CreateGrammarMatches(name: string, items: seq<Token>, trailing: seq<Token>)
    requires forall i :: 0 <= i < |items| ==> items[i] != CloseBracket
    ensures Match(CreateGrammar().steps, [Create, Table, Identifier(name), OpenBracket] + items + [CloseBracket, SemiColon] + trailing)
      == Ok(map["Name" := Identifier(name), "TableDescription" := List(items)])
  {
    var tokens := [Create, Table, Identifier(name), OpenBracket] + items + [CloseBracket, SemiColon] + trailing;
    assert tokens[4 + |items|] == CloseBracket && tokens[5 + |items|] == SemiColon;
    assert tokens[4..4 + |items|] == items;
    CreateGrammarHead(name, tokens[4..]);
    assert tokens == [Create, Table, Identifier(name), OpenBracket] + tokens[4..];
    CreateGrammarBody(tokens, items, map["Name" := Identifier(name)]);
    assert [UnnamedStep(SemiColon)][1..] == [];
  }

  /**
   * Conversely, whatever the CREATE grammar accepts starts with `Create Table Identifier ( items ) ;`
   * where the items hold no `)`, and its bindings are exactly "Name" and "TableDescription".
   */
  lemma CreateGrammarOnlyMatches(tokens: seq<Token>)
    requires Match(CreateGrammar().steps, tokens).Ok?
    ensures var m := Match(CreateGrammar().steps, tokens).value;
      && m.Keys == {"Name", "TableDescription"}
      && m["Name"].Identifier? && m["TableDescription"].List?
      && var items := m["TableDescription"].items;
        && 6 + |items| <= |tokens|
        && tokens[..6 + |items|] == [Create, Table, m["Name"], OpenBracket] + items + [CloseBracket, SemiColon]
        && forall i :: 0 <= i < |items| ==> items[i] != CloseBracket
  {
    CreateGrammarNeedsHead(tokens);
    var m := map["Name" := tokens[2]];
    HeadAndRest(tokens);
    CreateGrammarHead(tokens[2].text, tokens[4..]);
    CreateGrammarNeedsStream(tokens, m);
    CaptureStopsAtFirstEnd(tokens, 4, CloseBracket);
    var c := Capture(tokens, 4, CloseBracket);
    CreateShape(tokens, c.items);
  }

  lemma HeadAndRest(tokens: seq<Token>)
    requires |tokens| >= 4 && tokens[2].Identifier?
    ensures tokens == [tokens[0], tokens[1], Identifier(tokens[2].text), tokens[3]] + tokens[4..]
  {
  }

  /** The prefix of a list that the CREATE grammar accepted, read back from its parts. */
  lemma CreateShape(tokens: seq<Token>, items: seq<Token>)
    requires 6 + |items| <= |tokens| && tokens[4..4 + |items|] == items
    requires tokens[4 + |items|] == CloseBracket && tokens[5 + |items|] == SemiColon
    ensures tokens[..6 + |items|] == [tokens[0], tokens[1], tokens[2], tokens[3]] + items + [CloseBracket, SemiColon]
  {
    assert forall i :: 4 <= i < 4 + |items| ==> tokens[i] == items[i - 4];
  }

  /** Whatever the CREATE grammar accepts starts with `Create Table Identifier (`. */
  lemma CreateGrammarNeedsHead(tokens: seq<Token>)
    requires Match(CreateGrammar().steps, tokens).Ok?
    ensures |tokens| >= 4 && tokens[0] == Create && tokens[1] == Table && tokens[2].Identifier? && tokens[3] == OpenBracket
  {
    var steps := CreateGrammar().steps;
    assert steps[1..][1..] == steps[2..] && steps[2..][1..] == steps[3..];
  }

  /** When the stream step and `;` succeed, the stream was closed, `;` follows it, and it was bound as "TableDescription". */
  lemma CreateGrammarNeedsStream(tokens: seq<Token>, bindings: Bindings)
    requires |tokens| > 3 && tokens[3] == OpenBracket
    requires MatchFrom(CreateGrammar().steps[3..], tokens, 3, bindings).Ok?
    ensures var c := Capture(tokens, 4, CloseBracket);
      && c.found && c.next < |tokens| && tokens[c.next] == SemiColon
      && MatchFrom(CreateGrammar().steps[3..], tokens, 3, bindings) == Ok(bindings["TableDescription" := List(c.items)])
  {
    var steps := CreateGrammar().steps;
    assert steps[3..][1..] == [UnnamedStep(SemiColon)];
    assert [UnnamedStep(SemiColon)][1..] == [];
  }

  /** The CREATE grammar rejects a list that is never closed: the stream runs to the end, where `;` is missing. */
  lemma CreateGrammarNeedsClose(name: string, items: seq<Token>)
    requires forall i :: 0 <= i < |items| ==> items[i] != CloseBracket
    ensures var tokens := [Create, Table, Identifier(name), OpenBracket] + items;
      Match(CreateGrammar().steps, tokens) == Err((Generic(EndOfTokenStream), |tokens|))
  {
    var tokens := [Create, Table, Identifier(name), OpenBracket] + items;
    var steps := CreateGrammar().steps;
    CreateGrammarHead(name, tokens[4..]);
    assert tokens == [Create, Table, Identifier(name), OpenBracket] + tokens[4..];
    assert forall i :: 4 <= i < |tokens| ==> tokens[i] == items[i - 4];
    UnterminatedStream(steps[3..], tokens, 3, map["Name" := Identifier(name)]);
  }

  /** The CREATE grammar rejects a closed list followed by anything but `;`, at that token. */
  lemma CreateGrammarNeedsSemiColon(name: string, items: seq<Token>, next: Token, rest: seq<Token>)
    requires forall i :: 0 <= i < |items| ==> items[i] != CloseBracket
    requires next != SemiColon
    ensures Match(CreateGrammar().steps, [Create, Table, Identifier(name), OpenBracket] + items + [CloseBracket, next] + rest)
      == Err((UnexpectedToken(next, SemiColon), 6 + |items|))
  {
    var tokens := [Create, Table, Identifier(name), OpenBracket] + items + [CloseBracket, next] + rest;
    assert tokens[4 + |items|] == CloseBracket && tokens[5 + |items|] == next;
    assert tokens[4..4 + |items|] == items;
    CreateGrammarHead(name, tokens[4..]);
    assert tokens == [Create, Table, Identifier(name), OpenBracket] + tokens[4..];
    CreateGrammarBody(tokens, items, map["Name" := Identifier(name)]);
  }

  /** The DELETE grammar accepts `Delete Table Identifier` followed by anything, binding "Name" to the identifier. */
  lemma DeleteGrammarMatches(name: string, trailing: seq<Token>)
    ensures Match(DeleteGrammar().steps, [Delete, Table, Identifier(name)] + trailing) == Ok(map["Name" := Identifier(name)])
  {
    var steps := DeleteGrammar().steps;
    assert steps[1..][1..] == steps[2..] && steps[2..][1..] == [];
  }

  /** Conversely, whatever the DELETE grammar accepts starts with `Delete Table Identifier`, and "Name" is its only binding. */
  lemma DeleteGrammarOnlyMatches(tokens: seq<Token>)
    requires Match(DeleteGrammar().steps, tokens).Ok?
    ensures |tokens| >= 3 && tokens[0] == Delete && tokens[1] == Table && tokens[2].Identifier?
    ensures Match(DeleteGrammar().steps, tokens).value == map["Name" := tokens[2]]
  {
    var steps := DeleteGrammar().steps;
    assert steps[1..][1..] == steps[2..] && steps[2..][1..] == [];
  }
}
