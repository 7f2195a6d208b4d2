/**
 * The dispatcher of src/queries/query_parser.rs: lex the query once, try every grammar of the
 * registry on the tokens, keep the queries of those that match (or the most advanced failure),
 * then run the queries in order against the store.
 */
module QueryParsing {
  import opened Wrappers
  import opened Tokens
  import opened Errors
  import opened Tokenizer
  import opened ParseStepsMatching
  import opened TableStore
  import opened Queries
  import opened QueryBuilders

  /** The variables of `create_query_plan`'s loop: the plan so far, and the best failure so far. */
  datatype PlanState = PlanState(plan: seq<Query>, bestProgress: nat, bestError: DbErr)

  /** What a grammar of the registry makes of the tokens. */
  function Outcome(builder: QueryBuilder, tokens: seq<Token>): Result<Bindings, Failure> {
    Match(builder.steps.steps, tokens)
  }

  /**
   * One turn of the loop: a match appends the factory's query; a failure replaces the best one
   * only when its progress is strictly greater.
   */
  function Consider(s: PlanState, builder: QueryBuilder, tokens: seq<Token>): PlanState {
    match Outcome(builder, tokens)
    case Ok(parsed) => s.(plan := s.plan + [Build(builder.factory, parsed)])
    case Err((error, progress)) => if progress > s.bestProgress then s.(bestProgress := progress, bestError := error) else s
  }

  /** The loop over a list of builders, from best progress 0 and "Unknown error". */
  function Fold(builders: seq<QueryBuilder>, tokens: seq<Token>): PlanState
    decreases |builders|
  {
    if builders == [] then PlanState([], 0, Generic(UnknownError))
    else Consider(Fold(builders[..|builders| - 1], tokens), builders[|builders| - 1], tokens)
  }

  /** The queries of the grammars that match, in registry order: a reference for the plan the loop builds. */
  function Matches(builders: seq<QueryBuilder>, tokens: seq<Token>): seq<Query>
    decreases |builders|
  {
    if builders == [] then [] else MatchOf(builders[0], tokens) + Matches(builders[1..], tokens)
  }

  /** The query of one grammar when it matches, nothing otherwise. */
  function MatchOf(builder: QueryBuilder, tokens: seq<Token>): seq<Query> {
    var outcome := Outcome(builder, tokens);
    if outcome.Ok? then [Build(builder.factory, outcome.value)] else []
  }

  /** The loop's plan is exactly the queries of the matching grammars, in registry order. */
  lemma {:induction false} FoldPlanIsMatches(builders: seq<QueryBuilder>, tokens: seq<Token>)
    ensures Fold(builders, tokens).plan == Matches(builders, tokens)
    decreases |builders|
  {
    if builders != [] {
      var n := |builders| - 1;
      FoldPlanIsMatches(builders[..n], tokens);
      MatchesSnoc(builders[..n], builders[n], tokens);
      assert builders[..n] + [builders[n]] == builders;
    }
  }

  lemma {:induction false} MatchesSnoc(init: seq<QueryBuilder>, last: QueryBuilder, tokens: seq<Token>)
    ensures Matches(init + [last], tokens) == Matches(init, tokens) + MatchOf(last, tokens)
    decreases |init|
  {
    if init == [] {
      assert init + [last] == [last];
      assert [last][1..] == [];
    } else {
      assert (init + [last])[0] == init[0];
      assert (init + [last])[1..] == init[1..] + [last];
      MatchesSnoc(init[1..], last, tokens);
      var m0, rest := MatchOf(init[0], tokens), Matches(init[1..], tokens);
      assert m0 + (rest + MatchOf(last, tokens)) == (m0 + rest) + MatchOf(last, tokens);
    }
  }

  /** The plan for a token list: the matched queries, or the selected failure when none matched. */
  function PlanTokens(builders: seq<QueryBuilder>, tokens: seq<Token>): (r: Result<seq<Query>, DbErr>)
    ensures r.Ok? ==> r.value != []
  {
    var s := Fold(builders, tokens);
    if s.plan == [] then Err(s.bestError) else Ok(s.plan)
  }

  /** `create_query_plan` as a value: a lex failure is "test"; otherwise the plan over the registry. */
  function PlanQuery(query: string): (r: Result<seq<Query>, DbErr>)
    ensures Lex(StandardParsers(), query).Err? ==> r == Err(Generic(LexFailure))
    ensures Lex(StandardParsers(), query).Ok? ==> r == PlanTokens(GetBuilders(), Lex(StandardParsers(), query).value)
  {
    match Lex(StandardParsers(), query)
    case Err(_) => Err(Generic(LexFailure))
    case Ok(tokens) => PlanTokens(GetBuilders(), tokens)
  }

  /** `create_query_plan`: lexes the query, then runs `SelectPlan` over the registry; it computes exactly `PlanQuery`. */
  method CreateQueryPlan(query: string) returns (r: Result<seq<Query>, DbErr>)
    ensures r == PlanQuery(query)
  {
    var tokenizer := NewTokenizer();
    var queryBuilders := GetBuilders();
    var parsedTokens := tokenizer.Tokenize(query);
    if parsedTokens.Err? {
      return Err(Generic(LexFailure));
    }
    r := SelectPlan(queryBuilders, parsedTokens.value);
  }

  /** The loop of `create_query_plan` over the builders; it computes exactly `PlanTokens`. */
  method SelectPlan(queryBuilders: seq<QueryBuilder>, tokens: seq<Token>) returns (r: Result<seq<Query>, DbErr>)
    ensures r == PlanTokens(queryBuilders, tokens)
  {
    var queryPlan: seq<Query> := [];
    var bestProgress: nat := 0;
    var bestError := Generic(UnknownError);
    assert queryBuilders[..0] == [];
    for k := 0 to |queryBuilders|
      invariant Fold(queryBuilders[..k], tokens) == PlanState(queryPlan, bestProgress, bestError)
    {
      assert queryBuilders[..k + 1][..k] == queryBuilders[..k];
      var parsed := queryBuilders[k].steps.Parse(tokens);
      match parsed {
        case Ok(data) =>
          queryPlan := queryPlan + [Build(queryBuilders[k].factory, data)];
        case Err((error, progress)) =>
          if progress > bestProgress {
            bestError := error;
            bestProgress := progress;
          }
      }
    }
    assert queryBuilders[..|queryBuilders|] == queryBuilders;
    if queryPlan == [] {
      return Err(bestError);
    }
    r := Ok(queryPlan);
  }

  /** The plan run in order on the store's map: the first error stops it, with the effects of the queries before it kept. */
  function RunPlan(plan: seq<Query>, tables: map<string, TableContents>): (r: (Result<string, DbErr>, map<string, TableContents>))
    decreases |plan|
    ensures r.0.Ok? ==> r.0.value == Done
    ensures plan == [] ==> r == (Ok(Done), tables)
  {
    if plan == [] then (Ok(Done), tables)
    else
      var (result, after) := Run(plan[0], tables);
      if result.Err? then (Err(result.error), after) else RunPlan(plan[1..], after)
  }

  /** A plan of one query: its error, or "Done"; either way the store as that query left it. */
  lemma RunPlanSingle(q: Query, tables: map<string, TableContents>)
    ensures var (result, after) := Run(q, tables);
      RunPlan([q], tables) == (if result.Err? then Err(result.error) else Ok(Done), after)
  {
    assert [q][1..] == [];
  }

  /**
   * Running two plans back to back: the second runs only when the first succeeded, on the store
   * the first left; when the first fails, its error and its effects are the outcome.
   */
  lemma {:induction false} RunPlanAppend(p1: seq<Query>, p2: seq<Query>, tables: map<string, TableContents>)
    ensures var (r1, t1) := RunPlan(p1, tables);
      RunPlan(p1 + p2, tables) == if r1.Err? then (r1, t1) else RunPlan(p2, t1)
    decreases |p1|
  {
    if p1 != [] {
      assert (p1 + p2)[0] == p1[0];
      assert (p1 + p2)[1..] == p1[1..] + p2;
      RunPlanAppend(p1[1..], p2, Run(p1[0], tables).1);
    } else {
      assert p1 + p2 == p2;
    }
  }

  /** `execute_query` on the store's map: any planning failure is "Not done yet" and changes nothing. */
  function ExecuteSpec(query: string, tables: map<string, TableContents>): (r: (Result<string, DbErr>, map<string, TableContents>))
    ensures PlanQuery(query).Err? ==> r == (Err(Generic(NotDoneYet)), tables)
    ensures PlanQuery(query).Ok? ==> r == RunPlan(PlanQuery(query).value, tables)
  {
    match PlanQuery(query)
    case Err(_) => (Err(Generic(NotDoneYet)), tables)
    case Ok(plan) => RunPlan(plan, tables)
  }

  /** `execute_query`: exactly the change `ExecuteSpec` describes. */
  method ExecuteQuery(database: Database, query: string) returns (r: Result<string, DbErr>)
    modifies database
    ensures (r, database.Contents()) == ExecuteSpec(query, old(database.Contents()))
  {
    var result := CreateQueryPlan(query);
    if result.Err? {
      return Err(Generic(NotDoneYet));
    }
    var queryPlan := result.value;
    assert queryPlan[0..] == queryPlan;
    for i := 0 to |queryPlan|
      invariant ExecuteSpec(query, old(database.Contents())) == RunPlan(queryPlan[i..], database.Contents())
    {
      assert queryPlan[i..][1..] == queryPlan[i + 1..];
      var executed := Execute(queryPlan[i], database);
      if executed.Err? {
        return Err(executed.error);
      }
    }
    assert queryPlan[|queryPlan|..] == [];
    r := Ok(Done);
  }

  // ---------------------------------------------------------------------------
  // The failure selection
  // ---------------------------------------------------------------------------

  /**
   * The selected failure, against a direct definition: the plan is empty exactly when every
   * grammar failed; no failure went further than the best progress; with progress 0 the error
   * is still "Unknown error"; otherwise it is the error of the first grammar, in registry order,
   * that failed with exactly the best progress.
   */
  lemma FoldSelectsFirstFurthest(builders: seq<QueryBuilder>, tokens: seq<Token>)
    ensures var s := Fold(builders, tokens);
      && (s.plan == [] <==> forall i :: 0 <= i < |builders| ==> Outcome(builders[i], tokens).Err?)
      && (forall i :: 0 <= i < |builders| && Outcome(builders[i], tokens).Err? ==> Outcome(builders[i], tokens).error.1 <= s.bestProgress)
      && (s.bestProgress == 0 ==> s.bestError == Generic(UnknownError))
      && (s.bestProgress > 0 ==> exists i :: 0 <= i < |builders| && FirstFurthest(builders, tokens, i, s))
  {
    FoldSelects(builders, tokens);
  }

  /** The four facts above about a state of the loop over the builders. */
  ghost predicate Selected(builders: seq<QueryBuilder>, tokens: seq<Token>, s: PlanState) {
    && (s.plan == [] <==> forall i :: 0 <= i < |builders| ==> Outcome(builders[i], tokens).Err?)
    && (forall i :: 0 <= i < |builders| && Outcome(builders[i], tokens).Err? ==> Outcome(builders[i], tokens).error.1 <= s.bestProgress)
    && (s.bestProgress == 0 ==> s.bestError == Generic(UnknownError))
    && (s.bestProgress > 0 ==> exists i :: 0 <= i < |builders| && FirstFurthest(builders, tokens, i, s))
  }

  lemma {:induction false} FoldSelects(builders: seq<QueryBuilder>, tokens: seq<Token>)
    ensures Selected(builders, tokens, Fold(builders, tokens))
    decreases |builders|
  {
    if builders != [] {
      var n := |builders| - 1;
      FoldSelects(builders[..n], tokens);
      assert builders == builders[..n] + [builders[n]];
      ConsiderSelects(builders[..n], builders[n], tokens);
    }
  }

  /** One turn of the loop keeps the four facts, for the builders seen so far. */
  lemma ConsiderSelects(init: seq<QueryBuilder>, builder: QueryBuilder, tokens: seq<Token>)
    requires Selected(init, tokens, Fold(init, tokens))
    ensures Selected(init + [builder], tokens, Consider(Fold(init, tokens), builder, tokens))
  {
    var builders := init + [builder];
    var n := |init|;
    var s0 := Fold(init, tokens);
    var s := Consider(s0, builder, tokens);
    assert forall i :: 0 <= i < n ==> builders[i] == init[i];
    assert builders[n] == builder;
    if s.bestProgress > 0 {
      if s.bestProgress == s0.bestProgress {
        var i :| 0 <= i < n && FirstFurthest(init, tokens, i, s0);
        assert FirstFurthest(builders, tokens, i, s);
      } else {
        assert FirstFurthest(builders, tokens, n, s);
      }
    }
  }

  /** Grammar i failed with the selected error at the best progress, and every failing grammar before it stopped short of that. */
  ghost predicate FirstFurthest(builders: seq<QueryBuilder>, tokens: seq<Token>, i: nat, s: PlanState)
    requires i < |builders|
  {
    && Outcome(builders[i], tokens) == Err((s.bestError, s.bestProgress))
    && forall j :: 0 <= j < i && Outcome(builders[j], tokens).Err? ==> Outcome(builders[j], tokens).error.1 < s.bestProgress
  }
}
