/**
 * The lexer of src/tokenizer/mod.rs: an ordered list of recognisers applied pass after
 * pass to a buffer that shrinks from the front.
 */
module Tokenizer {
  import opened Wrappers
  import opened Text
  import opened Tokens
  import opened Errors
  import opened IdentifierParsing
  import opened SimpleParsing

  /** One entry of the tokenizer's parser list: the two implementations of `TokenParser`. */
  datatype Recognizer =
    | IdentifierRecognizer(tokenMapping: map<string, Token>)
    | LiteralRecognizer(parser: SimpleParser)

  /** `TokenParser::parse_skip`, dispatched on the implementation. */
  function ParseSkip(r: Recognizer, input: string): (s: Option<(Token, string)>)
    ensures s.Some? ==> |s.value.1| <= |input| && input[|input| - |s.value.1|..] == s.value.1
  {
    match r
    case IdentifierRecognizer(tokenMapping) => ScanIdentifier(tokenMapping, input)
    case LiteralRecognizer(parser) => parser.ParseSkip(input)
  }

  /** No literal recogniser has an empty search string, which would match without consuming. */
  predicate Consuming(parsers: seq<Recognizer>) {
    forall i :: 0 <= i < |parsers| && parsers[i].LiteralRecognizer? ==> parsers[i].parser.searchString != []
  }

  /** A recogniser of a consuming list never matches without removing at least one character. */
  lemma ParseSkipConsumes(r: Recognizer, input: string)
    requires Consuming([r])
    requires ParseSkip(r, input).Some?
    ensures |ParseSkip(r, input).value.1| < |input|
  {
    assert [r][0] == r;
  }

  lemma ConsumingTail(parsers: seq<Recognizer>)
    requires Consuming(parsers) && parsers != []
    ensures Consuming([parsers[0]]) && Consuming(parsers[1..])
  {
    assert forall i :: 1 <= i < |parsers| ==> parsers[1..][i - 1] == parsers[i];
  }

  /** The result of one pass over the recogniser list. */
  datatype PassResult = PassResult(tokens: seq<Token>, rest: string, success: bool)

  /**
   * One pass of the inner `for`: every recogniser once, in list order; each match appends its
   * token and trims leading whitespace before the next recogniser looks at the buffer.
   */
  function Pass(parsers: seq<Recognizer>, input: string): (r: PassResult)
    requires Consuming(parsers)
    ensures !r.success ==> r.tokens == [] && r.rest == input
    ensures r.success ==> r.tokens != [] && |r.rest| < |input|
    ensures |r.rest| <= |input|
  {
    if parsers == [] then PassResult([], input, false)
    else
      ConsumingTail(parsers);
      match ParseSkip(parsers[0], input)
      case None => Pass(parsers[1..], input)
      case Some((token, rest)) =>
        ParseSkipConsumes(parsers[0], input);
        var after := Pass(parsers[1..], TrimStart(rest));
        PassResult([token] + after.tokens, after.rest, true)
  }

  /** One step of a pass, from recogniser i on. */
  lemma PassStep(parsers: seq<Recognizer>, i: nat, input: string)
    requires Consuming(parsers) && i < |parsers|
    ensures Consuming(parsers[i..]) && Consuming(parsers[i + 1..])
    ensures Pass(parsers[i..], input) ==
      match ParseSkip(parsers[i], input)
      case None => Pass(parsers[i + 1..], input)
      case Some((token, rest)) =>
        var after := Pass(parsers[i + 1..], TrimStart(rest));
        PassResult([token] + after.tokens, after.rest, true)
  {
    ConsumingTail(parsers[i..]);
    assert parsers[i..][0] == parsers[i] && parsers[i..][1..] == parsers[i + 1..];
  }

  /** Puts tokens in front of a lexing result; errors pass through. */
  function Prefixed(tokens: seq<Token>, r: Result<seq<Token>, DbErr>): Result<seq<Token>, DbErr> {
    match r
    case Ok(more) => Ok(tokens + more)
    case Err(e) => Err(e)
  }

  lemma PrefixedNothing(r: Result<seq<Token>, DbErr>)
    ensures Prefixed([], r) == r
  {
    if r.Ok? {
      assert [] + r.value == r.value;
    }
  }

  lemma PrefixedTwice(a: seq<Token>, b: seq<Token>, r: Result<seq<Token>, DbErr>)
    ensures Prefixed(a, Prefixed(b, r)) == Prefixed(a + b, r)
  {
    if r.Ok? {
      assert a + (b + r.value) == (a + b) + r.value;
    }
  }

  /**
   * The outer `while` of `tokenize`: passes until the buffer is empty; a pass in which
   * nothing matches ends the loop with the lexer's only error.
   */
  function LexFrom(parsers: seq<Recognizer>, input: string): (r: Result<seq<Token>, DbErr>)
    requires Consuming(parsers)
    decreases |input|
    ensures r.Err? ==> r.error == Generic(UnableToParse)
    ensures input == [] ==> r == Ok([])
  {
    if input == [] then Ok([])
    else
      var pass := Pass(parsers, input);
      if !pass.success then Err(Generic(UnableToParse))
      else Prefixed(pass.tokens, LexFrom(parsers, pass.rest))
  }

  /** `Tokenizer::tokenize`: the query is trimmed at both ends before the first pass. */
  function Lex(parsers: seq<Recognizer>, query: string): (r: Result<seq<Token>, DbErr>)
    requires Consuming(parsers)
    ensures r.Err? ==> r.error == Generic(UnableToParse)
    ensures Trim(query) == [] ==> r == Ok([])
  {
    LexFrom(parsers, Trim(query))
  }

  /** The keyword table `Tokenizer::new` gives the identifier recogniser. */
  function Keywords(): map<string, Token> {
    map["create" := Create, "table" := Table, "delete" := Delete]
  }

  /** The recogniser list of `Tokenizer::new`: identifiers and keywords first, then `,` `(` `)` `;`. */
  function StandardParsers(): (parsers: seq<Recognizer>)
    ensures Consuming(parsers)
  {
    [ IdentifierRecognizer(Keywords()),
      LiteralRecognizer(SimpleParser(",", Comma)),
      LiteralRecognizer(SimpleParser("(", OpenBracket)),
      LiteralRecognizer(SimpleParser(")", CloseBracket)),
      LiteralRecognizer(SimpleParser(";", SemiColon)) ]
  }

  datatype Tokenizer = Tokenizer(parsers: seq<Recognizer>) {

    predicate Valid() {
      Consuming(parsers)
    }

    /** `tokenize`: the pass loop, with the tokens pushed and the buffer reassigned as the Rust code does. */
    method Tokenize(query: string) returns (r: Result<seq<Token>, DbErr>)
      requires Valid()
      ensures r == Lex(parsers, query)
    {
      var tokens: seq<Token> := [];
      var skippable := Trim(query);
      PrefixedNothing(LexFrom(parsers, skippable));
      while skippable != []
        invariant Lex(parsers, query) == Prefixed(tokens, LexFrom(parsers, skippable))
        decreases |skippable|
      {
        ghost var tokensBefore := tokens;
        ghost var start := skippable;
        var success;
        tokens, skippable, success := RunPass(tokens, skippable);
        if !success {
          LexFromNoPass(parsers, start);
          return Err(Generic(UnableToParse));
        }
        LexFromPass(parsers, start);
        PrefixedTwice(tokensBefore, Pass(parsers, start).tokens, LexFrom(parsers, skippable));
      }
      r := Ok(tokens);
      assert tokens + [] == tokens;
    }

    /**
     * One run of the inner `for` over the recognisers: each one that matches pushes its token,
     * and the buffer is then trimmed at the front. It computes exactly `Pass`.
     */
    method RunPass(tokens: seq<Token>, input: string) returns (tokensAfter: seq<Token>, rest: string, success: bool)
      requires Valid()
      ensures tokensAfter == tokens + Pass(parsers, input).tokens
      ensures rest == Pass(parsers, input).rest && success == Pass(parsers, input).success
    {
      tokensAfter, rest, success := tokens, input, false;
      ghost var passTokens: seq<Token> := [];
      assert parsers[0..] == parsers;
      for i := 0 to |parsers|
        invariant tokensAfter == tokens + passTokens
        invariant !success ==> rest == input && passTokens == []
        invariant Consuming(parsers[i..])
        invariant var next := Pass(parsers[i..], rest);
          Pass(parsers, input) == PassResult(passTokens + next.tokens, next.rest, success || next.success)
      {
        PassStep(parsers, i, rest);
        var result := ParseSkip(parsers[i], rest);
        if result.Some? {
          var token := result.value.0;
          PushRegrouped(tokens, passTokens, token, Pass(parsers[i + 1..], TrimStart(result.value.1)).tokens);
          tokensAfter := tokensAfter + [token];
          passTokens := passTokens + [token];
          success := true;
          rest := TrimStart(result.value.1);
        }
      }
      assert parsers[|parsers|..] == [];
      assert passTokens + [] == passTokens;
    }
  }

  lemma PushRegrouped(tokens: seq<Token>, passTokens: seq<Token>, token: Token, later: seq<Token>)
    ensures passTokens + ([token] + later) == (passTokens + [token]) + later
    ensures (tokens + passTokens) + [token] == tokens + (passTokens + [token])
  {
  }

  /** A pass that matched nothing: the lexer fails. */
  lemma LexFromNoPass(parsers: seq<Recognizer>, input: string)
    requires Consuming(parsers) && input != [] && !Pass(parsers, input).success
    ensures LexFrom(parsers, input) == Err(Generic(UnableToParse))
  {
  }

  /** `Tokenizer::new`: builds the keyword table through the identifier parser, then lists the recognisers. */
  method NewTokenizer() returns (t: Tokenizer)
    ensures t.parsers == StandardParsers() && t.Valid()
  {
    var identifierParser := new IdentifierParser();
    identifierParser.AddTokenMapping("create", Create);
    identifierParser.AddTokenMapping("table", Table);
    identifierParser.AddTokenMapping("delete", Delete);
    assert ToLower("create") == "create";
    assert ToLower("table") == "table";
    assert ToLower("delete") == "delete";
    assert identifierParser.tokenMapping == Keywords();
    t := Tokenizer([
      IdentifierRecognizer(identifierParser.tokenMapping),
      LiteralRecognizer(SimpleParser(",", Comma)),
      LiteralRecognizer(SimpleParser("(", OpenBracket)),
      LiteralRecognizer(SimpleParser(")", CloseBracket)),
      LiteralRecognizer(SimpleParser(";", SemiColon))
    ]);
  }

  // ---------------------------------------------------------------------------
  // Properties of the standard lexer
  // ---------------------------------------------------------------------------

  /** Empty or whitespace-only text lexes to no tokens at all. */
  lemma LexBlank(parsers: seq<Recognizer>, query: string)
    requires Consuming(parsers)
    requires forall i :: 0 <= i < |query| ==> IsWhitespace(query[i])
    ensures Lex(parsers, query) == Ok([])
  {
    TrimAllWhitespace(query);
  }

  /** The tokens a recogniser list can produce: a literal's token, a keyword's token, or an Identifier holding an identifier. */
  ghost predicate Emittable(parsers: seq<Recognizer>, t: Token) {
    (t.Identifier? && IsIdentifier(t.text))
    || exists i :: 0 <= i < |parsers| &&
         match parsers[i]
         case LiteralRecognizer(p) => p.resultToken == t
         case IdentifierRecognizer(m) => t in m.Values
  }

  lemma {:induction false} ParseSkipEmits(parsers: seq<Recognizer>, i: nat, input: string)
    requires i < |parsers| && ParseSkip(parsers[i], input).Some?
    ensures Emittable(parsers, ParseSkip(parsers[i], input).value.0)
  {
    match parsers[i]
    case IdentifierRecognizer(m) =>
      var rest := ScanIdentifier(m, input).value.1;
      var word := input[..|input| - |rest|];
      if ToLower(word) in m {
        assert m[ToLower(word)] in m.Values;
      }
    case LiteralRecognizer(p) =>
  }

  lemma {:induction false} PassEmits(parsers: seq<Recognizer>, i: nat, input: string)
    requires Consuming(parsers) && i <= |parsers|
    ensures Consuming(parsers[i..])
    ensures forall t :: t in Pass(parsers[i..], input).tokens ==> Emittable(parsers, t)
    decreases |parsers| - i
  {
    if i == |parsers| {
      assert parsers[i..] == [];
    } else {
      PassStep(parsers, i, input);
      PassEmits(parsers, i + 1, input);
      var r := ParseSkip(parsers[i], input);
      if r.Some? {
        ParseSkipEmits(parsers, i, input);
        PassEmits(parsers, i + 1, TrimStart(r.value.1));
      }
    }
  }

  /** Every token the lexer outputs comes from one of its recognisers; nothing else appears. */
  lemma {:induction false} LexEmitsOnlyRecognised(parsers: seq<Recognizer>, input: string)
    requires Consuming(parsers)
    ensures LexFrom(parsers, input).Ok? ==> forall t :: t in LexFrom(parsers, input).value ==> Emittable(parsers, t)
    decreases |input|
  {
    if input != [] {
      var pass := Pass(parsers, input);
      if pass.success {
        assert parsers[0..] == parsers;
        PassEmits(parsers, 0, input);
        LexEmitsOnlyRecognised(parsers, pass.rest);
      }
    }
  }

  /** The standard lexer never produces a List token. */
  lemma LexNeverEmitsList(query: string)
    ensures Lex(StandardParsers(), query).Ok? ==> forall t :: t in Lex(StandardParsers(), query).value ==> !t.List?
  {
    LexEmitsOnlyRecognised(StandardParsers(), Trim(query));
    forall t | Emittable(StandardParsers(), t) ensures !t.List? {
      StandardEmitsNoList(t);
    }
  }

  lemma StandardEmitsNoList(t: Token)
    requires Emittable(StandardParsers(), t)
    ensures !t.List?
  {
    assert Keywords().Values == {Create, Table, Delete} by {
      assert Keywords()["create"] == Create && Keywords()["table"] == Table && Keywords()["delete"] == Delete;
    }
  }

  // ---------------------------------------------------------------------------
  // Lexing text written as lexemes and gaps gives back exactly those lexemes' tokens
  // ---------------------------------------------------------------------------

  /** A lexeme of the standard lexer: an identifier-shaped word or one of `,` `(` `)` `;`. */
  predicate IsLexeme(l: string) {
    IsIdentifier(l) || l == "," || l == "(" || l == ")" || l == ";"
  }

  /** Index, in `StandardParsers()`, of the recogniser that takes the lexeme. */
  function Slot(l: string): nat
    requires IsLexeme(l)
  {
    if IsIdentifier(l) then 0 else if l == "," then 1 else if l == "(" then 2 else if l == ")" then 3 else 4
  }

  /** The token a lexeme stands for: keywords by their lower-case form, other words as identifiers, punctuation by its mark. */
  function LexemeToken(l: string): Token
    requires IsLexeme(l)
  {
    if IsIdentifier(l) then WordToken(Keywords(), l)
    else if l == "," then Comma else if l == "(" then OpenBracket else if l == ")" then CloseBracket else SemiColon
  }

  function LexemeTokens(lexemes: seq<string>): seq<Token>
    requires forall i :: 0 <= i < |lexemes| ==> IsLexeme(lexemes[i])
  {
    seq(|lexemes|, i requires 0 <= i < |lexemes| => LexemeToken(lexemes[i]))
  }

  predicate AllWhitespace(s: string) {
    forall i :: 0 <= i < |s| ==> IsWhitespace(s[i])
  }

  /** The text lexemes[0] + gaps[0] + lexemes[1] + gaps[1] + ...; the last gap is trailing text. */
  function Join(lexemes: seq<string>, gaps: seq<string>): string
    requires |gaps| == |lexemes|
  {
    if lexemes == [] then [] else lexemes[0] + gaps[0] + Join(lexemes[1..], gaps[1..])
  }

  /** Lexemes with whitespace gaps, two words never written back to back. */
  predicate WellSeparated(lexemes: seq<string>, gaps: seq<string>) {
    && |gaps| == |lexemes|
    && (forall i :: 0 <= i < |lexemes| ==> IsLexeme(lexemes[i]))
    && (forall i :: 0 <= i < |gaps| ==> AllWhitespace(gaps[i]))
    && (forall i :: 0 <= i < |lexemes| - 1 && IsIdentifier(lexemes[i]) && IsIdentifier(lexemes[i + 1]) ==> gaps[i] != [])
  }

  lemma WellSeparatedTail(lexemes: seq<string>, gaps: seq<string>)
    requires WellSeparated(lexemes, gaps) && lexemes != []
    ensures WellSeparated(lexemes[1..], gaps[1..])
  {
    assert forall i :: 0 <= i < |lexemes| - 1 ==> lexemes[1..][i] == lexemes[i + 1];
  }

  /** How many leading lexemes the recognisers from index i on take in one pass. */
  function PassCount(i: nat, lexemes: seq<string>): nat
    requires forall j :: 0 <= j < |lexemes| ==> IsLexeme(lexemes[j])
    decreases 5 - i
  {
    if lexemes == [] || i >= 5 then 0
    else if Slot(lexemes[0]) == i then 1 + PassCount(i + 1, lexemes[1..])
    else PassCount(i + 1, lexemes)
  }

  lemma {:induction false} TrimStartGap(gap: string, s: string)
    requires AllWhitespace(gap)
    requires s == [] || !IsWhitespace(s[0])
    ensures TrimStart(gap + s) == s
    decreases |gap|
  {
    if gap == [] {
      assert gap + s == s;
    } else {
      assert (gap + s)[0] == gap[0];
      assert (gap + s)[1..] == gap[1..] + s;
      TrimStartGap(gap[1..], s);
    }
  }

  lemma JoinStart(lexemes: seq<string>, gaps: seq<string>)
    requires WellSeparated(lexemes, gaps) && lexemes != []
    ensures |Join(lexemes, gaps)| >= |lexemes[0]| && Join(lexemes, gaps)[..|lexemes[0]|] == lexemes[0]
    ensures Join(lexemes, gaps)[0] == lexemes[0][0]
  {
    var j := Join(lexemes, gaps);
    assert j == lexemes[0] + (gaps[0] + Join(lexemes[1..], gaps[1..]));
  }

  /** What a recogniser of the standard list does with joined text: it takes the first lexeme exactly when it is its slot. */
  lemma StandardParseSkip(i: nat, lexemes: seq<string>, gaps: seq<string>)
    requires i < 5 && WellSeparated(lexemes, gaps) && lexemes != []
    ensures Slot(lexemes[0]) == i ==>
      ParseSkip(StandardParsers()[i], Join(lexemes, gaps)) ==
        Some((LexemeToken(lexemes[0]), gaps[0] + Join(lexemes[1..], gaps[1..])))
    ensures Slot(lexemes[0]) != i ==> ParseSkip(StandardParsers()[i], Join(lexemes, gaps)) == None
  {
    if i == 0 {
      IdentifierSkip(i, lexemes, gaps);
    } else {
      LiteralSkip(i, lexemes, gaps);
    }
  }

  /** The identifier recogniser takes the first lexeme when it is a word, and nothing when it is a punctuation mark. */
  lemma IdentifierSkip(i: nat, lexemes: seq<string>, gaps: seq<string>)
    requires i == 0 && WellSeparated(lexemes, gaps) && lexemes != []
    ensures Slot(lexemes[0]) == i ==>
      ParseSkip(StandardParsers()[i], Join(lexemes, gaps)) ==
        Some((LexemeToken(lexemes[0]), gaps[0] + Join(lexemes[1..], gaps[1..])))
    ensures Slot(lexemes[0]) != i ==> ParseSkip(StandardParsers()[i], Join(lexemes, gaps)) == None
  {
    var l := lexemes[0];
    var after := gaps[0] + Join(lexemes[1..], gaps[1..]);
    assert Join(lexemes, gaps) == l + after;
    JoinStart(lexemes, gaps);
    if IsIdentifier(l) {
      if gaps[0] == [] && lexemes[1..] != [] {
        JoinStart(lexemes[1..], gaps[1..]);
        WellSeparatedTail(lexemes, gaps);
        assert after[0] == lexemes[1][0];
      }
      ScanWord(Keywords(), l, after);
    }
  }

  /** A punctuation recogniser takes the first lexeme when it is its mark, and nothing otherwise. */
  lemma LiteralSkip(i: nat, lexemes: seq<string>, gaps: seq<string>)
    requires 1 <= i < 5 && WellSeparated(lexemes, gaps) && lexemes != []
    ensures Slot(lexemes[0]) == i ==>
      ParseSkip(StandardParsers()[i], Join(lexemes, gaps)) ==
        Some((LexemeToken(lexemes[0]), gaps[0] + Join(lexemes[1..], gaps[1..])))
    ensures Slot(lexemes[0]) != i ==> ParseSkip(StandardParsers()[i], Join(lexemes, gaps)) == None
  {
    var l := lexemes[0];
    var after := gaps[0] + Join(lexemes[1..], gaps[1..]);
    var j := Join(lexemes, gaps);
    assert j == l + after;
    JoinStart(lexemes, gaps);
    var p := StandardParsers()[i].parser;
    assert |p.searchString| == 1;
    if Slot(l) == i {
      assert ToLower(l) == l;
      MatchesFoldedPrefix(p, l, after);
    } else {
      FirstCharacterDecides(p, j);
    }
  }

  lemma StandardParseSkipEmpty(i: nat)
    requires i < 5
    ensures ParseSkip(StandardParsers()[i], []) == None
  {
  }

  lemma LexemeTokensCons(lexemes: seq<string>, k: nat)
    requires forall j :: 0 <= j < |lexemes| ==> IsLexeme(lexemes[j])
    requires 0 < k <= |lexemes|
    ensures [LexemeToken(lexemes[0])] + LexemeTokens(lexemes[1..][..k - 1]) == LexemeTokens(lexemes[..k])
  {
    assert lexemes[1..][..k - 1] == lexemes[1..k];
  }

  /** One pass over joined text takes the first PassCount lexemes and leaves the text of the others. */
  lemma {:induction false} PassOverJoin(i: nat, lexemes: seq<string>, gaps: seq<string>)
    requires i <= 5 && WellSeparated(lexemes, gaps)
    ensures var k := PassCount(i, lexemes);
      && k <= |lexemes|
      && Pass(StandardParsers()[i..], Join(lexemes, gaps)) ==
           PassResult(LexemeTokens(lexemes[..k]), Join(lexemes[k..], gaps[k..]), k > 0)
    decreases 5 - i, 1
  {
    var parsers := StandardParsers();
    if i == 5 {
      assert parsers[i..] == [];
      assert lexemes[..0] == [] && lexemes[0..] == lexemes && gaps[0..] == gaps;
    } else if lexemes == [] {
      PassStep(parsers, i, []);
      StandardParseSkipEmpty(i);
      PassOverJoin(i + 1, lexemes, gaps);
    } else if Slot(lexemes[0]) == i {
      PassTakesLexeme(i, lexemes, gaps);
    } else {
      PassStep(parsers, i, Join(lexemes, gaps));
      StandardParseSkip(i, lexemes, gaps);
      PassOverJoin(i + 1, lexemes, gaps);
    }
  }

  /** The case of PassOverJoin where recogniser i takes the first lexeme. */
  lemma {:induction false} PassTakesLexeme(i: nat, lexemes: seq<string>, gaps: seq<string>)
    requires i < 5 && WellSeparated(lexemes, gaps) && lexemes != [] && Slot(lexemes[0]) == i
    ensures var k := PassCount(i, lexemes);
      && k <= |lexemes|
      && Pass(StandardParsers()[i..], Join(lexemes, gaps)) ==
           PassResult(LexemeTokens(lexemes[..k]), Join(lexemes[k..], gaps[k..]), k > 0)
    decreases 5 - i, 0
  {
    PassTakesFirst(i, lexemes, gaps);
    WellSeparatedTail(lexemes, gaps);
    PassOverJoin(i + 1, lexemes[1..], gaps[1..]);
    var k' := PassCount(i + 1, lexemes[1..]);
    PassCountTakes(i, lexemes);
    LexemeTokensCons(lexemes, k' + 1);
    TailSlices(lexemes, gaps, k');
  }

  /** Recogniser i takes the first lexeme; the later recognisers go on with the text of the others. */
  lemma PassTakesFirst(i: nat, lexemes: seq<string>, gaps: seq<string>)
    requires i < 5 && WellSeparated(lexemes, gaps) && lexemes != [] && Slot(lexemes[0]) == i
    ensures var after := Pass(StandardParsers()[i + 1..], Join(lexemes[1..], gaps[1..]));
      Pass(StandardParsers()[i..], Join(lexemes, gaps)) == PassResult([LexemeToken(lexemes[0])] + after.tokens, after.rest, true)
  {
    PassStep(StandardParsers(), i, Join(lexemes, gaps));
    StandardParseSkip(i, lexemes, gaps);
    GapBeforeRest(lexemes, gaps);
  }

  /** The gap after the first lexeme is whitespace that `trim_start` removes, and no more. */
  lemma GapBeforeRest(lexemes: seq<string>, gaps: seq<string>)
    requires WellSeparated(lexemes, gaps) && lexemes != []
    ensures TrimStart(gaps[0] + Join(lexemes[1..], gaps[1..])) == Join(lexemes[1..], gaps[1..])
  {
    var rest := Join(lexemes[1..], gaps[1..]);
    if lexemes[1..] != [] {
      WellSeparatedTail(lexemes, gaps);
      JoinStart(lexemes[1..], gaps[1..]);
      assert IsLexeme(lexemes[1]);
    }
    assert AllWhitespace(gaps[0]);
    TrimStartGap(gaps[0], rest);
  }

  lemma PassCountTakes(i: nat, lexemes: seq<string>)
    requires i < 5 && lexemes != [] && (forall j :: 0 <= j < |lexemes| ==> IsLexeme(lexemes[j])) && Slot(lexemes[0]) == i
    ensures PassCount(i, lexemes) == PassCount(i + 1, lexemes[1..]) + 1
  {
  }

  lemma TailSlices(lexemes: seq<string>, gaps: seq<string>, k: nat)
    requires |gaps| == |lexemes| && k < |lexemes|
    ensures lexemes[1..][k..] == lexemes[k + 1..] && gaps[1..][k..] == gaps[k + 1..]
  {
  }

  lemma {:induction false} PassCountPositive(i: nat, lexemes: seq<string>)
    requires forall j :: 0 <= j < |lexemes| ==> IsLexeme(lexemes[j])
    requires lexemes != [] && i <= Slot(lexemes[0])
    ensures PassCount(i, lexemes) > 0
    decreases 5 - i
  {
    if Slot(lexemes[0]) != i {
      PassCountPositive(i + 1, lexemes);
    }
  }

  /** The pass loop over joined text yields the tokens of all lexemes, in the order they were written. */
  lemma {:induction false} LexFromJoin(lexemes: seq<string>, gaps: seq<string>)
    requires WellSeparated(lexemes, gaps)
    ensures LexFrom(StandardParsers(), Join(lexemes, gaps)) == Ok(LexemeTokens(lexemes))
    decreases |lexemes|
  {
    if lexemes != [] {
      var parsers := StandardParsers();
      var k := FirstPass(lexemes, gaps);
      WellSeparatedSuffix(lexemes, gaps, k);
      LexFromJoin(lexemes[k..], gaps[k..]);
      LexFromPass(parsers, Join(lexemes, gaps));
      LexemeTokensSplit(lexemes, k);
    } else {
      assert LexemeTokens(lexemes) == [];
    }
  }

  /** The first pass over non-empty joined text takes k > 0 lexemes and leaves the text of the others. */
  lemma FirstPass(lexemes: seq<string>, gaps: seq<string>) returns (k: nat)
    requires WellSeparated(lexemes, gaps) && lexemes != []
    ensures 0 < k <= |lexemes| && Join(lexemes, gaps) != []
    ensures Pass(StandardParsers(), Join(lexemes, gaps)) == PassResult(LexemeTokens(lexemes[..k]), Join(lexemes[k..], gaps[k..]), true)
  {
    JoinStart(lexemes, gaps);
    assert StandardParsers()[0..] == StandardParsers();
    PassOverJoin(0, lexemes, gaps);
    PassCountPositive(0, lexemes);
    k := PassCount(0, lexemes);
  }

  /** A pass that matched: the lexer goes on with what the pass left. */
  lemma LexFromPass(parsers: seq<Recognizer>, input: string)
    requires Consuming(parsers) && input != [] && Pass(parsers, input).success
    ensures LexFrom(parsers, input) == Prefixed(Pass(parsers, input).tokens, LexFrom(parsers, Pass(parsers, input).rest))
  {
  }

  lemma WellSeparatedSuffix(lexemes: seq<string>, gaps: seq<string>, k: nat)
    requires WellSeparated(lexemes, gaps) && k <= |lexemes|
    ensures WellSeparated(lexemes[k..], gaps[k..])
  {
    assert forall i :: 0 <= i < |lexemes| - k ==> lexemes[k..][i] == lexemes[i + k];
  }

  lemma LexemeTokensSplit(lexemes: seq<string>, k: nat)
    requires forall i :: 0 <= i < |lexemes| ==> IsLexeme(lexemes[i])
    requires k <= |lexemes|
    ensures LexemeTokens(lexemes[..k]) + LexemeTokens(lexemes[k..]) == LexemeTokens(lexemes)
  {
  }

  lemma {:induction false} TrimEndGap(s: string, gap: string)
    requires AllWhitespace(gap)
    requires s == [] || !IsWhitespace(s[|s| - 1])
    ensures TrimEnd(s + gap) == s
    decreases |gap|
  {
    if gap == [] {
      assert s + gap == s;
    } else {
      assert (s + gap)[..|s + gap| - 1] == s + gap[..|gap| - 1];
      TrimEndGap(s, gap[..|gap| - 1]);
    }
  }

  lemma {:induction false} TrimEndAppend(a: string, b: string)
    requires TrimEnd(b) != []
    ensures TrimEnd(a + b) == a + TrimEnd(b)
    decreases |b|
  {
    if IsWhitespace(b[|b| - 1]) {
      assert (a + b)[..|a + b| - 1] == a + b[..|b| - 1];
      TrimEndAppend(a, b[..|b| - 1]);
    }
  }

  lemma WellSeparatedWithoutLastGap(lexemes: seq<string>, gaps: seq<string>)
    requires WellSeparated(lexemes, gaps) && lexemes != []
    ensures WellSeparated(lexemes, gaps[|gaps| - 1 := []])
  {
  }

  /** Trimming the end of joined text drops exactly the last gap. */
  lemma {:induction false} TrimEndJoin(lexemes: seq<string>, gaps: seq<string>)
    requires WellSeparated(lexemes, gaps) && lexemes != []
    ensures TrimEnd(Join(lexemes, gaps)) == Join(lexemes, gaps[|gaps| - 1 := []])
    decreases |lexemes|, 1
  {
    var last := gaps[|gaps| - 1 := []];
    var l := lexemes[0];
    assert IsLexeme(l);
    if |lexemes| == 1 {
      assert Join(lexemes, gaps) == l + gaps[0] + [];
      assert Join(lexemes, last) == l + [] + [];
      assert AllWhitespace(gaps[0]);
      TrimEndGap(l, gaps[0]);
      assert l + gaps[0] + [] == l + gaps[0];
    } else {
      TrimEndJoinStep(lexemes, gaps);
    }
  }

  lemma {:induction false} TrimEndJoinStep(lexemes: seq<string>, gaps: seq<string>)
    requires WellSeparated(lexemes, gaps) && |lexemes| > 1
    ensures TrimEnd(Join(lexemes, gaps)) == Join(lexemes, gaps[|gaps| - 1 := []])
    decreases |lexemes|, 0
  {
    var last := gaps[|gaps| - 1 := []];
    var l := lexemes[0];
    WellSeparatedTail(lexemes, gaps);
    TrimEndJoin(lexemes[1..], gaps[1..]);
    assert last[1..] == gaps[1..][|gaps| - 2 := []];
    WellSeparatedWithoutLastGap(lexemes[1..], gaps[1..]);
    JoinStart(lexemes[1..], last[1..]);
    var tail := Join(lexemes[1..], gaps[1..]);
    assert Join(lexemes, gaps) == (l + gaps[0]) + tail;
    TrimEndAppend(l + gaps[0], tail);
    assert Join(lexemes, last) == (l + gaps[0]) + Join(lexemes[1..], last[1..]);
  }

  /**
   * Round trip of the standard lexer: text written as lexemes separated by whitespace
   * (and by nothing where a word meets punctuation), with any whitespace before and after,
   * lexes to the lexemes' tokens, in the order they were written.
   */
  lemma LexJoined(lead: string, lexemes: seq<string>, gaps: seq<string>)
    requires AllWhitespace(lead) && WellSeparated(lexemes, gaps)
    ensures Lex(StandardParsers(), lead + Join(lexemes, gaps)) == Ok(LexemeTokens(lexemes))
  {
    var j := Join(lexemes, gaps);
    if lexemes == [] {
      assert lead + j == lead;
      LexBlank(StandardParsers(), lead);
      assert LexemeTokens(lexemes) == [];
    } else {
      JoinStart(lexemes, gaps);
      assert IsLexeme(lexemes[0]);
      TrimStartGap(lead, j);
      TrimEndJoin(lexemes, gaps);
      WellSeparatedWithoutLastGap(lexemes, gaps);
      LexFromJoin(lexemes, gaps[|gaps| - 1 := []]);
    }
  }

  // ---------------------------------------------------------------------------
  // The cases of src/tokenizer/mod.rs's tests
  // ---------------------------------------------------------------------------

  /** "CREATE TABLE" lexes to [Create, Table]. */
  lemma LexCreateTable()
    ensures Lex(StandardParsers(), "CREATE TABLE") == Ok([Create, Table])
  {
    var lexemes, gaps := ["CREATE", "TABLE"], [" ", ""];
    assert Join(lexemes, gaps) == "CREATE TABLE" by {
      assert Join(lexemes[1..], gaps[1..]) == "TABLE" by { assert Join(lexemes[2..], gaps[2..]) == []; }
    }
    CreateTableTokens();
    LexJoined([], lexemes, gaps);
    assert [] + "CREATE TABLE" == "CREATE TABLE";
  }

  lemma CreateTableTokens()
    ensures WellSeparated(["CREATE", "TABLE"], [" ", ""])
    ensures LexemeTokens(["CREATE", "TABLE"]) == [Create, Table]
  {
    UpperCreateLexeme();
    UpperTableLexeme();
  }

  lemma UpperCreateLexeme()
    ensures IsLexeme("CREATE") && IsIdentifier("CREATE") && LexemeToken("CREATE") == Create
  {
    assert ToLower("CREATE") == "create" by { assert ToLowerChar('C') == 'c'; }
  }

  lemma UpperTableLexeme()
    ensures IsLexeme("TABLE") && IsIdentifier("TABLE") && LexemeToken("TABLE") == Table
  {
    assert ToLower("TABLE") == "table" by { assert ToLowerChar('T') == 't'; }
  }

  lemma UpperDeleteLexeme()
    ensures IsLexeme("DELETE") && IsIdentifier("DELETE") && LexemeToken("DELETE") == Delete
  {
    assert ToLower("DELETE") == "delete" by { assert ToLowerChar('D') == 'd'; }
  }

  lemma LowerDeleteLexeme()
    ensures IsLexeme("delete") && IsIdentifier("delete") && LexemeToken("delete") == Delete
  {
    assert ToLower("delete") == "delete";
  }

  /** "delete DELETE TABLE" lexes to [Delete, Delete, Table]: keywords are recognised in any case. */
  lemma LexDeleteDeleteTable()
    ensures Lex(StandardParsers(), "delete DELETE TABLE") == Ok([Delete, Delete, Table])
  {
    var lexemes, gaps := ["delete", "DELETE", "TABLE"], [" ", " ", ""];
    assert Join(lexemes, gaps) == "delete DELETE TABLE" by {
      assert Join(lexemes[1..], gaps[1..]) == "DELETE TABLE" by {
        assert Join(lexemes[2..], gaps[2..]) == "TABLE" by { assert Join(lexemes[3..], gaps[3..]) == []; }
      }
    }
    DeleteDeleteTableTokens();
    LexJoined([], lexemes, gaps);
    assert [] + "delete DELETE TABLE" == "delete DELETE TABLE";
  }

  lemma DeleteDeleteTableTokens()
    ensures WellSeparated(["delete", "DELETE", "TABLE"], [" ", " ", ""])
    ensures LexemeTokens(["delete", "DELETE", "TABLE"]) == [Delete, Delete, Table]
  {
    LowerDeleteLexeme();
    UpperDeleteLexeme();
    UpperTableLexeme();
  }

  /** Writing two runs of lexemes one after the other writes their texts one after the other. */
  lemma {:induction false} JoinAppend(lexemes1: seq<string>, gaps1: seq<string>, lexemes2: seq<string>, gaps2: seq<string>)
    requires |gaps1| == |lexemes1| && |gaps2| == |lexemes2|
    ensures Join(lexemes1 + lexemes2, gaps1 + gaps2) == Join(lexemes1, gaps1) + Join(lexemes2, gaps2)
    decreases |lexemes1|
  {
    if lexemes1 == [] {
      assert lexemes1 + lexemes2 == lexemes2 && gaps1 + gaps2 == gaps2;
    } else {
      JoinAppend(lexemes1[1..], gaps1[1..], lexemes2, gaps2);
      assert (lexemes1 + lexemes2)[1..] == lexemes1[1..] + lexemes2;
      assert (gaps1 + gaps2)[1..] == gaps1[1..] + gaps2;
    }
  }

  lemma LexemeTokensAppend(lexemes1: seq<string>, lexemes2: seq<string>)
    requires forall i :: 0 <= i < |lexemes1| ==> IsLexeme(lexemes1[i])
    requires forall i :: 0 <= i < |lexemes2| ==> IsLexeme(lexemes2[i])
    ensures forall i :: 0 <= i < |lexemes1 + lexemes2| ==> IsLexeme((lexemes1 + lexemes2)[i])
    ensures LexemeTokens(lexemes1 + lexemes2) == LexemeTokens(lexemes1) + LexemeTokens(lexemes2)
  {
  }

  /** Two well-separated runs stay well separated side by side unless two words meet with no gap. */
  lemma WellSeparatedAppend(lexemes1: seq<string>, gaps1: seq<string>, lexemes2: seq<string>, gaps2: seq<string>)
    requires WellSeparated(lexemes1, gaps1) && WellSeparated(lexemes2, gaps2)
    requires lexemes1 != [] && lexemes2 != [] && IsIdentifier(lexemes1[|lexemes1| - 1]) && IsIdentifier(lexemes2[0]) ==> gaps1[|gaps1| - 1] != []
    ensures WellSeparated(lexemes1 + lexemes2, gaps1 + gaps2)
  {
    var lexemes, gaps := lexemes1 + lexemes2, gaps1 + gaps2;
    forall i | 0 <= i < |lexemes| - 1 && IsIdentifier(lexemes[i]) && IsIdentifier(lexemes[i + 1])
      ensures gaps[i] != []
    {
      if i < |lexemes1| - 1 {
        assert lexemes[i] == lexemes1[i] && lexemes[i + 1] == lexemes1[i + 1];
      } else if i >= |lexemes1| {
        assert lexemes[i] == lexemes2[i - |lexemes1|] && lexemes[i + 1] == lexemes2[i - |lexemes1| + 1];
      }
    }
    forall i | 0 <= i < |gaps| ensures AllWhitespace(gaps[i]) {
      if i < |gaps1| { assert gaps[i] == gaps1[i]; } else { assert gaps[i] == gaps2[i - |gaps1|]; }
    }
  }

  /** Lexing a text written as lexemes and whitespace gaps, once the three facts about it are known. */
  lemma LexWritten(text: string, lexemes: seq<string>, gaps: seq<string>, tokens: seq<Token>)
    requires WellSeparated(lexemes, gaps) && Join(lexemes, gaps) == text && LexemeTokens(lexemes) == tokens
    ensures Lex(StandardParsers(), text) == Ok(tokens)
  {
    LexJoined([], lexemes, gaps);
    assert [] + text == text;
  }

  /** A word that no keyword can be, by its length or its first letter, lexes as an identifier carrying its text. */
  lemma PlainWord(w: string)
    requires IsIdentifier(w)
    requires |w| < 5 || |w| > 6 || (ToLowerChar(w[0]) != 'c' && ToLowerChar(w[0]) != 't' && ToLowerChar(w[0]) != 'd')
    ensures IsLexeme(w) && LexemeToken(w) == Identifier(w)
  {
    assert ToLower(w)[0] == ToLowerChar(w[0]);
  }

  /** The four punctuation marks are lexemes of their own, none of them a word. */
  lemma Punctuation()
    ensures IsLexeme(",") && !IsIdentifier(",") && LexemeToken(",") == Comma
    ensures IsLexeme("(") && !IsIdentifier("(") && LexemeToken("(") == OpenBracket
    ensures IsLexeme(")") && !IsIdentifier(")") && LexemeToken(")") == CloseBracket
    ensures IsLexeme(";") && !IsIdentifier(";") && LexemeToken(";") == SemiColon
  {
  }

  /** A query whose first character no recogniser accepts fails with "Unable to parse". */
  lemma LexRejectsUnknownStart(query: string)
    requires Trim(query) != []
    requires var c := Trim(query)[0]; !IsIdentifierStart(c) && c != ',' && c != '(' && c != ')' && c != ';'
    ensures Lex(StandardParsers(), query) == Err(Generic(UnableToParse))
  {
    var s := Trim(query);
    var parsers := StandardParsers();
    assert parsers[0..] == parsers;
    forall i | 0 <= i < 5 ensures ParseSkip(parsers[i], s) == None {
      if i > 0 {
        var p := parsers[i].parser;
        if |p.searchString| <= |s| {
          assert ToLower(s[..1]) == [ToLowerChar(s[0])];
        }
      }
    }
    PassStep(parsers, 0, s);
    PassStep(parsers, 1, s);
    PassStep(parsers, 2, s);
    PassStep(parsers, 3, s);
    PassStep(parsers, 4, s);
    assert parsers[5..] == [];
  }
}
