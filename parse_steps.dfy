/**
 * The grammar step matcher of src/queries/parse_steps.rs: a grammar is a list of steps
 * matched left to right by one cursor over the token list; the result is a map of named
 * bindings or an error together with how far the cursor got.
 */
module ParseStepsMatching {
  import opened Wrappers
  import opened Tokens
  import opened Errors

  /** One grammar step. Only the variant of each token here matters, never its payload. */
  datatype Step =
    | UnnamedStep(token: Token)
    | NamedStep(token: Token, name: string)
    | NamedStream(startToken: Token, endToken: Token, name: string)

  type Bindings = map<string, Token>

  /** A failure and the cursor position at which matching stopped. */
  type Failure = (DbErr, nat)

  /** What the stream loop collects from position idx on. */
  datatype CaptureResult = CaptureResult(items: seq<Token>, next: nat, found: bool)

  /**
   * The inner `while` of a `NamedStream` step started at idx: it gathers tokens up to the first
   * one of the end token's kind, which it consumes, or up to the end of the list.
   */
  function Capture(tokens: seq<Token>, idx: nat, endToken: Token): (c: CaptureResult)
    requires idx <= |tokens|
    ensures idx <= c.next <= |tokens|
    ensures !c.found ==> c.next == |tokens|
    decreases |tokens| - idx
  {
    if idx == |tokens| then CaptureResult([], idx, false)
    else if SameKind(tokens[idx], endToken) then CaptureResult([], idx + 1, true)
    else
      var c := Capture(tokens, idx + 1, endToken);
      CaptureResult([tokens[idx]] + c.items, c.next, c.found)
  }

  /**
   * A terminated stream is exactly the tokens strictly between its start and the first token of
   * the end token's kind, which it consumes; an unterminated one is everything up to the end.
   * Either way it holds no token of the end token's kind.
   */
  lemma {:induction false} CaptureStopsAtFirstEnd(tokens: seq<Token>, idx: nat, endToken: Token)
    requires idx <= |tokens|
    ensures var c := Capture(tokens, idx, endToken);
      && (forall i :: 0 <= i < |c.items| ==> !SameKind(c.items[i], endToken))
      && (c.found ==> idx < c.next && SameKind(tokens[c.next - 1], endToken) && c.items == tokens[idx..c.next - 1])
      && (!c.found ==> c.items == tokens[idx..])
    decreases |tokens| - idx
  {
    if idx < |tokens| && !SameKind(tokens[idx], endToken) {
      CaptureStopsAtFirstEnd(tokens, idx + 1, endToken);
      var c := Capture(tokens, idx + 1, endToken);
      assert tokens[idx..] == [tokens[idx]] + tokens[idx + 1..];
      assert c.found ==> tokens[idx..c.next - 1] == [tokens[idx]] + tokens[idx + 1..c.next - 1];
    }
  }

  /** A stream whose first token of the end token's kind is at j gathers exactly the tokens before j. */
  lemma {:induction false} CaptureUpTo(tokens: seq<Token>, idx: nat, j: nat, endToken: Token)
    requires idx <= j < |tokens| && SameKind(tokens[j], endToken)
    requires forall i :: idx <= i < j ==> !SameKind(tokens[i], endToken)
    ensures Capture(tokens, idx, endToken) == CaptureResult(tokens[idx..j], j + 1, true)
    decreases j - idx
  {
    if idx < j {
      CaptureUpTo(tokens, idx + 1, j, endToken);
      assert tokens[idx..j] == [tokens[idx]] + tokens[idx + 1..j];
    }
  }

  /** The stream loop's invariant: what is gathered so far, followed by what the rest gathers, is the whole stream. */
  ghost predicate Gathered(tokens: seq<Token>, idx: nat, next: nat, stream: seq<Token>, endToken: Token)
    requires idx <= next <= |tokens|
  {
    var c := Capture(tokens, next, endToken);
    Capture(tokens, idx, endToken) == CaptureResult(stream + c.items, c.next, c.found)
  }

  /** One turn of the stream loop on a token of another kind than the end token keeps the invariant. */
  lemma CaptureStep(tokens: seq<Token>, idx: nat, next: nat, stream: seq<Token>, endToken: Token)
    requires idx <= next < |tokens| && !SameKind(tokens[next], endToken)
    requires Gathered(tokens, idx, next, stream, endToken)
    ensures Gathered(tokens, idx, next + 1, stream + [tokens[next]], endToken)
  {
    var c := Capture(tokens, next + 1, endToken);
    assert Capture(tokens, next, endToken) == CaptureResult([tokens[next]] + c.items, c.next, c.found);
    assert stream + ([tokens[next]] + c.items) == (stream + [tokens[next]]) + c.items;
  }

  /** The stream loop of `ParseSteps::parse`, from cursor position idx; it computes exactly `Capture`. */
  method CaptureStream(tokens: seq<Token>, idx: nat, endToken: Token) returns (stream: seq<Token>, next: nat, found: bool)
    requires idx <= |tokens|
    ensures CaptureResult(stream, next, found) == Capture(tokens, idx, endToken)
  {
    found := false;
    stream := [];
    next := idx;
    assert [] + Capture(tokens, idx, endToken).items == Capture(tokens, idx, endToken).items;
    while next < |tokens|
      invariant idx <= next <= |tokens|
      invariant Gathered(tokens, idx, next, stream, endToken)
      decreases |tokens| - next
    {
      var t := tokens[next];
      if SameKind(t, endToken) {
        assert stream + [] == stream;
        next := next + 1;
        found := true;
        return;
      }
      CaptureStep(tokens, idx, next, stream, endToken);
      next := next + 1;
      stream := stream + [t];
    }
    assert stream + [] == stream;
  }

  /**
   * `ParseSteps::parse` from step list `steps` on, with the cursor at idx and the bindings so
   * far. A failure carries the cursor after the token that caused it, or the list length when
   * the tokens ran out.
   */
  function MatchFrom(steps: seq<Step>, tokens: seq<Token>, idx: nat, bindings: Bindings): (r: Result<Bindings, Failure>)
    requires idx <= |tokens|
    ensures r.Err? ==> idx <= r.error.1 <= |tokens|
    ensures r.Err? ==> r.error.0 == Generic(EndOfTokenStream) || r.error.0.UnexpectedToken?
    ensures r.Err? && r.error.0 == Generic(EndOfTokenStream) ==> r.error.1 == |tokens|
    ensures r.Err? && r.error.0.UnexpectedToken? ==>
      && idx < r.error.1
      && r.error.0.got == tokens[r.error.1 - 1]
      && !SameKind(r.error.0.got, r.error.0.expected)
    decreases |steps|
  {
    if steps == [] then Ok(bindings)
    else if idx == |tokens| then Err((Generic(EndOfTokenStream), idx))
    else
      var token := tokens[idx];
      match steps[0]
      case UnnamedStep(expected) =>
        if !SameKind(expected, token) then Err((UnexpectedToken(token, expected), idx + 1))
        else MatchFrom(steps[1..], tokens, idx + 1, bindings)
      case NamedStep(expected, name) =>
        if !SameKind(expected, token) then Err((UnexpectedToken(token, expected), idx + 1))
        else MatchFrom(steps[1..], tokens, idx + 1, bindings[name := token])
      case NamedStream(startToken, endToken, name) =>
        if !SameKind(token, startToken) then Err((UnexpectedToken(token, startToken), idx + 1))
        else
          var c := Capture(tokens, idx + 1, endToken);
          MatchFrom(steps[1..], tokens, c.next, if c.found then bindings[name := List(c.items)] else bindings)
  }

  /** A whole match: from the first token, with no bindings. */
  function Match(steps: seq<Step>, tokens: seq<Token>): Result<Bindings, Failure> {
    MatchFrom(steps, tokens, 0, map[])
  }

  /** A grammar, built step by step with the builder functions. */
  datatype ParseSteps = ParseSteps(steps: seq<Step>) {

    /** `ParseSteps::add_step`: appends one exact-tag step and keeps the earlier steps. */
    function AddStep(token: Token): (r: ParseSteps)
      ensures |r.steps| == |steps| + 1 && r.steps[..|steps|] == steps
      ensures r.steps[|steps|] == UnnamedStep(token)
    {
      ParseSteps(steps + [UnnamedStep(token)])
    }

    /** `ParseSteps::add_named_step`: appends one named exact-tag step and keeps the earlier steps. */
    function AddNamedStep(token: Token, name: string): (r: ParseSteps)
      ensures |r.steps| == |steps| + 1 && r.steps[..|steps|] == steps
      ensures r.steps[|steps|] == NamedStep(token, name)
    {
      ParseSteps(steps + [NamedStep(token, name)])
    }

    /** `ParseSteps::add_token_capture_stream`: appends one delimited-stream step and keeps the earlier steps. */
    function AddTokenCaptureStream(startToken: Token, endToken: Token, name: string): (r: ParseSteps)
      ensures |r.steps| == |steps| + 1 && r.steps[..|steps|] == steps
      ensures r.steps[|steps|] == NamedStream(startToken, endToken, name)
    {
      ParseSteps(steps + [NamedStream(startToken, endToken, name)])
    }

    /**
     * `ParseSteps::parse`: a `for` over the steps advancing one cursor, with an inner `while`
     * for streams; it computes exactly `Match`.
     */
    method Parse(tokens: seq<Token>) returns (r: Result<Bindings, Failure>)
      ensures r == Match(steps, tokens)
    {
      var bindings: Bindings := map[];
      var tokenIdx: nat := 0;
      assert steps[0..] == steps;
      for k := 0 to |steps|
        invariant tokenIdx <= |tokens|
        invariant Match(steps, tokens) == MatchFrom(steps[k..], tokens, tokenIdx, bindings)
      {
        assert steps[k..][0] == steps[k] && steps[k..][1..] == steps[k + 1..];
        if tokenIdx == |tokens| {
          return Err((Generic(EndOfTokenStream), tokenIdx));
        }
        var token := tokens[tokenIdx];
        tokenIdx := tokenIdx + 1;
        match steps[k]
        case UnnamedStep(expected) =>
          if !SameKind(expected, token) {
            return Err((UnexpectedToken(token, expected), tokenIdx));
          }
        case NamedStep(expected, name) =>
          if !SameKind(expected, token) {
            return Err((UnexpectedToken(token, expected), tokenIdx));
          }
          bindings := bindings[name := token];
        case NamedStream(startToken, endToken, name) =>
          if !SameKind(token, startToken) {
            return Err((UnexpectedToken(token, startToken), tokenIdx));
          }
          var stream, found;
          stream, tokenIdx, found := CaptureStream(tokens, tokenIdx, endToken);
          if found {
            bindings := bindings[name := List(stream)];
          }
      }
      assert steps[|steps|..] == [];
      r := Ok(bindings);
    }
  }

  // ---------------------------------------------------------------------------
  // Properties of the matcher
  // ---------------------------------------------------------------------------

  /** Two steps that differ at most in the payloads of their tokens. */
  predicate SameShape(a: Step, b: Step) {
    match a
    case UnnamedStep(t) => b.UnnamedStep? && SameKind(t, b.token)
    case NamedStep(t, n) => b.NamedStep? && SameKind(t, b.token) && n == b.name
    case NamedStream(s, e, n) => b.NamedStream? && SameKind(s, b.startToken) && SameKind(e, b.endToken) && n == b.name
  }

  /** The stream loop looks only at the kind of its end token. */
  lemma {:induction false} CaptureUpToKind(tokens: seq<Token>, idx: nat, e1: Token, e2: Token)
    requires idx <= |tokens| && SameKind(e1, e2)
    ensures Capture(tokens, idx, e1) == Capture(tokens, idx, e2)
    decreases |tokens| - idx
  {
    if idx < |tokens| && !SameKind(tokens[idx], e1) {
      CaptureUpToKind(tokens, idx + 1, e1, e2);
    }
  }

  /**
   * Two match results agree on success and bindings; failures agree on the position and on the
   * error up to token payloads: the same variant, the same offending token, and an expected
   * token of the same kind.
   */
  predicate Agree(r1: Result<Bindings, Failure>, r2: Result<Bindings, Failure>) {
    && r1.Ok? == r2.Ok?
    && (r1.Ok? ==> r1 == r2)
    && (r1.Err? ==> r2.Err? && r1.error.1 == r2.error.1)
    && (r1.Err? ==> r1.error.0.UnexpectedToken? == r2.error.0.UnexpectedToken?)
    && (r1.Err? && r1.error.0.UnexpectedToken? ==>
          r1.error.0.got == r2.error.0.got && SameKind(r1.error.0.expected, r2.error.0.expected))
    && (r1.Err? && !r1.error.0.UnexpectedToken? ==> r1.error.0 == r2.error.0)
  }

  /**
   * Steps compare variant tags only: grammars whose steps differ only in token payloads succeed
   * on the same token lists with the same bindings, and fail at the same position with the same
   * error up to the payload of the expected token.
   */
  lemma {:induction false} MatchUpToKinds(steps1: seq<Step>, steps2: seq<Step>, tokens: seq<Token>, idx: nat, bindings: Bindings)
    requires idx <= |tokens|
    requires |steps1| == |steps2| && forall i :: 0 <= i < |steps1| ==> SameShape(steps1[i], steps2[i])
    ensures Agree(MatchFrom(steps1, tokens, idx, bindings), MatchFrom(steps2, tokens, idx, bindings))
    decreases |steps1|, 1
  {
    if steps1 != [] && idx < |tokens| {
      assert SameShape(steps1[0], steps2[0]);
      assert forall i :: 0 <= i < |steps1| - 1 ==> steps1[1..][i] == steps1[i + 1] && steps2[1..][i] == steps2[i + 1];
      var token := tokens[idx];
      match steps1[0]
      case UnnamedStep(_) =>
        MatchUpToKinds(steps1[1..], steps2[1..], tokens, idx + 1, bindings);
      case NamedStep(_, name) =>
        MatchUpToKinds(steps1[1..], steps2[1..], tokens, idx + 1, bindings[name := token]);
      case NamedStream(_, _, _) =>
        StreamUpToKinds(steps1, steps2, tokens, idx, bindings);
    }
  }

  lemma {:induction false} StreamUpToKinds(steps1: seq<Step>, steps2: seq<Step>, tokens: seq<Token>, idx: nat, bindings: Bindings)
    requires idx < |tokens| && steps1 != [] && steps1[0].NamedStream?
    requires |steps1| == |steps2| && forall i :: 0 <= i < |steps1| ==> SameShape(steps1[i], steps2[i])
    requires forall i :: 0 <= i < |steps1| - 1 ==> SameShape(steps1[1..][i], steps2[1..][i])
    ensures Agree(MatchFrom(steps1, tokens, idx, bindings), MatchFrom(steps2, tokens, idx, bindings))
    decreases |steps1|, 0
  {
    assert SameShape(steps1[0], steps2[0]);
    var e1, e2, name := steps1[0].endToken, steps2[0].endToken, steps1[0].name;
    CaptureUpToKind(tokens, idx + 1, e1, e2);
    var c := Capture(tokens, idx + 1, e1);
    if SameKind(tokens[idx], steps1[0].startToken) {
      MatchUpToKinds(steps1[1..], steps2[1..], tokens, c.next, if c.found then bindings[name := List(c.items)] else bindings);
    }
  }

  /** A step with Identifier("_") accepts any identifier, and a named one binds the identifier actually seen. */
  lemma IdentifierStepAcceptsAnyName(name: string, text: string, bindings: Bindings)
    ensures MatchFrom([NamedStep(Identifier("_"), name)], [Identifier(text)], 0, bindings) == Ok(bindings[name := Identifier(text)])
  {
    assert [NamedStep(Identifier("_"), name)][1..] == [];
  }

  /**
   * An unterminated stream binds nothing and leaves the cursor at the end of the list: the match
   * then succeeds without the binding when the stream is the last step, and fails with
   * end-of-stream at the list length otherwise.
   */
  lemma UnterminatedStream(steps: seq<Step>, tokens: seq<Token>, idx: nat, bindings: Bindings)
    requires idx < |tokens| && steps != [] && steps[0].NamedStream?
    requires SameKind(tokens[idx], steps[0].startToken)
    requires forall i :: idx < i < |tokens| ==> !SameKind(tokens[i], steps[0].endToken)
    ensures |steps| == 1 ==> MatchFrom(steps, tokens, idx, bindings) == Ok(bindings)
    ensures |steps| > 1 ==> MatchFrom(steps, tokens, idx, bindings) == Err((Generic(EndOfTokenStream), |tokens|))
  {
    CaptureStopsAtFirstEnd(tokens, idx + 1, steps[0].endToken);
    if |steps| == 1 {
      assert steps[1..] == [];
    }
  }

  /** A stream that found its end token stays the same when more tokens are appended. */
  lemma {:induction false} CaptureExtend(tokens: seq<Token>, extra: seq<Token>, idx: nat, endToken: Token)
    requires idx <= |tokens| && Capture(tokens, idx, endToken).found
    ensures Capture(tokens + extra, idx, endToken) == Capture(tokens, idx, endToken)
    decreases |tokens| - idx
  {
    assert (tokens + extra)[idx] == tokens[idx];
    if !SameKind(tokens[idx], endToken) {
      CaptureExtend(tokens, extra, idx + 1, endToken);
    }
  }

  /**
   * Success does not depend on tokens after the match: when the last step is not a stream,
   * appending tokens to a list the grammar accepts leaves the bindings as they were.
   */
  lemma {:induction false} TrailingTokensIgnored(steps: seq<Step>, tokens: seq<Token>, extra: seq<Token>, idx: nat, bindings: Bindings)
    requires idx <= |tokens|
    requires steps != [] ==> !steps[|steps| - 1].NamedStream?
    requires MatchFrom(steps, tokens, idx, bindings).Ok?
    ensures MatchFrom(steps, tokens + extra, idx, bindings) == MatchFrom(steps, tokens, idx, bindings)
    decreases |steps|
  {
    if steps != [] {
      assert (tokens + extra)[idx] == tokens[idx];
      var token := tokens[idx];
      assert steps[1..] != [] ==> steps[1..][|steps[1..]| - 1] == steps[|steps| - 1];
      match steps[0]
      case UnnamedStep(_) =>
        TrailingTokensIgnored(steps[1..], tokens, extra, idx + 1, bindings);
      case NamedStep(_, name) =>
        TrailingTokensIgnored(steps[1..], tokens, extra, idx + 1, bindings[name := token]);
      case NamedStream(_, e, name) =>
        var c := Capture(tokens, idx + 1, e);
        assert |steps| > 1;
        CaptureExtend(tokens, extra, idx + 1, e);
        TrailingTokensIgnored(steps[1..], tokens, extra, c.next, bindings[name := List(c.items)]);
    }
  }
}
