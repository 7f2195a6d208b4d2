/** The literal recogniser of src/tokenizer/simple_parser.rs, used for `,` `(` `)` `;`. */
module SimpleParsing {
  import opened Wrappers
  import opened Text
  import opened Tokens

  datatype SimpleParser = SimpleParser(searchString: string, resultToken: Token) {

    /**
     * `parse_skip`: when the lower-cased input starts with the search string, removes that
     * many leading characters and yields the configured token; otherwise None, input untouched.
     */
    function ParseSkip(input: string): (r: Option<(Token, string)>)
      ensures r.Some? <==> |searchString| <= |input| && ToLower(input[..|searchString|]) == searchString
      ensures r.Some? ==> r.value.0 == resultToken && input == input[..|searchString|] + r.value.1
    {
      if searchString <= ToLower(input) then
        assert ToLower(input[..|searchString|]) == ToLower(input)[..|searchString|];
        assert input == input[..|searchString|] + input[|searchString|..];
        Some((resultToken, input[|searchString|..]))
      else
        assert |searchString| <= |input| ==> ToLower(input[..|searchString|]) == ToLower(input)[..|searchString|];
        None
    }
  }

  /** Matching depends on the input only up to case. */
  lemma CaseInsensitive(p: SimpleParser, a: string, b: string)
    requires ToLower(a) == ToLower(b)
    ensures p.ParseSkip(a).Some? <==> p.ParseSkip(b).Some?
  {
    if |p.searchString| <= |a| {
      assert ToLower(a[..|p.searchString|]) == ToLower(a)[..|p.searchString|];
      assert ToLower(b[..|p.searchString|]) == ToLower(b)[..|p.searchString|];
    }
  }

  /** A prefix that folds to the search string is stripped, whatever follows it. */
  lemma MatchesFoldedPrefix(p: SimpleParser, w: string, rest: string)
    requires ToLower(w) == p.searchString
    ensures p.ParseSkip(w + rest) == Some((p.resultToken, rest))
  {
    assert (w + rest)[..|w|] == w;
    assert (w + rest)[|w|..] == rest;
  }

  /** An input whose first character does not fold to the search string's first character is not matched. */
  lemma FirstCharacterDecides(p: SimpleParser, input: string)
    requires p.searchString != [] && input != []
    requires ToLowerChar(input[0]) != p.searchString[0]
    ensures p.ParseSkip(input) == None
  {
    if |p.searchString| <= |input| {
      assert ToLower(input[..|p.searchString|])[0] == ToLowerChar(input[0]);
    }
  }

  /** simple_parser.rs's first test, lower-case input. */
  lemma MatchesLowerCase()
    ensures SimpleParser("create", Create).ParseSkip("create EGGS") == Some((Create, " EGGS"))
  {
    assert ToLower("create") == "create";
    MatchesFoldedPrefix(SimpleParser("create", Create), "create", " EGGS");
    assert "create EGGS" == "create" + " EGGS";
  }

  /** simple_parser.rs's first test, upper-case input, with and without a remainder. */
  lemma MatchesUpperCase()
    ensures SimpleParser("create", Create).ParseSkip("CREATE something") == Some((Create, " something"))
    ensures SimpleParser("create", Create).ParseSkip("CREATE") == Some((Create, ""))
  {
    var p := SimpleParser("create", Create);
    assert ToLower("CREATE") == "create" by { assert ToLowerChar('C') == 'c'; }
    MatchesFoldedPrefix(p, "CREATE", " something");
    assert "CREATE something" == "CREATE" + " something";
    MatchesFoldedPrefix(p, "CREATE", "");
    assert "CREATE" == "CREATE" + "";
  }

  /** The failing cases of simple_parser.rs's tests: the literal must be a prefix. */
  lemma CreateMustBePrefix()
    ensures SimpleParser("create", Create).ParseSkip("12create") == None
    ensures SimpleParser("create", Create).ParseSkip("12create12") == None
    ensures SimpleParser("create", Create).ParseSkip("12CREATE1") == None
  {
    var p := SimpleParser("create", Create);
    FirstCharacterDecides(p, "12create");
    FirstCharacterDecides(p, "12create12");
    FirstCharacterDecides(p, "12CREATE1");
  }
}
