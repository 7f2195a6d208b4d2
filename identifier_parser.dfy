/**
 * The keyword-or-identifier recogniser of src/tokenizer/identifier_parser.rs: it strips
 * the longest prefix of the form [A-Za-z_][A-Za-z0-9_]* and looks its lower-case form
 * up in a keyword table.
 */
module IdentifierParsing {
  import opened Wrappers
  import opened Text
  import opened Tokens

  predicate IsIdentifierStart(c: char) {
    'a' <= c <= 'z' || 'A' <= c <= 'Z' || c == '_'
  }

  predicate IsIdentifierChar(c: char) {
    IsIdentifierStart(c) || '0' <= c <= '9'
  }

  /** The words of the pattern [A-Za-z_][A-Za-z0-9_]*. */
  predicate IsIdentifier(w: string) {
    |w| > 0 && IsIdentifierStart(w[0]) && forall i :: 1 <= i < |w| ==> IsIdentifierChar(w[i])
  }

  /** Length of the run of identifier characters that starts s. */
  function IdentifierCharRun(s: string): (n: nat)
    ensures n <= |s|
    ensures forall i :: 0 <= i < n ==> IsIdentifierChar(s[i])
    ensures n == |s| || !IsIdentifierChar(s[n])
  {
    if s == [] || !IsIdentifierChar(s[0]) then 0 else 1 + IdentifierCharRun(s[1..])
  }

  /** Length of what the anchored pattern ^[a-zA-Z_][a-zA-Z0-9_]* finds at the start of s; 0 for no match. */
  function MatchLength(s: string): (n: nat)
    ensures n <= |s|
    ensures n == 0 <==> (s == [] || !IsIdentifierStart(s[0]))
    ensures n > 0 ==> IsIdentifier(s[..n]) && (n == |s| || !IsIdentifierChar(s[n]))
  {
    if s != [] && IsIdentifierStart(s[0]) then 1 + IdentifierCharRun(s[1..]) else 0
  }

  /** No prefix longer than the match is an identifier: the match is the longest one. */
  lemma MatchIsLongest(s: string, m: nat)
    requires MatchLength(s) < m <= |s|
    ensures !IsIdentifier(s[..m])
  {
    var n := MatchLength(s);
    if n > 0 {
      assert s[..m][n] == s[n];
    } else {
      assert s[..m][0] == s[0];
    }
  }

  /** The match on a word followed by a non-identifier character is exactly that word. */
  lemma {:induction false} MatchLengthOfWord(w: string, rest: string)
    requires IsIdentifier(w)
    requires rest == [] || !IsIdentifierChar(rest[0])
    ensures MatchLength(w + rest) == |w|
  {
    RunOfIdentifierChars(w[1..], rest);
    assert (w + rest)[1..] == w[1..] + rest;
  }

  lemma {:induction false} RunOfIdentifierChars(u: string, rest: string)
    requires forall i :: 0 <= i < |u| ==> IsIdentifierChar(u[i])
    requires rest == [] || !IsIdentifierChar(rest[0])
    ensures IdentifierCharRun(u + rest) == |u|
  {
    if u == [] {
      assert u + rest == rest;
    } else {
      RunOfIdentifierChars(u[1..], rest);
      assert (u + rest)[1..] == u[1..] + rest;
    }
  }

  /** The token for a matched word: its keyword if the lower-case word is mapped, else an Identifier in the original case. */
  function WordToken(tokenMapping: map<string, Token>, word: string): (t: Token)
    ensures t == Identifier(word) || t in tokenMapping.Values
    ensures ToLower(word) !in tokenMapping ==> t == Identifier(word)
  {
    var key := ToLower(word);
    if key in tokenMapping then tokenMapping[key] else Identifier(word)
  }

  /**
   * `IdentifierParser::parse_skip`: on a match, the token and the input with the match removed;
   * without one, None (the input is then left as it was).
   */
  function ScanIdentifier(tokenMapping: map<string, Token>, input: string): (r: Option<(Token, string)>)
    ensures r.None? <==> (input == [] || !IsIdentifierStart(input[0]))
    ensures r.Some? ==> |r.value.1| < |input|
    ensures r.Some? ==>
      var rest := r.value.1;
      var word := input[..|input| - |rest|];
      && input == word + rest
      && IsIdentifier(word)
      && (rest == [] || !IsIdentifierChar(rest[0]))
      && r.value.0 == WordToken(tokenMapping, word)
  {
    var n := MatchLength(input);
    if n == 0 then None
    else
      assert input == input[..n] + input[n..];
      Some((WordToken(tokenMapping, input[..n]), input[n..]))
  }

  /** Scanning a word followed by a non-identifier character yields the word's token and exactly the rest. */
  lemma ScanWord(tokenMapping: map<string, Token>, word: string, rest: string)
    requires IsIdentifier(word)
    requires rest == [] || !IsIdentifierChar(rest[0])
    ensures ScanIdentifier(tokenMapping, word + rest) == Some((WordToken(tokenMapping, word), rest))
  {
    MatchLengthOfWord(word, rest);
    assert (word + rest)[..|word|] == word;
    assert (word + rest)[|word|..] == rest;
  }

  /** Keyword lookup ignores case: two spellings of a mapped keyword give the same token. */
  lemma KeywordsIgnoreCase(tokenMapping: map<string, Token>, w1: string, w2: string)
    requires ToLower(w1) == ToLower(w2) && ToLower(w1) in tokenMapping
    ensures WordToken(tokenMapping, w1) == WordToken(tokenMapping, w2) == tokenMapping[ToLower(w1)]
  {
  }

  /** The recogniser object: a keyword table that `add_token_mapping` fills in place. */
  class IdentifierParser {
    var tokenMapping: map<string, Token>

    constructor ()
      ensures tokenMapping == map[]
    {
      tokenMapping := map[];
    }

    /** Maps the lower-case form of identifier to tokenType, overwriting an earlier mapping of that key; other keys keep their tokens. */
    method AddTokenMapping(identifier: string, tokenType: Token)
      modifies this
      ensures tokenMapping == old(tokenMapping)[ToLower(identifier) := tokenType]
    {
      tokenMapping := tokenMapping[ToLower(identifier) := tokenType];
    }
  }

  // The cases of identifier_parser.rs's tests, with the keyword table its with_token_mapping test builds.

  /** "CREATE" and "CREATE EGGS" both give Create; the space and what follows it are left. */
  lemma ScanMappedCreate()
    ensures ScanIdentifier(map["create" := Create, "table" := Table], "CREATE") == Some((Create, ""))
    ensures ScanIdentifier(map["create" := Create, "table" := Table], "CREATE EGGS") == Some((Create, " EGGS"))
  {
    var m := map["create" := Create, "table" := Table];
    assert ToLower("CREATE") == "create" by { assert ToLowerChar('C') == 'c'; }
    assert IsIdentifier("CREATE");
    ScanWord(m, "CREATE", "");
    ScanWord(m, "CREATE", " EGGS");
    assert "CREATE" + "" == "CREATE";
    assert "CREATE" + " EGGS" == "CREATE EGGS";
  }

  /** "TABLE EGGS" gives Table. */
  lemma ScanMappedUpperTable()
    ensures ScanIdentifier(map["create" := Create, "table" := Table], "TABLE EGGS") == Some((Table, " EGGS"))
  {
    assert ToLower("TABLE") == "table" by { assert ToLowerChar('T') == 't'; }
    assert IsIdentifier("TABLE");
    ScanWord(map["create" := Create, "table" := Table], "TABLE", " EGGS");
    assert "TABLE" + " EGGS" == "TABLE EGGS";
  }

  /** "table EGGS" gives Table as well. */
  lemma ScanMappedLowerTable()
    ensures ScanIdentifier(map["create" := Create, "table" := Table], "table EGGS") == Some((Table, " EGGS"))
  {
    assert ToLower("table") == "table";
    assert IsIdentifier("table");
    ScanWord(map["create" := Create, "table" := Table], "table", " EGGS");
    assert "table" + " EGGS" == "table EGGS";
  }

  /** Text that starts with a digit or a sign is not an identifier. */
  /** A parser without keyword mappings turns every identifier into an `Identifier` of itself, consuming all of it. */
  lemma ScanUnmapped(w: string)
    requires IsIdentifier(w)
    ensures ScanIdentifier(map[], w) == Some((Identifier(w), ""))
  {
    ScanWord(map[], w, "");
    assert w + "" == w;
  }

  /** A plain word, with no keywords mapped, is an identifier of itself. */
  lemma ScanPlainWord()
    ensures ScanIdentifier(map[], "MYSTRINGIDENTIFIER") == Some((Identifier("MYSTRINGIDENTIFIER"), ""))
  {
    ScanUnmapped("MYSTRINGIDENTIFIER");
  }

  /** Underscores may start a word, end it, or be all of it. */
  lemma ScanUnderscores()
    ensures ScanIdentifier(map[], "my_str") == Some((Identifier("my_str"), ""))
    ensures ScanIdentifier(map[], "_egg") == Some((Identifier("_egg"), ""))
    ensures ScanIdentifier(map[], "_") == Some((Identifier("_"), ""))
  {
    ScanUnmapped("my_str");
    ScanUnmapped("_egg");
    ScanUnmapped("_");
  }

  /** Digits may follow the first character. */
  lemma ScanDigits()
    ensures ScanIdentifier(map[], "hi1") == Some((Identifier("hi1"), ""))
    ensures ScanIdentifier(map[], "h_32") == Some((Identifier("h_32"), ""))
  {
    ScanUnmapped("hi1");
    ScanUnmapped("h_32");
  }

  lemma ScanRejectsNonLetters()
    ensures ScanIdentifier(map[], "123_hello") == None
    ensures ScanIdentifier(map[], "+932") == None
  {
  }

  /** "Table_" is a word of its own, not the keyword "table" followed by more text. */
  lemma ScanKeywordWithSuffix()
    ensures ScanIdentifier(map["table" := Table], "Table_") == Some((Identifier("Table_"), ""))
  {
    assert ToLower("Table_") == "table_" by { assert ToLowerChar('T') == 't'; }
    assert IsIdentifier("Table_");
    ScanWord(map["table" := Table], "Table_", "");
    assert "Table_" + "" == "Table_";
  }
}
