/** The lexer's output unit, `Token` in src/tokenizer/mod.rs. */
module Tokens {

  datatype Token =
    | Create
    | Delete
    | Table
    | Comma
    | OpenBracket
    | CloseBracket
    | SemiColon
    | Identifier(text: string)
    | List(items: seq<Token>)

  /** The variant of a token with its payload ignored, as `mem::discriminant` gives it. */
  function Discriminant(t: Token): nat {
    match t
    case Create => 0
    case Delete => 1
    case Table => 2
    case Comma => 3
    case OpenBracket => 4
    case CloseBracket => 5
    case SemiColon => 6
    case Identifier(_) => 7
    case List(_) => 8
  }

  /** Two tokens are of the same kind when their variants agree, whatever their payloads. */
  predicate SameKind(a: Token, b: Token) {
    Discriminant(a) == Discriminant(b)
  }

  /** Same kind means same variant: the payloads of `Identifier` and `List` play no part. */
  lemma SameKindIsSameVariant(a: Token, b: Token)
    ensures SameKind(a, b) <==>
      || (a.Create? && b.Create?) || (a.Delete? && b.Delete?) || (a.Table? && b.Table?)
      || (a.Comma? && b.Comma?) || (a.OpenBracket? && b.OpenBracket?) || (a.CloseBracket? && b.CloseBracket?)
      || (a.SemiColon? && b.SemiColon?) || (a.Identifier? && b.Identifier?) || (a.List? && b.List?)
  {
  }
}
