/** `DbErr` of src/errors.rs and the fixed messages the core puts into it. */
module Errors {
  import opened Tokens

  /**
   * Generic, TableAlreadyExists and TableNotExists are the Rust variants.
   * UnexpectedToken stands for the Generic error whose message is the Debug rendering
   * "Unexpected token, got .., expected ..". IndexOutOfBounds stands for the panic of an
   * out-of-range index; the Rust program aborts there instead of returning.
   */
  datatype DbErr =
    | Generic(message: string)
    | TableAlreadyExists
    | TableNotExists
    | UnexpectedToken(got: Token, expected: Token)
    | IndexOutOfBounds(index: nat, length: nat)

  const UnableToParse := "Unable to parse"
  const EndOfTokenStream := "Unexpected end of token stream"
  const UnknownError := "Unknown error"
  const LexFailure := "test"
  const NotDoneYet := "Not done yet"
  const BadNameParam := "Bad name param"
  const BadTableDescription := "Bad table description provided"
  const UnexpectedItem := "Unexpected item where , or nothing was expected"
  const UnexpectedParsingError := "Unexpected parsing error"
  const Done := "Done"
}
