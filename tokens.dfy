/**
 * Tokens as the lexer produces them and the parser consumes them.
 *
 * The token kinds are those the lexer and the parser actually use; the
 * enumeration in token.h predates several of them (if, else, while, '->',
 * ':=', '**', or, and, not, angleOf), which are included here.
 */
module Tokens {

  datatype TokenType =
    // single characters
    | LeftParen | RightParen | LeftBrace | RightBrace | LeftBracket | RightBracket
    | Dot | Comma | Newline
    | Equal | Bang | Less | Greater | Plus | Minus | Star | Slash
    | J
    // two characters
    | EqualEqual | BangEqual | LessEqual | GreaterEqual | ColonEqual | StarStar | Arrow
    // literals and names
    | True | False
    | Identifier | NumberLiteral | ImNumberLiteral | StringLiteral
    // keywords
    | Output | Input | Return | Polar | Re | Im | Mag | AngleOf | Pi | Euler
    | If | Else | While | Or | And | Not
    | EOF

  /** A token: its kind, its text, and the line and column the lexer was at when it emitted it. */
  datatype Token = Token(kind: TokenType, lexeme: string, line: nat, column: nat)

  /**
   * The kind a keyword table yields for a lexeme: a missing key reads as the
   * enumeration's first value (value 0, LeftParen), which the lexer takes to
   * mean "not a keyword".
   */
  function KeywordKind(table: map<string, TokenType>, lexeme: string): (k: TokenType)
    ensures lexeme !in table ==> k == LeftParen
    ensures lexeme in table ==> k == table[lexeme]
  {
    if lexeme in table then table[lexeme] else LeftParen
  }

  /** The keyword table of token.h. */
  const DefaultKeywords: map<string, TokenType> :=
    map["true" := True, "false" := False, "output" := Output, "input" := Input,
        "return" := Return, "polar" := Polar, "re" := Re, "im" := Im,
        "mag" := Mag, "pi" := Pi, "euler" := Euler]
}
