/**
 * The character scanner of lexer.cpp: a cursor over the source text, the
 * line and column it is at, the tokens emitted so far and the hadError
 * flag. Every method is proved to leave the lexer exactly as the
 * corresponding function of LexerSpec says.
 */
module Lexing {

  import opened Errors
  import opened Tokens
  import opened Scanning
  import opened LexerSpec

  class Lexer {
    const source: string
    const keywords: map<string, TokenType>
    var tokens: seq<Token>
    var startPosition: nat
    var currentPosition: nat
    var line: nat
    var column: nat
    var hadError: bool

    ghost predicate Valid()
      reads this
    {
      startPosition <= currentPosition <= |source|
    }

    /** The fields lexing changes, as the specification's state. */
    ghost function State(): LexState
      reads this
    {
      LexState(tokens, currentPosition, line, column, hadError)
    }

    /** The fields as lexer.h initialises them; the constructor's call of lexTokens is Tokenize's. */
    constructor (source: string, keywords: map<string, TokenType>)
      ensures Valid() && this.source == source && this.keywords == keywords
      ensures State() == Initial && startPosition == 0
    {
      this.source := source;
      this.keywords := keywords;
      tokens := [];
      startPosition := 0;
      currentPosition := 0;
      line := 1;
      column := 0;
      hadError := false;
    }

    /** getTokens */
    function GetTokens(): seq<Token>
      reads this
    {
      tokens
    }

    /** safeToParse: no lexical error was reported. */
    predicate SafeToParse()
      reads this
    {
      !hadError
    }

    /** isAtEnd */
    predicate IsAtEnd()
      reads this
    {
      currentPosition >= |source|
    }

    /** peek(n): the character n - 1 places ahead, or '\0' past the end. */
    function Peek(n: nat): char
      reads this
      requires n >= 1
    {
      CharAt(source, currentPosition + n - 1)
    }

    /**
     * advance: reads the next character. It is only called where one is
     * left; the one call that may run past the end is guarded by its caller.
     */
    method Advance() returns (c: char)
      requires Valid() && currentPosition < |source|
      modifies this
      ensures Valid() && startPosition == old(startPosition)
      ensures State() == Skip(old(State()), 1)
      ensures c == source[old(currentPosition)]
    {
      currentPosition := currentPosition + 1;
      column := column + 1;
      c := source[currentPosition - 1];
    }

    /** match: reads the next character exactly when it is the expected one. */
    method Match(expected: char) returns (matched: bool)
      requires Valid()
      modifies this
      ensures Valid() && startPosition == old(startPosition)
      ensures matched == (old(currentPosition) < |source| && source[old(currentPosition)] == expected)
      ensures State() == if matched then Skip(old(State()), 1) else old(State())
    {
      if IsAtEnd() || source[currentPosition] != expected {
        return false;
      }
      currentPosition := currentPosition + 1;
      column := column + 1;
      return true;
    }

    /** addToken */
    method AddToken(kind: TokenType, lexeme: string)
      modifies this
      ensures State() == Emit(old(State()), kind, lexeme)
      ensures startPosition == old(startPosition)
    {
      tokens := tokens + [Token(kind, lexeme, line, column)];
    }

    /** nextLine */
    method NextLine()
      modifies this
      ensures State() == old(State()).(line := old(line) + 1, column := 0)
      ensures startPosition == old(startPosition)
    {
      line := line + 1;
      column := 0;
    }

    /** The loop `while (isDigit(peek(1))) advance();`. */
    method SkipDigits()
      requires Valid()
      modifies this
      ensures Valid() && startPosition == old(startPosition)
      ensures State() == Skip(old(State()), DigitRun(source, old(currentPosition)) - old(currentPosition))
    {
      while IsDigit(Peek(1))
        invariant Valid() && startPosition == old(startPosition)
        invariant old(currentPosition) <= currentPosition <= DigitRun(source, old(currentPosition))
        invariant DigitRun(source, currentPosition) == DigitRun(source, old(currentPosition))
        invariant State() == Skip(old(State()), currentPosition - old(currentPosition))
        decreases |source| - currentPosition
      {
        var _ := Advance();
      }
    }

    /** The digits, then '.' and more digits only when a digit follows the '.'. */
    method SkipNumber()
      requires Valid()
      modifies this
      ensures Valid() && startPosition == old(startPosition)
      ensures State() == Skip(old(State()), NumberEnd(source, old(currentPosition)) - old(currentPosition))
    {
      SkipDigits();
      if Peek(1) == '.' && IsDigit(Peek(2)) {
        var _ := Advance();
        SkipDigits();
      }
    }

    /** number: a real number literal whose first digit has been read. */
    method Number()
      requires Valid() && currentPosition == startPosition + 1
      modifies this
      ensures Valid() && startPosition == old(startPosition)
      ensures State() == NumberScan(source, startPosition, old(State()))
    {
      SkipNumber();
      AddToken(NumberLiteral, source[startPosition..currentPosition]);
    }

    /**
     * imNumber as its comments describe it: an optional '-', then a number,
     * with the 'j' (already read) left out of the lexeme. The code as
     * written reads one character too many first and cuts the lexeme one
     * character too long; that is ImNumberAsWritten.
     */
    method ImNumber()
      requires Valid() && currentPosition == startPosition + 1
      modifies this
      ensures Valid() && startPosition == old(startPosition)
      ensures State() == ImNumberScan(source, startPosition, old(State()))
    {
      SkipImNumber();
      AddToken(ImNumberLiteral, source[startPosition + 1..currentPosition]);
    }

    /** The scan both versions of imNumber share: an optional '-', then a number. */
    method SkipImNumber()
      requires Valid()
      modifies this
      ensures Valid() && startPosition == old(startPosition)
      ensures State() == Skip(old(State()), ImNumberEnd(source, old(currentPosition)) - old(currentPosition))
    {
      var _ := Match('-');
      SkipNumber();
    }

    /**
     * imNumber as written: the extra advance "to consume the 'j'" reads the
     * character after it, then an optional '-' and a number follow, and the
     * lexeme is substr(start + 1, current - start). Lexer.LexToken calls the
     * corrected ImNumber instead.
     */
    method ImNumberAsWritten()
      requires Valid() && currentPosition == startPosition + 1 && currentPosition < |source|
      modifies this
      ensures Valid() && startPosition == old(startPosition)
      ensures State() == ImNumberScanAsWritten(source, startPosition, old(State()))
    {
      SkipImNumberAsWritten();
      AddImNumberAsWritten();
    }

    /** The scan as written: one more advance, then an optional '-' and a number. */
    method SkipImNumberAsWritten()
      requires Valid() && currentPosition < |source|
      modifies this
      ensures Valid() && startPosition == old(startPosition)
      ensures State() == Skip(old(State()), ImNumberEndAsWritten(source, old(currentPosition)) - old(currentPosition))
    {
      ImNumberEndOneLate(source, currentPosition);
      var _ := Advance();
      SkipImNumber();
    }

    /** The token imNumber adds: substr(start + 1, current - start), clamped at the end of the text. */
    method AddImNumberAsWritten()
      requires Valid() && startPosition + 1 < |source|
      requires currentPosition == ImNumberEndAsWritten(source, startPosition + 1)
      modifies this
      ensures Valid() && startPosition == old(startPosition)
      ensures State() == Emit(old(State()), ImNumberLiteral, ImNumberLexemeAsWritten(source, startPosition))
    {
      var length := currentPosition - startPosition;
      var stop := if startPosition + 1 + length <= |source| then startPosition + 1 + length else |source|;
      AddToken(ImNumberLiteral, source[startPosition + 1..stop]);
    }

    /** The loop of identifier: letters, digits and '_'. */
    method SkipIdentifierChars()
      requires Valid()
      modifies this
      ensures Valid() && startPosition == old(startPosition)
      ensures State() == Skip(old(State()), IdentifierEnd(source, old(currentPosition)) - old(currentPosition))
    {
      while IsDigit(Peek(1)) || IsChar(Peek(1))
        invariant Valid() && startPosition == old(startPosition)
        invariant old(currentPosition) <= currentPosition <= IdentifierEnd(source, old(currentPosition))
        invariant IdentifierEnd(source, currentPosition) == IdentifierEnd(source, old(currentPosition))
        invariant State() == Skip(old(State()), currentPosition - old(currentPosition))
        decreases |source| - currentPosition
      {
        var _ := Advance();
      }
    }

    /** identifier: the name, then a lookup in the keyword table. */
    method Identifier()
      requires Valid() && currentPosition == startPosition + 1
      modifies this
      ensures Valid() && startPosition == old(startPosition)
      ensures State() == IdentifierScan(source, keywords, startPosition, old(State()))
    {
      SkipIdentifierChars();
      var lexeme := source[startPosition..currentPosition];
      var kind := KeywordKind(keywords, lexeme);
      if kind != LeftParen {
        AddToken(kind, lexeme);
      } else {
        AddToken(Tokens.Identifier, lexeme);
      }
    }

    /** A '#' comment: everything up to, and not including, the next line break. */
    method Comment()
      requires Valid()
      modifies this
      ensures Valid() && startPosition == old(startPosition)
      ensures State() == CommentScan(source, old(State()))
    {
      while Peek(1) != '\n' && !IsAtEnd()
        invariant Valid() && startPosition == old(startPosition)
        invariant old(currentPosition) <= currentPosition <= Find(source, old(currentPosition), '\n')
        invariant Find(source, currentPosition, '\n') == Find(source, old(currentPosition), '\n')
        invariant State() == Skip(old(State()), currentPosition - old(currentPosition))
        decreases |source| - currentPosition
      {
        var _ := Advance();
      }
    }

    /** The loop of stringLiteral: up to the closing quote or the end, counting line breaks. */
    method StringBody()
      requires Valid()
      modifies this
      ensures Valid() && startPosition == old(startPosition)
      ensures State() == Walk(source, Find(source, old(currentPosition), '"'), old(State()))
    {
      ghost var e := Find(source, currentPosition, '"');
      while Peek(1) != '"' && !IsAtEnd()
        invariant Valid() && startPosition == old(startPosition)
        invariant currentPosition <= e == Find(source, currentPosition, '"')
        invariant Walk(source, e, State()) == Walk(source, e, old(State()))
        decreases |source| - currentPosition
      {
        if Peek(1) == '\n' {
          NextLine();
        }
        var _ := Advance();
      }
    }

    /** stringLiteral: the text between the quotes; the opening quote has been read. */
    method StringLiteral() returns (r: Result<()>)
      requires Valid() && currentPosition == startPosition + 1
      modifies this
      ensures Valid() && startPosition == old(startPosition)
      ensures r.Ok? ==> StringScan(source, startPosition, old(State())) == Ok(State())
      ensures r.Err? ==> StringScan(source, startPosition, old(State())) == Result<LexState>.Err(r.error)
    {
      if Peek(1) == '"' {
        var _ := Advance();
        AddToken(Tokens.StringLiteral, "");
        return Ok(());
      }
      if IsAtEnd() {
        return Err(CharacterPastEnd);
      }
      var _ := Advance();
      StringBody();
      if IsAtEnd() {
        hadError := true;
        return Ok(());
      }
      var _ := Advance();
      AddToken(Tokens.StringLiteral, source[startPosition + 1..currentPosition - 1]);
      return Ok(());
    }

    /** lexToken: one token, or none, from the characters at startPosition. */
    method LexToken() returns (r: Result<()>)
      requires Valid() && currentPosition == startPosition < |source|
      modifies this
      ensures Valid()
      ensures r.Ok? ==> LexStep(source, keywords, old(State())) == Ok(State())
      ensures r.Err? ==> LexStep(source, keywords, old(State())) == Result<LexState>.Err(r.error)
    {
      var c := Advance();
      r := Ok(());
      if SingleKind(c).Some? {
        AddToken(SingleKind(c).value, [c]);
      } else if c == '\n' {
        AddToken(Newline, [c]);
        NextLine();
      } else if IsBlank(c) {
      } else if c == ':' {
        var joined := Match('=');
        if joined {
          AddToken(ColonEqual, source[startPosition..currentPosition]);
        } else {
          hadError := true;
        }
      } else if PairOf(c).Some? {
        var p := PairOf(c).value;
        var joined := Match(p.second);
        if joined {
          AddToken(p.joined, source[startPosition..currentPosition]);
        } else {
          AddToken(p.alone, [c]);
        }
      } else if c == '#' {
        Comment();
      } else if c == '"' {
        r := StringLiteral();
      } else if c == 'j' && (IsDigit(Peek(1)) || (Peek(1) == '-' && IsDigit(Peek(2)))) {
        ImNumber();
      } else if IsDigit(c) {
        Number();
      } else if IsChar(c) {
        Identifier();
      } else {
        hadError := true;
      }
    }

    /**
     * lexTokens: lexToken until the source is used up, then the NEWLINE and
     * the EOF token the parser relies on. A lexical error is reported and
     * lexing goes on; reading past the end ends it.
     */
    method LexTokens() returns (r: Result<()>)
      requires Valid()
      modifies this
      ensures r.Ok? ==> LexFrom(source, keywords, old(State())) == Ok(State())
      ensures r.Err? ==> LexFrom(source, keywords, old(State())) == Result<LexState>.Err(r.error)
    {
      while !IsAtEnd()
        invariant Valid()
        invariant LexFrom(source, keywords, State()) == LexFrom(source, keywords, old(State()))
        decreases |source| - currentPosition
      {
        startPosition := currentPosition;
        var step := LexToken();
        if step.Err? {
          return Err(step.error);
        }
      }
      AddToken(Newline, "");
      AddToken(EOF, "");
      return Ok(());
    }
  }

  /**
   * Lexer(source) followed by getTokens() and safeToParse(): the tokens of
   * the source and whether they are safe to parse, or the crash that ends
   * the program.
   */
  method Tokenize(source: string, keywords: map<string, TokenType>) returns (r: Result<(seq<Token>, bool)>)
    ensures r == Lex(source, keywords)
  {
    var lexer := new Lexer(source, keywords);
    var status := lexer.LexTokens();
    if status.Err? {
      return Err(status.error);
    }
    return Ok((lexer.GetTokens(), lexer.SafeToParse()));
  }
}
