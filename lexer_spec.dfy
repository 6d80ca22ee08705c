/**
 * What one call of lexToken does to the lexer's state, and what lexTokens
 * produces from a whole source text (lexer.cpp), as functions. The Lexer
 * class is proved to follow them step by step; their properties are proved
 * in LexerLemmas.
 */
module LexerSpec {

  import opened Errors
  import opened Tokens
  import opened Scanning

  /**
   * The part of the lexer that lexing changes: the tokens emitted so far,
   * the next unread position, the line and column of the last character
   * read, and whether a lexical error was reported.
   */
  datatype LexState = LexState(tokens: seq<Token>, pos: nat, line: nat, column: nat, hadError: bool)

  /** A fresh lexer: nothing read, line 1, column 0. */
  const Initial := LexState([], 0, 1, 0, false)

  /** std::string::at past the end: the only way lexing can fail outright. */
  const CharacterPastEnd := Crash("character read past the end of the source")

  /** advance, n times, over characters that are not line breaks the lexer counts. */
  function Skip(st: LexState, n: nat): (r: LexState)
    ensures r.pos == st.pos + n && r.column == st.column + n
    ensures r.tokens == st.tokens && r.line == st.line && r.hadError == st.hadError
  {
    st.(pos := st.pos + n, column := st.column + n)
  }

  /** addToken: the token carries the line and column the lexer is at now. */
  function Emit(st: LexState, kind: TokenType, lexeme: string): (r: LexState)
    ensures r.tokens == st.tokens + [Token(kind, lexeme, st.line, st.column)]
    ensures r.pos == st.pos && r.line == st.line && r.column == st.column && r.hadError == st.hadError
  {
    st.(tokens := st.tokens + [Token(kind, lexeme, st.line, st.column)])
  }

  /** The characters that always make a token of their own; ';' counts as a newline. */
  function SingleKind(c: char): Option<TokenType> {
    match c
    case '(' => Some(LeftParen)
    case ')' => Some(RightParen)
    case '{' => Some(LeftBrace)
    case '}' => Some(RightBrace)
    case '[' => Some(LeftBracket)
    case ']' => Some(RightBracket)
    case '.' => Some(Dot)
    case ',' => Some(Comma)
    case ';' => Some(Newline)
    case '+' => Some(Plus)
    case '-' => Some(Minus)
    case '/' => Some(Slash)
    case _ => None
  }

  /** A character that makes a two-character token when `second` follows it, and a token of its own otherwise. */
  datatype Pair = Pair(second: char, joined: TokenType, alone: TokenType)

  function PairOf(c: char): Option<Pair> {
    match c
    case '=' => Some(Pair('=', EqualEqual, Equal))
    case '!' => Some(Pair('=', BangEqual, Bang))
    case '<' => Some(Pair('=', LessEqual, Less))
    case '>' => Some(Pair('=', GreaterEqual, Greater))
    case '*' => Some(Pair('*', StarStar, Star))
    case _ => None
  }

  predicate IsBlank(c: char) {
    c == ' ' || c == '\r' || c == '\t'
  }

  /** 'j' starts an imaginary literal when a digit, or '-' and a digit, follow it. */
  predicate StartsImaginary(s: string, i: nat) {
    IsDigit(CharAt(s, i)) || (CharAt(s, i) == '-' && IsDigit(CharAt(s, i + 1)))
  }

  /** The first character of the token starting at `start` has been read; st is just past it. */
  function PairScan(s: string, start: nat, st: LexState, p: Pair): (r: LexState)
    requires st.pos == start + 1 <= |s|
    ensures st.pos <= r.pos <= |s|
  {
    if st.pos < |s| && s[st.pos] == p.second then Emit(Skip(st, 1), p.joined, s[start..start + 2])
    else Emit(st, p.alone, [s[start]])
  }

  /** ':' must be followed by '='; alone it is a lexical error and makes no token. */
  function ColonScan(s: string, start: nat, st: LexState): (r: LexState)
    requires st.pos == start + 1 <= |s|
    ensures st.pos <= r.pos <= |s|
  {
    if st.pos < |s| && s[st.pos] == '=' then Emit(Skip(st, 1), ColonEqual, s[start..start + 2])
    else st.(hadError := true)
  }

  /** '#' skips to the next line break, which it leaves unread. */
  function CommentScan(s: string, st: LexState): (r: LexState)
    requires st.pos <= |s|
    ensures st.pos <= r.pos <= |s|
  {
    Skip(st, Find(s, st.pos, '\n') - st.pos)
  }

  function NumberScan(s: string, start: nat, st: LexState): (r: LexState)
    requires st.pos == start + 1 <= |s|
    ensures st.pos <= r.pos <= |s|
  {
    var e := NumberEnd(s, st.pos);
    Emit(Skip(st, e - st.pos), NumberLiteral, s[start..e])
  }

  /** The imaginary literal after its 'j', without the 'j' in the lexeme. */
  function ImNumberScan(s: string, start: nat, st: LexState): (r: LexState)
    requires st.pos == start + 1 <= |s|
    ensures st.pos <= r.pos <= |s|
  {
    var e := ImNumberEnd(s, st.pos);
    Emit(Skip(st, e - st.pos), ImNumberLiteral, s[start + 1..e])
  }

  /**
   * imNumber as lexer.cpp:220-242 performs it: one more advance past the
   * already consumed 'j', an optional '-', a number, and the lexeme cut one
   * character too long (clamped at the end of the text).
   */
  function ImNumberScanAsWritten(s: string, start: nat, st: LexState): (r: LexState)
    requires st.pos == start + 1 < |s|
    ensures st.pos < r.pos <= |s|
  {
    var e := ImNumberEndAsWritten(s, st.pos);
    Emit(Skip(st, e - st.pos), ImNumberLiteral, ImNumberLexemeAsWritten(s, start))
  }

  /**
   * An identifier, or the keyword the table gives for it; a lexeme the
   * table does not hold reads as value 0, which means "not a keyword".
   */
  function IdentifierScan(s: string, keywords: map<string, TokenType>, start: nat, st: LexState): (r: LexState)
    requires st.pos == start + 1 <= |s|
    ensures st.pos <= r.pos <= |s|
  {
    var e := IdentifierEnd(s, st.pos);
    var lexeme := s[start..e];
    var kind := KeywordKind(keywords, lexeme);
    Emit(Skip(st, e - st.pos), if kind != LeftParen then kind else Identifier, lexeme)
  }

  /**
   * Reading the characters of a string literal up to `to`: a line break
   * starts a new line, on which the line break itself is column 1.
   */
  function Walk(s: string, to: nat, st: LexState): (r: LexState)
    requires st.pos <= to <= |s|
    ensures r.pos == to && r.tokens == st.tokens && r.hadError == st.hadError
    decreases |s| - st.pos
  {
    if st.pos == to then st
    else if s[st.pos] == '\n' then Walk(s, to, st.(pos := st.pos + 1, line := st.line + 1, column := 1))
    else Walk(s, to, Skip(st, 1))
  }

  /**
   * A string literal after its opening quote. The source advances once
   * more before its loop "to consume the opening quote", which it has
   * already read: that reads past the end when the quote is the last
   * character, and reads the first character of the text without counting
   * a line break there.
   */
  function StringScan(s: string, start: nat, st: LexState): (r: Result<LexState>)
    requires st.pos == start + 1 <= |s|
    ensures r.Ok? ==> st.pos <= r.value.pos <= |s|
    ensures r.Err? <==> st.pos == |s|
    ensures r.Err? ==> r.error == CharacterPastEnd
  {
    if CharAt(s, st.pos) == '"' then Ok(Emit(Skip(st, 1), StringLiteral, ""))
    else if st.pos >= |s| then Err(CharacterPastEnd)
    else
      var e := Find(s, st.pos + 1, '"');
      var read := Walk(s, e, Skip(st, 1));
      if e >= |s| then Ok(read.(hadError := true))
      else Ok(Emit(Skip(read, 1), StringLiteral, s[start + 1..e]))
  }

  /**
   * One call of lexToken on the token that starts at st.pos. It reads at
   * least one character, emits at most one token, keeps an error once
   * reported, and fails only on a '"' that ends the source.
   */
  function LexStep(s: string, keywords: map<string, TokenType>, st: LexState): (r: Result<LexState>)
    requires st.pos < |s|
    ensures r.Ok? ==> st.pos < r.value.pos <= |s|
    ensures r.Ok? ==> st.tokens <= r.value.tokens && |r.value.tokens| <= |st.tokens| + 1
    ensures r.Ok? && st.hadError ==> r.value.hadError
    ensures r.Err? ==> st.pos == |s| - 1 && s[st.pos] == '"' && r.error == CharacterPastEnd
  {
    var c := s[st.pos];
    var start := st.pos;
    var next := Skip(st, 1);
    if SingleKind(c).Some? then Ok(Emit(next, SingleKind(c).value, [c]))
    else if c == '\n' then Ok(Emit(next, Newline, [c]).(line := st.line + 1, column := 0))
    else if IsBlank(c) then Ok(next)
    else if c == ':' then Ok(ColonScan(s, start, next))
    else if PairOf(c).Some? then Ok(PairScan(s, start, next, PairOf(c).value))
    else if c == '#' then Ok(CommentScan(s, next))
    else if c == '"' then StringScan(s, start, next)
    else if c == 'j' && StartsImaginary(s, next.pos) then Ok(ImNumberScan(s, start, next))
    else if IsDigit(c) then Ok(NumberScan(s, start, next))
    else if IsChar(c) then Ok(IdentifierScan(s, keywords, start, next))
    else Ok(next.(hadError := true))
  }

  /** lexTokens from st on: lexToken until the source is used up, then a NEWLINE and an EOF token. */
  function LexFrom(s: string, keywords: map<string, TokenType>, st: LexState): (r: Result<LexState>)
    requires st.pos <= |s|
    decreases |s| - st.pos
  {
    if st.pos >= |s| then Ok(Emit(Emit(st, Newline, ""), EOF, ""))
    else
      match LexStep(s, keywords, st)
      case Err(e) => Err(e)
      case Ok(next) => LexFrom(s, keywords, next)
  }

  /** Lexing a whole source: its tokens and safeToParse, or the crash that ends the program. */
  function Lex(s: string, keywords: map<string, TokenType>): Result<(seq<Token>, bool)> {
    match LexFrom(s, keywords, Initial)
    case Err(e) => Err(e)
    case Ok(st) => Ok((st.tokens, !st.hadError))
  }
}
