/**
 * Properties of lexing (lexer.cpp): the token sequence always ends with a
 * NEWLINE and an EOF token, what each kind of character makes, that
 * lexical errors are kept and lexing goes on, and that lexing fails only
 * on a quote that ends the source.
 */
module LexerLemmas {

  import opened Errors
  import opened Tokens
  import opened Scanning
  import opened LexerSpec

  /**
   * The last two tokens are a NEWLINE and an EOF, both with an empty
   * lexeme: every statement is terminated and the sequence ends with EOF,
   * as the parser requires of its input.
   */
  predicate EndsWithNewlineAndEof(ts: seq<Token>) {
    |ts| >= 2 && ts[|ts| - 2].kind == Newline && ts[|ts| - 2].lexeme == ""
    && ts[|ts| - 1].kind == EOF && ts[|ts| - 1].lexeme == ""
  }

  /** Lexing from any state ends with NEWLINE and EOF. */
  lemma {:induction false} LexFromEnds(s: string, keywords: map<string, TokenType>, st: LexState)
    requires st.pos <= |s|
    requires LexFrom(s, keywords, st).Ok?
    ensures EndsWithNewlineAndEof(LexFrom(s, keywords, st).value.tokens)
    decreases |s| - st.pos
  {
    if st.pos < |s| {
      var next := LexStep(s, keywords, st).value;
      assert LexFrom(s, keywords, st) == LexFrom(s, keywords, next);
      LexFromEnds(s, keywords, next);
    }
  }

  /** Lexing from any state keeps the tokens emitted so far. */
  lemma {:induction false} LexFromKeepsTokens(s: string, keywords: map<string, TokenType>, st: LexState)
    requires st.pos <= |s|
    requires LexFrom(s, keywords, st).Ok?
    ensures st.tokens <= LexFrom(s, keywords, st).value.tokens
    decreases |s| - st.pos
  {
    if st.pos < |s| {
      var next := LexStep(s, keywords, st).value;
      assert LexFrom(s, keywords, st) == LexFrom(s, keywords, next);
      LexFromKeepsTokens(s, keywords, next);
    }
  }

  /** Whatever the source, its tokens end with a NEWLINE followed by an EOF. */
  lemma TokensEndWithNewlineAndEof(s: string, keywords: map<string, TokenType>)
    requires Lex(s, keywords).Ok?
    ensures EndsWithNewlineAndEof(Lex(s, keywords).value.0)
  {
    assert Lex(s, keywords).value.0 == LexFrom(s, keywords, Initial).value.tokens;
    LexFromEnds(s, keywords, Initial);
  }

  /** A lexical error, once reported, is still reported when lexing ends. */
  lemma {:induction false} LexFromKeepsErrors(s: string, keywords: map<string, TokenType>, st: LexState)
    requires st.pos <= |s| && st.hadError
    requires LexFrom(s, keywords, st).Ok?
    ensures LexFrom(s, keywords, st).value.hadError
    decreases |s| - st.pos
  {
    if st.pos < |s| {
      LexFromKeepsErrors(s, keywords, LexStep(s, keywords, st).value);
    }
  }

  /** Lexing fails only when the source ends with a '"'. */
  lemma {:induction false} LexFromFailsOnTrailingQuote(s: string, keywords: map<string, TokenType>, st: LexState)
    requires st.pos <= |s|
    requires LexFrom(s, keywords, st).Err?
    ensures |s| > 0 && s[|s| - 1] == '"'
    ensures LexFrom(s, keywords, st).error == CharacterPastEnd
    decreases |s| - st.pos
  {
    if LexStep(s, keywords, st).Ok? {
      LexFromFailsOnTrailingQuote(s, keywords, LexStep(s, keywords, st).value);
    }
  }

  /** A '"' read as the last character of the source makes the lexer read past the end. */
  lemma QuoteAtEndReadsPastEnd(s: string, keywords: map<string, TokenType>, st: LexState)
    requires st.pos == |s| - 1 && s[st.pos] == '"'
    ensures LexStep(s, keywords, st) == Err(CharacterPastEnd)
  {
  }

  /** A line break is a NEWLINE token; the line after it starts at column 0. */
  lemma LineBreakStep(s: string, keywords: map<string, TokenType>, st: LexState)
    requires st.pos < |s| && s[st.pos] == '\n'
    ensures LexStep(s, keywords, st)
            == Ok(LexState(st.tokens + [Token(Newline, "\n", st.line, st.column + 1)], st.pos + 1, st.line + 1, 0, st.hadError))
  {
  }

  /** ';' is a NEWLINE token too, but it stays on the same line. */
  lemma SemicolonStep(s: string, keywords: map<string, TokenType>, st: LexState)
    requires st.pos < |s| && s[st.pos] == ';'
    ensures LexStep(s, keywords, st)
            == Ok(LexState(st.tokens + [Token(Newline, ";", st.line, st.column + 1)], st.pos + 1, st.line, st.column + 1, st.hadError))
  {
  }

  /** Only a line break, or a string literal that spans one, moves the lexer to another line. */
  lemma OnlyLineBreaksChangeLine(s: string, keywords: map<string, TokenType>, st: LexState)
    requires st.pos < |s| && LexStep(s, keywords, st).Ok?
    requires LexStep(s, keywords, st).value.line != st.line
    ensures s[st.pos] == '\n' || s[st.pos] == '"'
  {
  }

  /** '==', '!=', '<=', '>=' and '**' are each one token. */
  lemma TwoCharacterOperator(s: string, keywords: map<string, TokenType>, st: LexState)
    requires st.pos + 1 < |s| && PairOf(s[st.pos]).Some?
    requires s[st.pos + 1] == PairOf(s[st.pos]).value.second
    ensures LexStep(s, keywords, st)
            == Ok(LexState(st.tokens + [Token(PairOf(s[st.pos]).value.joined, s[st.pos..st.pos + 2], st.line, st.column + 2)],
                           st.pos + 2, st.line, st.column + 2, st.hadError))
  {
  }

  /** Without its second character, '=', '!', '<', '>' or '*' is a token of its own. */
  lemma OneCharacterOperator(s: string, keywords: map<string, TokenType>, st: LexState)
    requires st.pos < |s| && PairOf(s[st.pos]).Some?
    requires CharAt(s, st.pos + 1) != PairOf(s[st.pos]).value.second
    ensures LexStep(s, keywords, st)
            == Ok(LexState(st.tokens + [Token(PairOf(s[st.pos]).value.alone, [s[st.pos]], st.line, st.column + 1)],
                           st.pos + 1, st.line, st.column + 1, st.hadError))
  {
  }

  /** ':=' is one token; a ':' without '=' is a lexical error, makes no token, and lexing goes on after it. */
  lemma ColonStep(s: string, keywords: map<string, TokenType>, st: LexState)
    requires st.pos < |s| && s[st.pos] == ':'
    ensures CharAt(s, st.pos + 1) == '=' ==>
              LexStep(s, keywords, st)
              == Ok(LexState(st.tokens + [Token(ColonEqual, ":=", st.line, st.column + 2)], st.pos + 2, st.line, st.column + 2, st.hadError))
    ensures CharAt(s, st.pos + 1) != '=' ==>
              LexStep(s, keywords, st) == Ok(LexState(st.tokens, st.pos + 1, st.line, st.column + 1, true))
  {
    if CharAt(s, st.pos + 1) == '=' {
      assert s[st.pos..st.pos + 2] == [':', '='];
    }
  }

  /**
   * A digit starts a number literal: the token's lexeme is digits,
   * optionally '.' and more digits, and it is as long as it can be: no
   * digit follows it, nor '.' and a digit when it has no '.'.
   */
  lemma NumberStep(s: string, keywords: map<string, TokenType>, st: LexState)
    requires st.pos < |s| && IsDigit(s[st.pos])
    ensures var r := LexStep(s, keywords, st);
            r.Ok? && |r.value.tokens| == |st.tokens| + 1 && r.value.line == st.line
            && var t := r.value.tokens[|st.tokens|];
            t.kind == NumberLiteral && t.lexeme == s[st.pos..r.value.pos] && NumberSyntax(t.lexeme)
            && !IsDigit(CharAt(s, r.value.pos))
            && (DigitRun(s, st.pos) == r.value.pos ==> !(CharAt(s, r.value.pos) == '.' && IsDigit(CharAt(s, r.value.pos + 1))))
  {
    DigitDispatch(s, keywords, st);
    NumberScanToken(s, st);
  }

  /** The state number() leaves: one more token, the literal from the first digit to the end of the number. */
  lemma NumberScanToken(s: string, st: LexState)
    requires st.pos < |s| && IsDigit(s[st.pos])
    ensures var r := NumberScan(s, st.pos, Skip(st, 1));
            |r.tokens| == |st.tokens| + 1 && r.line == st.line
            && var t := r.tokens[|st.tokens|];
            t.kind == NumberLiteral && t.lexeme == s[st.pos..r.pos] && NumberSyntax(t.lexeme)
            && !IsDigit(CharAt(s, r.pos))
            && (DigitRun(s, st.pos) == r.pos ==> !(CharAt(s, r.pos) == '.' && IsDigit(CharAt(s, r.pos + 1))))
  {
    NumberLexemeWellFormed(s, st.pos);
  }

  /** lexToken hands a digit to number(). */
  lemma DigitDispatch(s: string, keywords: map<string, TokenType>, st: LexState)
    requires st.pos < |s| && IsDigit(s[st.pos])
    ensures LexStep(s, keywords, st) == Ok(NumberScan(s, st.pos, Skip(st, 1)))
  {
  }

  /**
   * A 'j' followed by a digit, or by '-' and a digit, is an imaginary
   * literal: an optional '-' and a number, without the 'j'.
   */
  lemma ImaginaryStep(s: string, keywords: map<string, TokenType>, st: LexState)
    requires st.pos < |s| && s[st.pos] == 'j' && StartsImaginary(s, st.pos + 1)
    ensures var r := LexStep(s, keywords, st);
            r.Ok? && |r.value.tokens| == |st.tokens| + 1
            && var t := r.value.tokens[|st.tokens|];
            var body := if t.lexeme[0] == '-' then t.lexeme[1..] else t.lexeme;
            t.kind == ImNumberLiteral && t.lexeme == s[st.pos + 1..r.value.pos]
            && |t.lexeme| > 0 && NumberSyntax(body) && !IsDigit(CharAt(s, r.value.pos))
  {
    ImNumberLexemeWellFormed(s, st.pos);
  }

  /**
   * On "j5-3", once the 'j' is read, the scan as written emits one imaginary
   * literal "5-3" and stops at the end, where the corrected scan emits "5"
   * and stops before the '-'.
   */
  lemma ImNumberScanDiffers()
    ensures var st := LexState([], 1, 1, 1, false);
            var w := ImNumberScanAsWritten("j5-3", 0, st);
            var c := ImNumberScan("j5-3", 0, st);
            w.pos == 4 && w.tokens == [Token(ImNumberLiteral, "5-3", 1, 4)]
            && c.pos == 2 && c.tokens == [Token(ImNumberLiteral, "5", 1, 2)]
  {
    var s := "j5-3";
    var st := LexState([], 1, 1, 1, false);
    ImNumberCounterexample();
    assert ImNumberScanAsWritten(s, 0, st) == Emit(Skip(st, 3), ImNumberLiteral, "5-3");
    assert ImNumberScan(s, 0, st) == Emit(Skip(st, 1), ImNumberLiteral, s[1..2]);
    assert s[1..2] == "5";
  }

  /**
   * A letter or '_' (other than a 'j' that starts an imaginary literal)
   * starts a name: the longest run of letters, digits and '_', which is
   * the keyword the table gives for it, or an identifier when the table
   * gives value 0 or does not hold it.
   */
  lemma NameStep(s: string, keywords: map<string, TokenType>, st: LexState)
    requires st.pos < |s| && IsChar(s[st.pos])
    requires !(s[st.pos] == 'j' && StartsImaginary(s, st.pos + 1))
    ensures var r := LexStep(s, keywords, st);
            r.Ok? && |r.value.tokens| == |st.tokens| + 1
            && var t := r.value.tokens[|st.tokens|];
            t.lexeme == s[st.pos..r.value.pos] && IsChar(t.lexeme[0]) && AllIdentifierChars(t.lexeme)
            && !(IsDigit(CharAt(s, r.value.pos)) || IsChar(CharAt(s, r.value.pos)))
            && t.kind == if t.lexeme in keywords && keywords[t.lexeme] != LeftParen then keywords[t.lexeme] else Identifier
  {
    var e := IdentifierEnd(s, st.pos + 1);
    assert IdentifierEnd(s, st.pos) == e;
    assert LexStep(s, keywords, st) == Ok(IdentifierScan(s, keywords, st.pos, Skip(st, 1)));
  }

  /**
   * A '"' that is not the last character starts a string literal: its
   * token holds the text up to the next '"', which contains no '"'; with
   * no closing '"' the lexer reports an error, makes no token and stops at
   * the end of the source.
   */
  lemma StringStep(s: string, keywords: map<string, TokenType>, st: LexState)
    requires st.pos + 1 < |s| && s[st.pos] == '"'
    ensures var e := Find(s, st.pos + 1, '"');
            var r := LexStep(s, keywords, st);
            r.Ok?
            && (e < |s| ==> |r.value.tokens| == |st.tokens| + 1 && r.value.pos == e + 1
                            && r.value.tokens[|st.tokens|].kind == StringLiteral
                            && r.value.tokens[|st.tokens|].lexeme == s[st.pos + 1..e]
                            && (forall k :: st.pos + 1 <= k < e ==> s[k] != '"'))
            && (e == |s| ==> r.value.tokens == st.tokens && r.value.pos == |s| && r.value.hadError)
  {
    if s[st.pos + 1] != '"' {
      assert Find(s, st.pos + 1, '"') == Find(s, st.pos + 2, '"');
    }
  }

  /** '#' makes no token and skips to the next line break, which it leaves to be read. */
  lemma CommentStep(s: string, keywords: map<string, TokenType>, st: LexState)
    requires st.pos < |s| && s[st.pos] == '#'
    ensures var r := LexStep(s, keywords, st);
            r.Ok? && r.value.tokens == st.tokens && r.value.line == st.line
            && r.value.pos == Find(s, st.pos + 1, '\n') && (r.value.pos < |s| ==> s[r.value.pos] == '\n')
  {
  }

  /** Spaces, tabs and carriage returns make no token. */
  lemma BlankStep(s: string, keywords: map<string, TokenType>, st: LexState)
    requires st.pos < |s| && IsBlank(s[st.pos])
    ensures LexStep(s, keywords, st) == Ok(LexState(st.tokens, st.pos + 1, st.line, st.column + 1, st.hadError))
  {
  }

  /** A character no rule of lexToken accepts. */
  predicate Unrecognised(c: char) {
    SingleKind(c).None? && PairOf(c).None? && c != '\n' && !IsBlank(c) && c != ':' && c != '#' && c != '"'
    && !IsDigit(c) && !IsChar(c)
  }

  /**
   * An unrecognised character is a lexical error: it makes no token,
   * lexing goes on with the next character, and the sources's tokens are
   * then not safe to parse.
   */
  lemma UnrecognisedCharacter(s: string, keywords: map<string, TokenType>, st: LexState)
    requires st.pos < |s| && Unrecognised(s[st.pos])
    ensures LexStep(s, keywords, st) == Ok(LexState(st.tokens, st.pos + 1, st.line, st.column + 1, true))
    ensures LexFrom(s, keywords, st).Ok? ==> LexFrom(s, keywords, st).value.hadError
  {
    var next := LexState(st.tokens, st.pos + 1, st.line, st.column + 1, true);
    assert LexStep(s, keywords, st) == Ok(next);
    if LexFrom(s, keywords, st).Ok? {
      LexFromKeepsErrors(s, keywords, next);
    }
  }
}
