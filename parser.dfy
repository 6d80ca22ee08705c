/**
 * The recursive-descent parser of parser.cpp: a cursor over the token
 * sequence and the hadError flag, advanced by one method per grammar rule.
 * Every method is proved to return, and to leave the cursor and the flag,
 * exactly as the corresponding function of the Grammar module says; the
 * properties of the grammar are proved there.
 */
module Parsing {

  import opened Errors
  import opened Tokens
  import opened Ast
  import Grammar

  class Parser {
    const tokens: seq<Token>
    var current: nat
    var hadError: bool

    /** The token sequence ends in EOF and a cursor at `at` lies within it. */
    ghost predicate Valid(at: nat) {
      Grammar.WellFormed(tokens) && at < |tokens|
    }

    constructor (tokens: seq<Token>)
      requires Grammar.WellFormed(tokens)
      ensures Valid(current) && this.tokens == tokens && current == 0 && !hadError
    {
      this.tokens := tokens;
      current := 0;
      hadError := false;
    }

    // Cursor primitives

    /** isAtEnd: the current token is EOF. */
    predicate IsAtEnd()
      reads this
      requires Valid(current)
    {
      tokens[current].kind == EOF
    }

    /** check: the current token has the kind, and it is not EOF. */
    predicate Check(kind: TokenType)
      reads this
      requires Valid(current)
    {
      Grammar.Check(tokens, current, kind)
    }

    function Peek(): Token
      reads this
      requires Valid(current)
    {
      tokens[current]
    }

    function Previous(): Token
      reads this
      requires Valid(current) && current > 0
    {
      tokens[current - 1]
    }

    /** peek(n): the token n - 1 places ahead, which may lie past the end of the sequence. */
    function PeekAhead(n: nat): (r: Result<Token>)
      reads this
      requires Valid(current) && n >= 1
      ensures r.Ok? <==> current + n - 1 < |tokens|
      ensures r.Ok? ==> r.value == tokens[current + n - 1]
      ensures r.Err? ==> r.error == Grammar.ReadPastEnd
    {
      if current + n - 1 < |tokens| then Ok(tokens[current + n - 1]) else Err(Grammar.ReadPastEnd)
    }

    /**
     * advance: moves to the next token unless the current one is EOF, and
     * returns the token before the cursor. It is never called where that
     * token would lie before the start of the sequence.
     */
    method Advance() returns (t: Token)
      requires Valid(current) && (current > 0 || !Grammar.AtEnd(tokens, current))
      modifies this
      ensures Valid(current) && hadError == old(hadError)
      ensures current == if Grammar.AtEnd(tokens, old(current)) then old(current) else old(current) + 1
      ensures t == tokens[current - 1]
    {
      if !IsAtEnd() {
        current := current + 1;
      }
      t := Previous();
    }

    /** match: consumes the current token exactly when check succeeds. */
    method Match(kind: TokenType) returns (matched: bool)
      requires Valid(current)
      modifies this
      ensures Valid(current) && hadError == old(hadError)
      ensures matched == Grammar.Check(tokens, old(current), kind)
      ensures current == if matched then old(current) + 1 else old(current)
    {
      if Check(kind) {
        var _ := Advance();
        matched := true;
      } else {
        matched := false;
      }
    }

    /** The `match(a) || match(b) || ...` that heads the loop of a binary level. */
    method MatchOperator(level: Grammar.Level) returns (matched: bool)
      requires Valid(current)
      modifies this
      ensures Valid(current) && hadError == old(hadError)
      ensures matched == Grammar.CheckOperator(tokens, level, old(current))
      ensures current == if matched then old(current) + 1 else old(current)
    {
      match level
      case OrLevel =>
        matched := Match(Or);
      case AndLevel =>
        matched := Match(And);
      case EqualityLevel =>
        matched := Match(BangEqual);
        if !matched { matched := Match(EqualEqual); }
      case ComparisonLevel =>
        matched := Match(LessEqual);
        if !matched { matched := Match(GreaterEqual); }
        if !matched { matched := Match(Less); }
        if !matched { matched := Match(Greater); }
      case AdditionLevel =>
        matched := Match(Plus);
        if !matched { matched := Match(Minus); }
      case MultiplicationLevel =>
        matched := Match(Star);
        if !matched { matched := Match(Slash); }
    }

    /** ignoreNewlines */
    method IgnoreNewlines()
      requires Valid(current)
      modifies this
      ensures Valid(current) && hadError == old(hadError)
      ensures current == Grammar.SkipNewlines(tokens, old(current))
    {
      while true
        invariant Valid(current) && hadError == old(hadError)
        invariant Grammar.SkipNewlines(tokens, old(current)) == Grammar.SkipNewlines(tokens, current)
        decreases |tokens| - current
      {
        var matched := Match(Newline);
        if !matched {
          break;
        }
      }
    }

    /** checkTerminator */
    method CheckTerminator() returns (r: Result<()>)
      requires Valid(current)
      modifies this
      ensures Valid(current) && hadError == old(hadError)
      ensures Grammar.Terminator(tokens, old(current)).Ok? ==> r.Ok? && current == Grammar.Terminator(tokens, old(current)).value
      ensures Grammar.Terminator(tokens, old(current)).Err? ==>
                r == Err(Grammar.Terminator(tokens, old(current)).error) && current == old(current)
    {
      var newline := Match(Newline);
      if !newline && Peek().kind != RightBrace {
        return Err(Grammar.TerminatorExpected);
      }
      r := Ok(());
    }

    // Statements

    /** parse */
    method Parse() returns (r: Result<seq<Stmt>>)
      requires Valid(current)
      modifies this
      ensures Valid(current)
      ensures Grammar.Outcome(r, current, hadError) == Grammar.Program(tokens, old(current), [], old(hadError))
    {
      var stmts: seq<Stmt> := [];
      while !IsAtEnd()
        invariant Valid(current)
        invariant Grammar.Program(tokens, old(current), [], old(hadError)) == Grammar.Program(tokens, current, stmts, hadError)
        decreases |tokens| - current
      {
        IgnoreNewlines();
        if tokens[current].kind == EOF {
          break;
        }
        var s :- Statement();
        stmts := stmts + [s];
      }
      r := Ok(stmts);
    }

    /** stmt: an output statement or a block by their first token, else the rest of stmt. */
    method Statement() returns (r: Result<Stmt>)
      requires Valid(current)
      modifies this
      ensures Valid(current)
      ensures Grammar.Outcome(r, current, hadError) == Grammar.Statement(tokens, old(current), old(hadError))
      decreases |tokens| - current, 39
    {
      if Check(Output) {
        var _ := Advance();
        r := OutputStatement();
      } else if Check(LeftBrace) {
        var _ := Advance();
        var stmts :- Block();
        r := Ok(BlockStmt(stmts));
      } else {
        r := OtherStatement();
      }
    }

    /** The rest of stmt: if and while statements, else an expression statement. */
    method OtherStatement() returns (r: Result<Stmt>)
      requires Valid(current)
      modifies this
      ensures Valid(current)
      ensures Grammar.Outcome(r, current, hadError) == Grammar.OtherStatement(tokens, old(current), old(hadError))
      decreases |tokens| - current, 38
    {
      if Check(If) {
        var _ := Advance();
        r := IfStatement();
      } else if Check(While) {
        var _ := Advance();
        r := WhileStatement();
      } else {
        r := ExpressionStatement();
      }
    }

    /** exprStmt */
    method ExpressionStatement() returns (r: Result<Stmt>)
      requires Valid(current)
      modifies this
      ensures Valid(current)
      ensures Grammar.Outcome(r, current, hadError) == Grammar.ExpressionStatement(tokens, old(current), old(hadError))
      decreases |tokens| - current, 37
    {
      var value :- Expression();
      var _ :- CheckTerminator();
      r := Ok(ExprStmt(value));
    }

    /** outputStmt, after 'output' */
    method OutputStatement() returns (r: Result<Stmt>)
      requires Valid(current)
      modifies this
      ensures Valid(current)
      ensures Grammar.Outcome(r, current, hadError) == Grammar.OutputStatement(tokens, old(current), old(hadError))
      decreases |tokens| - current, 37
    {
      var value :- Expression();
      var _ :- CheckTerminator();
      r := Ok(OutputStmt(value));
    }

    /** blockStmt, after '{' */
    method Block() returns (r: Result<seq<Stmt>>)
      requires Valid(current)
      modifies this
      ensures Valid(current)
      ensures Grammar.Outcome(r, current, hadError) == Grammar.Block(tokens, old(current), [], old(hadError))
      decreases |tokens| - current, 41
    {
      var stmts: seq<Stmt> := [];
      while !Check(RightBrace) && !IsAtEnd()
        invariant Valid(current) && old(current) <= current
        invariant Grammar.Block(tokens, old(current), [], old(hadError)) == Grammar.Block(tokens, current, stmts, hadError)
        decreases |tokens| - current
      {
        IgnoreNewlines();
        var s :- Statement();
        stmts := stmts + [s];
      }
      if Check(RightBrace) {
        var _ := Advance();
        r := Ok(stmts);
      } else {
        r := Err(Grammar.BlockUnclosed);
      }
    }

    /** ifStmt, after 'if' */
    method IfStatement() returns (r: Result<Stmt>)
      requires Valid(current)
      modifies this
      ensures Valid(current)
      ensures Grammar.Outcome(r, current, hadError) == Grammar.IfStatement(tokens, old(current), old(hadError))
      decreases |tokens| - current, 37
    {
      var condition :- Expression();
      IgnoreNewlines();
      var thenBranch :- Statement();
      r := ElseClause(condition, thenBranch);
    }

    /** The rest of ifStmt after the then-branch. */
    method ElseClause(condition: Expr, thenBranch: Stmt) returns (r: Result<Stmt>)
      requires Valid(current)
      modifies this
      ensures Valid(current)
      ensures Grammar.Outcome(r, current, hadError) == Grammar.ElseClause(tokens, condition, thenBranch, old(current), old(hadError))
      decreases |tokens| - current, 37
    {
      IgnoreNewlines();
      r := ElseTest(condition, thenBranch);
    }

    /** The `match(ELSE)` of ifStmt. */
    method ElseTest(condition: Expr, thenBranch: Stmt) returns (r: Result<Stmt>)
      requires Valid(current)
      modifies this
      ensures Valid(current)
      ensures Grammar.Outcome(r, current, hadError) == Grammar.ElseTest(tokens, condition, thenBranch, old(current), old(hadError))
      decreases |tokens| - current, 36
    {
      if Check(Else) {
        var _ := Advance();
        r := ElseBranch(condition, thenBranch);
      } else {
        r := Ok(IfStmt(condition, thenBranch, None));
      }
    }

    /** The else-branch of ifStmt, after 'else' and the newlines that follow it. */
    method ElseBranch(condition: Expr, thenBranch: Stmt) returns (r: Result<Stmt>)
      requires Valid(current)
      modifies this
      ensures Valid(current)
      ensures Grammar.Outcome(r, current, hadError) == Grammar.ElseBranch(tokens, condition, thenBranch, old(current), old(hadError))
      decreases |tokens| - current, 40
    {
      IgnoreNewlines();
      var elseBranch :- Statement();
      r := Ok(IfStmt(condition, thenBranch, Some(elseBranch)));
    }

    /** whileStmt, after 'while' */
    method WhileStatement() returns (r: Result<Stmt>)
      requires Valid(current)
      modifies this
      ensures Valid(current)
      ensures Grammar.Outcome(r, current, hadError) == Grammar.WhileStatement(tokens, old(current), old(hadError))
      decreases |tokens| - current, 37
    {
      var condition :- Expression();
      IgnoreNewlines();
      var body :- Statement();
      r := Ok(WhileStmt(condition, body));
    }

    // Expressions

    /** expr: the one place a ParserError is caught. */
    method Expression() returns (r: Result<Expr>)
      requires Valid(current)
      modifies this
      ensures Valid(current)
      ensures Grammar.Outcome(r, current, hadError) == Grammar.Expression(tokens, old(current), old(hadError))
      decreases |tokens| - current, 36
    {
      var attempt;
      if Check(Arrow) {
        var _ := Advance();
        attempt := Lambda();
      } else {
        attempt := Assignment();
      }
      if attempt.Err? && attempt.error.ParserError? {
        hadError := true;
        r := Ok(Missing);
      } else {
        r := attempt;
      }
    }

    /** lambdaExpr, after '->' */
    method Lambda() returns (r: Result<Expr>)
      requires Valid(current)
      modifies this
      ensures Valid(current)
      ensures Grammar.Outcome(r, current, hadError) == Grammar.Lambda(tokens, old(current), old(hadError))
      decreases |tokens| - current, 35
    {
      var parameters :- Parameters();
      r := LambdaBody(parameters);
    }

    /** The body of lambdaExpr, after its parameters. */
    method LambdaBody(parameters: seq<Token>) returns (r: Result<Expr>)
      requires Valid(current)
      modifies this
      ensures Valid(current)
      ensures Grammar.Outcome(r, current, hadError) == Grammar.LambdaBody(tokens, parameters, old(current), old(hadError))
      decreases |tokens| - current, 34
    {
      if !Check(LeftBrace) {
        return Err(Grammar.LambdaBodyExpected);
      }
      var _ := Advance();
      var body :- Block();
      r := Ok(LambdaExpr(parameters, body));
    }

    /** The parameter list of lambdaExpr. */
    method Parameters() returns (r: Result<seq<Token>>)
      requires Valid(current)
      modifies this
      ensures Valid(current) && hadError == old(hadError)
      ensures Grammar.Outcome(r, current, false) == Grammar.Parameters(tokens, old(current))
    {
      var parameters: seq<Token> := [];
      if Check(LeftParen) {
        var _ := Advance();
        if Check(Identifier) {
          var name := Advance();
          parameters :- ParameterList([name]);
        }
        r := CloseParameters(parameters);
      } else {
        r := Ok(parameters);
      }
    }

    /** The ')' that ends a parameter list. */
    method CloseParameters(parameters: seq<Token>) returns (r: Result<seq<Token>>)
      requires Valid(current)
      modifies this
      ensures Valid(current) && hadError == old(hadError)
      ensures Grammar.Outcome(r, current, false) == Grammar.CloseParameters(tokens, parameters, old(current))
    {
      if Check(RightParen) {
        var _ := Advance();
        r := Ok(parameters);
      } else {
        r := Err(Grammar.ParameterListUnclosed);
      }
    }

    /** The loop of lambdaExpr's parameter list: another identifier after each comma. */
    method ParameterList(first: seq<Token>) returns (r: Result<seq<Token>>)
      requires Valid(current)
      modifies this
      ensures Valid(current) && hadError == old(hadError)
      ensures Grammar.Outcome(r, current, false) == Grammar.ParameterList(tokens, old(current), first)
    {
      var parameters := first;
      while true
        invariant Valid(current) && hadError == old(hadError) && old(current) <= current
        invariant Grammar.ParameterList(tokens, old(current), first) == Grammar.ParameterList(tokens, current, parameters)
        decreases |tokens| - current
      {
        var comma := Match(Comma);
        if !comma {
          break;
        }
        if !Check(Identifier) {
          return Err(Grammar.ParameterExpected);
        }
        var name := Advance();
        parameters := parameters + [name];
      }
      r := Ok(parameters);
    }

    /** assignExpr */
    method Assignment() returns (r: Result<Expr>)
      requires Valid(current)
      modifies this
      ensures Valid(current)
      ensures Grammar.Outcome(r, current, hadError) == Grammar.Assignment(tokens, old(current), old(hadError))
      decreases |tokens| - current, 35
    {
      var next := PeekAhead(1);
      var nextNext := PeekAhead(2);
      if nextNext.Err? {
        return Err(nextNext.error);
      }
      if next.value.kind == Identifier && (nextNext.value.kind == Equal || nextNext.value.kind == ColonEqual) {
        var name := Advance();
        var _ := Advance();
        var value :- Expression();
        if nextNext.value.kind == Equal {
          r := Ok(AssignExpr(name, value));
        } else {
          r := Ok(VarDeclExpr(name, value));
        }
      } else {
        r := BinaryLevel(Grammar.OrLevel);
      }
    }

    /** _or, _and, equality, comparison, addition and multiplication, one level each. */
    method BinaryLevel(level: Grammar.Level) returns (r: Result<Expr>)
      requires Valid(current)
      modifies this
      ensures Valid(current)
      ensures Grammar.Outcome(r, current, hadError) == Grammar.Binary(tokens, level, old(current), old(hadError))
      decreases |tokens| - current, Grammar.Rank(level)
    {
      var left :- Operand(level);
      r := BinaryLoop(level, left);
    }

    /** The `while (match(...))` loop of a binary level: each operator and right operand extends the tree to the left. */
    method BinaryLoop(level: Grammar.Level, left: Expr) returns (r: Result<Expr>)
      requires Valid(current) && Grammar.Simple(left)
      modifies this
      ensures Valid(current)
      ensures Grammar.Outcome(r, current, hadError) == Grammar.BinaryTail(tokens, level, left, old(current), old(hadError))
      decreases |tokens| - current, Grammar.Rank(level)
    {
      var expr := left;
      while true
        invariant Valid(current) && old(current) <= current && Grammar.Simple(expr)
        invariant Grammar.BinaryTail(tokens, level, left, old(current), old(hadError))
                  == Grammar.BinaryTail(tokens, level, expr, current, hadError)
        decreases |tokens| - current
      {
        ghost var before, err, previous := current, hadError, expr;
        var matched := MatchOperator(level);
        if !matched {
          break;
        }
        var op := Previous();
        assert Grammar.BinaryTail(tokens, level, previous, before, err) == Grammar.BinaryStep(tokens, level, previous, op, current, err);
        var right :- Operand(level);
        expr := BinaryExpr(op, expr, right);
      }
      r := Ok(expr);
    }

    /** The call a level makes for each operand. */
    method Operand(level: Grammar.Level) returns (r: Result<Expr>)
      requires Valid(current)
      modifies this
      ensures Valid(current)
      ensures Grammar.Outcome(r, current, hadError) == Grammar.Operand(tokens, level, old(current), old(hadError))
      decreases |tokens| - current, Grammar.Rank(level) - 1
    {
      if level == Grammar.MultiplicationLevel {
        r := Exponentiation();
      } else {
        r := BinaryLevel(Grammar.Tighter(level));
      }
    }

    /** exponentiation */
    method Exponentiation() returns (r: Result<Expr>)
      requires Valid(current)
      modifies this
      ensures Valid(current)
      ensures Grammar.Outcome(r, current, hadError) == Grammar.Exponentiation(tokens, old(current), old(hadError))
      decreases |tokens| - current, 20
    {
      var left :- Unary();
      r := ExponentLoop(left);
    }

    /** The `while (match(STAR_STAR))` loop of exponentiation, whose right operand is exponentiation again. */
    method ExponentLoop(left: Expr) returns (r: Result<Expr>)
      requires Valid(current) && Grammar.Simple(left)
      modifies this
      ensures Valid(current)
      ensures Grammar.Outcome(r, current, hadError) == Grammar.ExponentTail(tokens, left, old(current), old(hadError))
      decreases |tokens| - current, 20
    {
      var expr := left;
      while true
        invariant Valid(current) && old(current) <= current && Grammar.Simple(expr)
        invariant Grammar.ExponentTail(tokens, left, old(current), old(hadError))
                  == Grammar.ExponentTail(tokens, expr, current, hadError)
        decreases |tokens| - current
      {
        ghost var before, err, previous := current, hadError, expr;
        var matched := Match(StarStar);
        if !matched {
          break;
        }
        var op := Previous();
        assert Grammar.ExponentTail(tokens, previous, before, err) == Grammar.ExponentStep(tokens, previous, op, current, err);
        var right :- Exponentiation();
        expr := BinaryExpr(op, expr, right);
      }
      r := Ok(expr);
    }

    /** unary */
    method Unary() returns (r: Result<Expr>)
      requires Valid(current)
      modifies this
      ensures Valid(current)
      ensures Grammar.Outcome(r, current, hadError) == Grammar.Unary(tokens, old(current), old(hadError))
      decreases |tokens| - current, 18
    {
      if Check(Minus) || Check(Bang) || Check(Not) {
        r := Prefix();
      } else {
        r := Call();
      }
    }

    /** call */
    method Call() returns (r: Result<Expr>)
      requires Valid(current)
      modifies this
      ensures Valid(current)
      ensures Grammar.Outcome(r, current, hadError) == Grammar.Call(tokens, old(current), old(hadError))
      decreases |tokens| - current, 16
    {
      var callee :- Primary();
      r := CallLoop(callee);
    }

    /** The loop of call: each '(' applies finishCall to the expression so far. */
    method CallLoop(callee: Expr) returns (r: Result<Expr>)
      requires Valid(current) && Grammar.Simple(callee)
      modifies this
      ensures Valid(current)
      ensures Grammar.Outcome(r, current, hadError) == Grammar.CallTail(tokens, callee, old(current), old(hadError))
      decreases |tokens| - current, 16
    {
      var expr := callee;
      while true
        invariant Valid(current) && old(current) <= current && Grammar.Simple(expr)
        invariant Grammar.CallTail(tokens, callee, old(current), old(hadError))
                  == Grammar.CallTail(tokens, expr, current, hadError)
        decreases |tokens| - current
      {
        var matched := Match(LeftParen);
        if !matched {
          break;
        }
        expr :- FinishCall(expr);
      }
      r := Ok(expr);
    }

    /** finishCall, after '(' */
    method FinishCall(callee: Expr) returns (r: Result<Expr>)
      requires Valid(current)
      modifies this
      ensures Valid(current)
      ensures Grammar.Outcome(r, current, hadError) == Grammar.FinishCall(tokens, callee, old(current), old(hadError))
      decreases |tokens| - current, 38
    {
      var arguments: seq<Expr> := [];
      if !Check(RightParen) {
        arguments :- Arguments();
      }
      r := CloseCall(callee, arguments);
    }

    /** The ')' that ends finishCall. */
    method CloseCall(callee: Expr, arguments: seq<Expr>) returns (r: Result<Expr>)
      requires Valid(current)
      modifies this
      ensures Valid(current)
      ensures Grammar.Outcome(r, current, hadError) == Grammar.CloseCall(tokens, callee, arguments, old(current), old(hadError))
    {
      if Check(RightParen) {
        var paren := Advance();
        r := Ok(CallExpr(callee, paren, arguments));
      } else {
        r := Err(Grammar.ArgumentsUnclosed);
      }
    }

    /** The do-while of finishCall: an expression, then another after each comma. */
    method Arguments() returns (r: Result<seq<Expr>>)
      requires Valid(current)
      modifies this
      ensures Valid(current)
      ensures Grammar.Outcome(r, current, hadError) == Grammar.Arguments(tokens, old(current), [], old(hadError))
      decreases |tokens| - current, 37
    {
      var arguments: seq<Expr> := [];
      var comma := true;
      while comma
        invariant Valid(current) && old(current) <= current
        invariant comma ==> Grammar.Arguments(tokens, old(current), [], old(hadError))
                            == Grammar.Arguments(tokens, current, arguments, hadError)
        invariant !comma ==> Grammar.Arguments(tokens, old(current), [], old(hadError))
                             == Grammar.Outcome(Ok(arguments), current, hadError)
        decreases |tokens| - current, comma
      {
        var argument :- Expression();
        arguments := arguments + [argument];
        comma := Match(Comma);
      }
      r := Ok(arguments);
    }

    /** primary: booleans, keyword constants, prefix operators and groupings, else a literal. */
    method Primary() returns (r: Result<Expr>)
      requires Valid(current)
      modifies this
      ensures Valid(current)
      ensures Grammar.Outcome(r, current, hadError) == Grammar.Primary(tokens, old(current), old(hadError))
      decreases |tokens| - current, 15
    {
      if Check(True) || Check(False) {
        var literal := Advance();
        return Ok(BooleanExpr(literal));
      }
      if Check(Pi) || Check(Euler) {
        var keyword := Advance();
        return Ok(KeywordConstant(keyword));
      }
      if Check(J) || Check(Mag) || Check(Re) || Check(Im) || Check(AngleOf) {
        r := Prefix();
        return;
      }
      if Check(LeftParen) {
        var _ := Advance();
        r := Parenthesized();
        return;
      }
      r := Literal();
    }

    /** A prefix operator of primary and its unary operand. */
    method Prefix() returns (r: Result<Expr>)
      requires Valid(current) && !IsAtEnd()
      modifies this
      ensures Valid(current)
      ensures Grammar.Outcome(r, current, hadError) == Grammar.Prefix(tokens, old(current), old(hadError))
      decreases |tokens| - current, 14
    {
      var op := Advance();
      var right :- Unary();
      r := Ok(UnaryExpr(op, right));
    }

    /** The literals of primary: number and string literals and identifiers. */
    method Literal() returns (r: Result<Expr>)
      requires Valid(current)
      modifies this
      ensures Valid(current)
      ensures Grammar.Outcome(r, current, hadError) == Grammar.Literal(tokens, old(current), old(hadError))
    {
      if Check(NumberLiteral) {
        var number := Advance();
        return Grammar.NumberNode(number, false);
      }
      if Check(ImNumberLiteral) {
        var number := Advance();
        return Grammar.NumberNode(number, true);
      }
      if Check(StringLiteral) {
        var literal := Advance();
        return Ok(StringExpr(literal));
      }
      if Check(Identifier) {
        var name := Advance();
        return Ok(IdentifierExpr(name));
      }
      r := Err(Grammar.UnhandledPrimary);
    }

    /** The parenthesised grouping of primary, after '('. */
    method Parenthesized() returns (r: Result<Expr>)
      requires Valid(current)
      modifies this
      ensures Valid(current)
      ensures Grammar.Outcome(r, current, hadError) == Grammar.Parenthesized(tokens, old(current), old(hadError))
      decreases |tokens| - current, 37
    {
      var inner :- Expression();
      if Peek().kind == J {
        return Err(Grammar.UnexpectedJ);
      }
      if Check(RightParen) {
        var _ := Advance();
        r := Ok(Grouping(inner));
      } else {
        r := Err(Grammar.GroupingUnclosed);
      }
    }
  }
}
