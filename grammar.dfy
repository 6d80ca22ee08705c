/**
 * The grammar the recursive-descent parser (parser.cpp) recognises, as
 * functions on the token sequence: each rule maps a starting position and the
 * hadError flag to what the parser's method for that rule returns or throws,
 * where it leaves its cursor, and the flag afterwards. The Parser class is
 * proved to compute exactly these functions; precedence, associativity and
 * the other properties of the grammar are proved here.
 *
 * The parser's exceptions are Err values: a ParserException is a ParserError,
 * the one RuntimeException of finishCall a RuntimeError, the unhandled-token
 * exception of primary an ImplementationError, and the read past the end of
 * the token vector by peek(2) a Crash. Only `expr` catches, and only
 * ParserErrors: it records the error in hadError and yields no node
 * (`Missing`), leaving the cursor where the error was raised.
 */
module Grammar {

  import opened Errors
  import opened Tokens
  import opened Ast
  import Scanning

  /** The parser relies on the token sequence ending with EOF, as the lexer produces it. */
  predicate WellFormed(ts: seq<Token>) {
    |ts| > 0 && ts[|ts| - 1].kind == EOF
  }

  /** What a rule returns, where the cursor stops, and the hadError flag afterwards. */
  datatype Outcome<+T> = Outcome(result: Result<T>, pos: nat, hadError: bool)

  // The errors the parser raises

  const ReadPastEnd := Crash("token read past the end of the token vector")
  const LambdaBodyExpected := ParserError("expected opening '{' for lambda body.")
  const ParameterListUnclosed := ParserError("expected closing ')' after parameter list.")
  const ParameterExpected := ParserError("expected identifier after comma in parameter list.")
  const ArgumentsUnclosed := RuntimeError("expected ')' after arguments in function call.")
  const NotANumber := Crash("std::stod found no number")
  const UnexpectedJ := ParserError("unexpected 'j'. Did you mean to prefix it?")
  const GroupingUnclosed := ParserError("expected ')' after expression.")
  const UnhandledPrimary := ImplementationError("unhandled TokenType while parsing primary.")
  const TerminatorExpected := ParserError("expected newline or ';' after expression.")
  const BlockUnclosed := ParserError("expected '}' after block.")

  predicate AtEnd(ts: seq<Token>, pos: nat)
    requires pos < |ts|
  {
    ts[pos].kind == EOF
  }

  /** check: the token at pos has the kind, and it is not EOF. */
  predicate Check(ts: seq<Token>, pos: nat, kind: TokenType)
    requires pos < |ts|
  {
    !AtEnd(ts, pos) && ts[pos].kind == kind
  }

  /**
   * The cursor stays in the sequence and never moves back, hadError is never
   * cleared, and a rule that succeeds or raises a ParserError has consumed a
   * token.
   */
  predicate Advanced<T>(ts: seq<Token>, pos: nat, err: bool, o: Outcome<T>) {
    pos <= o.pos < |ts| && (err ==> o.hadError) && (o.result.Ok? || o.result.error.ParserError? ==> pos < o.pos)
  }

  /** The cursor stays in the sequence and never moves back, and hadError is never cleared. */
  predicate Moved<T>(ts: seq<Token>, pos: nat, err: bool, o: Outcome<T>) {
    pos <= o.pos < |ts| && (err ==> o.hadError)
  }

  /** A node a binary, unary, call or primary rule can build: not an assignment, declaration, lambda or missing node. */
  predicate Simple(e: Expr) {
    !e.AssignExpr? && !e.VarDeclExpr? && !e.LambdaExpr? && !e.Missing?
  }

  /** ignoreNewlines: the first position at or after pos that is not a NEWLINE. */
  function SkipNewlines(ts: seq<Token>, pos: nat): (q: nat)
    requires WellFormed(ts) && pos < |ts|
    ensures pos <= q < |ts| && !Check(ts, q, Newline)
    decreases |ts| - pos
  {
    if Check(ts, pos, Newline) then SkipNewlines(ts, pos + 1) else pos
  }

  // Binary precedence levels, loosest first

  datatype Level = OrLevel | AndLevel | EqualityLevel | ComparisonLevel | AdditionLevel | MultiplicationLevel

  /** The operators a level's loop matches. */
  predicate IsOperator(level: Level, kind: TokenType) {
    match level
    case OrLevel => kind == Or
    case AndLevel => kind == And
    case EqualityLevel => kind == BangEqual || kind == EqualEqual
    case ComparisonLevel => kind == LessEqual || kind == GreaterEqual || kind == Less || kind == Greater
    case AdditionLevel => kind == Plus || kind == Minus
    case MultiplicationLevel => kind == Star || kind == Slash
  }

  /** The token at pos is one of the level's operators (never EOF). */
  predicate CheckOperator(ts: seq<Token>, level: Level, pos: nat)
    requires pos < |ts|
  {
    !AtEnd(ts, pos) && IsOperator(level, ts[pos].kind)
  }

  /** The level whose rule parses this level's operands (exponentiation for multiplication). */
  function Tighter(level: Level): Level
    requires level != MultiplicationLevel
  {
    match level
    case OrLevel => AndLevel
    case AndLevel => EqualityLevel
    case EqualityLevel => ComparisonLevel
    case ComparisonLevel => AdditionLevel
    case AdditionLevel => MultiplicationLevel
  }

  function Rank(level: Level): nat {
    match level
    case OrLevel => 32
    case AndLevel => 30
    case EqualityLevel => 28
    case ComparisonLevel => 26
    case AdditionLevel => 24
    case MultiplicationLevel => 22
  }

  // Expressions

  /** expr: a lambda after '->', else an assignment; a ParserError is swallowed into a missing node. */
  function Expression(ts: seq<Token>, pos: nat, err: bool): (o: Outcome<Expr>)
    requires WellFormed(ts) && pos < |ts|
    ensures Advanced(ts, pos, err, o)
    ensures !(o.result.Err? && o.result.error.ParserError?)
    decreases |ts| - pos, 36
  {
    var attempt := if Check(ts, pos, Arrow) then Lambda(ts, pos + 1, err) else Assignment(ts, pos, err);
    if attempt.result.Err? && attempt.result.error.ParserError? then Outcome(Ok(Missing), attempt.pos, true)
    else attempt
  }

  /** lambdaExpr, after the '->': an optional parameter list, then a block. */
  function Lambda(ts: seq<Token>, pos: nat, err: bool): (o: Outcome<Expr>)
    requires WellFormed(ts) && pos < |ts|
    ensures Moved(ts, pos, err, o)
    decreases |ts| - pos, 35
  {
    var parameters := Parameters(ts, pos);
    if parameters.result.Err? then Outcome(Err(parameters.result.error), parameters.pos, err)
    else LambdaBody(ts, parameters.result.value, parameters.pos, err)
  }

  /** A lambda's body after its parameters: '{' then a block. */
  function LambdaBody(ts: seq<Token>, parameters: seq<Token>, pos: nat, err: bool): (o: Outcome<Expr>)
    requires WellFormed(ts) && pos < |ts|
    ensures Moved(ts, pos, err, o)
    ensures o.result.Ok? ==> o.result.value.LambdaExpr? && o.result.value.parameters == parameters
    ensures !Check(ts, pos, LeftBrace) ==> o == Outcome(Err(LambdaBodyExpected), pos, err)
    decreases |ts| - pos, 34
  {
    if !Check(ts, pos, LeftBrace) then Outcome(Err(LambdaBodyExpected), pos, err)
    else
      var body := Block(ts, pos + 1, [], err);
      if body.result.Err? then Outcome(Err(body.result.error), body.pos, body.hadError)
      else Outcome(Ok(LambdaExpr(parameters, body.result.value)), body.pos, body.hadError)
  }

  /** A lambda's parameter list: none, or '(' then identifiers separated by commas, then ')'. */
  function Parameters(ts: seq<Token>, pos: nat): (o: Outcome<seq<Token>>)
    requires WellFormed(ts) && pos < |ts|
    ensures pos <= o.pos < |ts| && !o.hadError
  {
    if !Check(ts, pos, LeftParen) then Outcome(Ok([]), pos, false)
    else
      var list := if Check(ts, pos + 1, Identifier) then ParameterList(ts, pos + 2, [ts[pos + 1]])
                  else Outcome(Ok([]), pos + 1, false);
      if list.result.Err? then list
      else CloseParameters(ts, list.result.value, list.pos)
  }

  /** The ')' that ends a parameter list. */
  function CloseParameters(ts: seq<Token>, parameters: seq<Token>, pos: nat): (o: Outcome<seq<Token>>)
    requires WellFormed(ts) && pos < |ts|
    ensures pos <= o.pos < |ts| && !o.hadError
    ensures o.result.Ok? <==> Check(ts, pos, RightParen)
    ensures o.result.Ok? ==> o.result.value == parameters
  {
    if Check(ts, pos, RightParen) then Outcome(Ok(parameters), pos + 1, false)
    else Outcome(Err(ParameterListUnclosed), pos, false)
  }

  function ParameterList(ts: seq<Token>, pos: nat, acc: seq<Token>): (o: Outcome<seq<Token>>)
    requires WellFormed(ts) && pos < |ts|
    ensures pos <= o.pos < |ts| && !o.hadError
    decreases |ts| - pos
  {
    if !Check(ts, pos, Comma) then Outcome(Ok(acc), pos, false)
    else if Check(ts, pos + 1, Identifier) then ParameterList(ts, pos + 2, acc + [ts[pos + 1]])
    else Outcome(Err(ParameterExpected), pos + 1, false)
  }

  /**
   * assignExpr: IDENTIFIER '=' expr or IDENTIFIER ':=' expr, decided by two
   * tokens of lookahead, else the `or` level. The second lookahead token is
   * read before anything is compared, so at the final EOF it is read past
   * the end of the sequence.
   */
  function Assignment(ts: seq<Token>, pos: nat, err: bool): (o: Outcome<Expr>)
    requires WellFormed(ts) && pos < |ts|
    ensures Advanced(ts, pos, err, o)
    decreases |ts| - pos, 35
  {
    if pos + 1 >= |ts| then Outcome(Err(ReadPastEnd), pos, err)
    else
      var next := ts[pos].kind;
      var nextNext := ts[pos + 1].kind;
      if next == Identifier && (nextNext == Equal || nextNext == ColonEqual) then
        var value := Expression(ts, pos + 2, err);
        if value.result.Err? then Outcome(Err(value.result.error), value.pos, value.hadError)
        else if nextNext == Equal then Outcome(Ok(AssignExpr(ts[pos], value.result.value)), value.pos, value.hadError)
        else Outcome(Ok(VarDeclExpr(ts[pos], value.result.value)), value.pos, value.hadError)
      else Binary(ts, OrLevel, pos, err)
  }

  /** _or, _and, equality, comparison, addition, multiplication: operands of the next tighter level, joined left-associatively. */
  function Binary(ts: seq<Token>, level: Level, pos: nat, err: bool): (o: Outcome<Expr>)
    requires WellFormed(ts) && pos < |ts|
    ensures Advanced(ts, pos, err, o)
    ensures o.result.Ok? ==> Simple(o.result.value)
    decreases |ts| - pos, Rank(level)
  {
    var left := Operand(ts, level, pos, err);
    if left.result.Err? then left
    else BinaryTail(ts, level, left.result.value, left.pos, left.hadError)
  }

  /** One operand of a level: the next tighter level, or exponentiation below multiplication. */
  function Operand(ts: seq<Token>, level: Level, pos: nat, err: bool): (o: Outcome<Expr>)
    requires WellFormed(ts) && pos < |ts|
    ensures Advanced(ts, pos, err, o)
    ensures o.result.Ok? ==> Simple(o.result.value)
    decreases |ts| - pos, Rank(level) - 1
  {
    if level == MultiplicationLevel then Exponentiation(ts, pos, err) else Binary(ts, Tighter(level), pos, err)
  }

  /** The loop of a level: while the next token is one of its operators, the tree so far becomes that operator's left operand. */
  function BinaryTail(ts: seq<Token>, level: Level, left: Expr, pos: nat, err: bool): (o: Outcome<Expr>)
    requires WellFormed(ts) && pos < |ts| && Simple(left)
    ensures Moved(ts, pos, err, o)
    ensures o.result.Ok? ==> Simple(o.result.value)
    decreases |ts| - pos, Rank(level)
  {
    if CheckOperator(ts, level, pos) then BinaryStep(ts, level, left, ts[pos], pos + 1, err)
    else Outcome(Ok(left), pos, err)
  }

  /** One pass of a binary level's loop after the operator `op`: the right operand, then the loop again. */
  function BinaryStep(ts: seq<Token>, level: Level, left: Expr, op: Token, pos: nat, err: bool): (o: Outcome<Expr>)
    requires WellFormed(ts) && pos < |ts| && Simple(left)
    ensures Advanced(ts, pos, err, o)
    ensures o.result.Ok? ==> Simple(o.result.value)
    decreases |ts| - pos, Rank(level)
  {
    var right := Operand(ts, level, pos, err);
    if right.result.Err? then Outcome(Err(right.result.error), right.pos, right.hadError)
    else BinaryTail(ts, level, BinaryExpr(op, left, right.result.value), right.pos, right.hadError)
  }

  /** exponentiation: a unary operand, then '**' and a right operand parsed by exponentiation itself. */
  function Exponentiation(ts: seq<Token>, pos: nat, err: bool): (o: Outcome<Expr>)
    requires WellFormed(ts) && pos < |ts|
    ensures Advanced(ts, pos, err, o)
    ensures o.result.Ok? ==> Simple(o.result.value)
    decreases |ts| - pos, 20
  {
    var left := Unary(ts, pos, err);
    if left.result.Err? then left
    else ExponentTail(ts, left.result.value, left.pos, left.hadError)
  }

  function ExponentTail(ts: seq<Token>, left: Expr, pos: nat, err: bool): (o: Outcome<Expr>)
    requires WellFormed(ts) && pos < |ts| && Simple(left)
    ensures Moved(ts, pos, err, o)
    ensures o.result.Ok? ==> Simple(o.result.value)
    decreases |ts| - pos, 20
  {
    if Check(ts, pos, StarStar) then ExponentStep(ts, left, ts[pos], pos + 1, err)
    else Outcome(Ok(left), pos, err)
  }

  /** One pass of exponentiation's loop after the '**' `op`: the right operand, then the loop again. */
  function ExponentStep(ts: seq<Token>, left: Expr, op: Token, pos: nat, err: bool): (o: Outcome<Expr>)
    requires WellFormed(ts) && pos < |ts| && Simple(left)
    ensures Advanced(ts, pos, err, o)
    ensures o.result.Ok? ==> Simple(o.result.value)
    decreases |ts| - pos, 21
  {
    var right := Exponentiation(ts, pos, err);
    if right.result.Err? then Outcome(Err(right.result.error), right.pos, right.hadError)
    else ExponentTail(ts, BinaryExpr(op, left, right.result.value), right.pos, right.hadError)
  }

  /** unary: '-', '!' or 'not' applied to a unary operand, else a call. */
  function Unary(ts: seq<Token>, pos: nat, err: bool): (o: Outcome<Expr>)
    requires WellFormed(ts) && pos < |ts|
    ensures Advanced(ts, pos, err, o)
    ensures o.result.Ok? ==> Simple(o.result.value)
    decreases |ts| - pos, 18
  {
    if (Check(ts, pos, Minus) || Check(ts, pos, Bang) || Check(ts, pos, Not)) then Prefix(ts, pos, err)
    else Call(ts, pos, err)
  }

  /** call: a primary followed by any number of argument lists. */
  function Call(ts: seq<Token>, pos: nat, err: bool): (o: Outcome<Expr>)
    requires WellFormed(ts) && pos < |ts|
    ensures Advanced(ts, pos, err, o)
    ensures o.result.Ok? ==> Simple(o.result.value)
    decreases |ts| - pos, 16
  {
    var callee := Primary(ts, pos, err);
    if callee.result.Err? then callee
    else CallTail(ts, callee.result.value, callee.pos, callee.hadError)
  }

  function CallTail(ts: seq<Token>, callee: Expr, pos: nat, err: bool): (o: Outcome<Expr>)
    requires WellFormed(ts) && pos < |ts| && Simple(callee)
    ensures Moved(ts, pos, err, o)
    ensures o.result.Ok? ==> Simple(o.result.value)
    decreases |ts| - pos, 16
  {
    if Check(ts, pos, LeftParen) then
      var call := FinishCall(ts, callee, pos + 1, err);
      if call.result.Err? then call
      else CallTail(ts, call.result.value, call.pos, call.hadError)
    else Outcome(Ok(callee), pos, err)
  }

  /** finishCall, after the '(': arguments separated by commas, then ')', whose absence is a RuntimeError. */
  function FinishCall(ts: seq<Token>, callee: Expr, pos: nat, err: bool): (o: Outcome<Expr>)
    requires WellFormed(ts) && pos < |ts|
    ensures Moved(ts, pos, err, o)
    ensures o.result.Ok? ==> o.result.value.CallExpr? && pos < o.pos
    ensures !(o.result.Err? && o.result.error.ParserError?)
    decreases |ts| - pos, 38
  {
    var arguments := if Check(ts, pos, RightParen) then Outcome(Ok([]), pos, err) else Arguments(ts, pos, [], err);
    if arguments.result.Err? then Outcome(Err(arguments.result.error), arguments.pos, arguments.hadError)
    else CloseCall(ts, callee, arguments.result.value, arguments.pos, arguments.hadError)
  }

  /** The end of finishCall: the ')' after the arguments, whose absence is a RuntimeError. */
  function CloseCall(ts: seq<Token>, callee: Expr, arguments: seq<Expr>, pos: nat, err: bool): (o: Outcome<Expr>)
    requires WellFormed(ts) && pos < |ts|
    ensures Moved(ts, pos, err, o)
    ensures o.result.Ok? ==> o.result.value.CallExpr? && pos < o.pos
    ensures o.result.Err? ==> o.result.error == ArgumentsUnclosed
  {
    if Check(ts, pos, RightParen) then Outcome(Ok(CallExpr(callee, ts[pos], arguments)), pos + 1, err)
    else Outcome(Err(ArgumentsUnclosed), pos, err)
  }

  /** The do-while of finishCall: an expression, then another after each comma. */
  function Arguments(ts: seq<Token>, pos: nat, acc: seq<Expr>, err: bool): (o: Outcome<seq<Expr>>)
    requires WellFormed(ts) && pos < |ts|
    ensures Moved(ts, pos, err, o)
    ensures !(o.result.Err? && o.result.error.ParserError?)
    decreases |ts| - pos, 37
  {
    var argument := Expression(ts, pos, err);
    if argument.result.Err? then Outcome(Err(argument.result.error), argument.pos, argument.hadError)
    else ArgumentsRest(ts, argument.pos, acc + [argument.result.value], argument.hadError)
  }

  /** The `while (match(COMMA))` test of finishCall: a comma starts another argument, anything else ends the list. */
  function ArgumentsRest(ts: seq<Token>, pos: nat, acc: seq<Expr>, err: bool): (o: Outcome<seq<Expr>>)
    requires WellFormed(ts) && pos < |ts|
    ensures Moved(ts, pos, err, o)
    ensures !(o.result.Err? && o.result.error.ParserError?)
    decreases |ts| - pos, 36
  {
    if Check(ts, pos, Comma) then Arguments(ts, pos + 1, acc, err)
    else Outcome(Ok(acc), pos, err)
  }

  /** A number node: the token and the value std::stod reads from its lexeme. */
  function NumberNode(token: Token, imaginary: bool): Result<Expr> {
    match Scanning.Stod(token.lexeme)
    case None => Err(NotANumber)
    case Some(x) => Ok(if imaginary then ImaginaryNumber(token, x) else RealNumber(token, x))
  }

  /**
   * primary: literals, keyword constants, the prefix operators j, mag, re,
   * im and angleOf applied to a unary operand, a parenthesised expression
   * (which may not be followed by 'j'), or an identifier.
   */
  function Primary(ts: seq<Token>, pos: nat, err: bool): (o: Outcome<Expr>)
    requires WellFormed(ts) && pos < |ts|
    ensures Advanced(ts, pos, err, o)
    ensures o.result.Ok? ==> Simple(o.result.value)
    decreases |ts| - pos, 15
  {
    if (Check(ts, pos, True) || Check(ts, pos, False)) then Outcome(Ok(BooleanExpr(ts[pos])), pos + 1, err)
    else if (Check(ts, pos, Pi) || Check(ts, pos, Euler)) then Outcome(Ok(KeywordConstant(ts[pos])), pos + 1, err)
    else if (Check(ts, pos, J) || Check(ts, pos, Mag) || Check(ts, pos, Re) || Check(ts, pos, Im) || Check(ts, pos, AngleOf)) then
      Prefix(ts, pos, err)
    else if Check(ts, pos, LeftParen) then Parenthesized(ts, pos + 1, err)
    else Literal(ts, pos, err)
  }

  /** The prefix operators of primary: the operator token at pos applied to a unary operand. */
  function Prefix(ts: seq<Token>, pos: nat, err: bool): (o: Outcome<Expr>)
    requires WellFormed(ts) && pos < |ts| && !AtEnd(ts, pos)
    ensures Advanced(ts, pos, err, o)
    ensures o.result.Ok? ==> Simple(o.result.value)
    decreases |ts| - pos, 14
  {
    var operand := Unary(ts, pos + 1, err);
    if operand.result.Err? then Outcome(Err(operand.result.error), operand.pos, operand.hadError)
    else Outcome(Ok(UnaryExpr(ts[pos], operand.result.value)), operand.pos, operand.hadError)
  }

  /** The literals of primary: number and string literals and identifiers, the one token each takes. */
  function Literal(ts: seq<Token>, pos: nat, err: bool): (o: Outcome<Expr>)
    requires WellFormed(ts) && pos < |ts|
    ensures Advanced(ts, pos, err, o)
    ensures o.result.Ok? ==> Simple(o.result.value)
  {
    if Check(ts, pos, NumberLiteral) then Outcome(NumberNode(ts[pos], false), pos + 1, err)
    else if Check(ts, pos, ImNumberLiteral) then Outcome(NumberNode(ts[pos], true), pos + 1, err)
    else if Check(ts, pos, StringLiteral) then Outcome(Ok(StringExpr(ts[pos])), pos + 1, err)
    else if Check(ts, pos, Identifier) then Outcome(Ok(IdentifierExpr(ts[pos])), pos + 1, err)
    else Outcome(Err(UnhandledPrimary), pos, err)
  }

  /** The parenthesised grouping of primary, after '(': an expression, not followed by 'j', then ')'. */
  function Parenthesized(ts: seq<Token>, pos: nat, err: bool): (o: Outcome<Expr>)
    requires WellFormed(ts) && pos < |ts|
    ensures Moved(ts, pos, err, o)
    ensures o.result.Ok? ==> o.result.value.Grouping?
    decreases |ts| - pos, 37
  {
    var inner := Expression(ts, pos, err);
    if inner.result.Err? then Outcome(Err(inner.result.error), inner.pos, inner.hadError)
    else if ts[inner.pos].kind == J then Outcome(Err(UnexpectedJ), inner.pos, inner.hadError)
    else if !Check(ts, inner.pos, RightParen) then Outcome(Err(GroupingUnclosed), inner.pos, inner.hadError)
    else Outcome(Ok(Grouping(inner.result.value)), inner.pos + 1, inner.hadError)
  }

  // Statements

  /** stmt: output statements and blocks by their first token, else the statements OtherStatement tells apart. */
  function Statement(ts: seq<Token>, pos: nat, err: bool): (o: Outcome<Stmt>)
    requires WellFormed(ts) && pos < |ts|
    ensures Advanced(ts, pos, err, o)
    decreases |ts| - pos, 39
  {
    if Check(ts, pos, Output) then OutputStatement(ts, pos + 1, err)
    else if Check(ts, pos, LeftBrace) then
      var block := Block(ts, pos + 1, [], err);
      if block.result.Err? then Outcome(Err(block.result.error), block.pos, block.hadError)
      else Outcome(Ok(BlockStmt(block.result.value)), block.pos, block.hadError)
    else OtherStatement(ts, pos, err)
  }

  /** The rest of stmt: if and while statements by their first token, else an expression statement. */
  function OtherStatement(ts: seq<Token>, pos: nat, err: bool): (o: Outcome<Stmt>)
    requires WellFormed(ts) && pos < |ts|
    ensures Advanced(ts, pos, err, o)
    decreases |ts| - pos, 38
  {
    if Check(ts, pos, If) then IfStatement(ts, pos + 1, err)
    else if Check(ts, pos, While) then WhileStatement(ts, pos + 1, err)
    else ExpressionStatement(ts, pos, err)
  }

  /** checkTerminator: a NEWLINE is consumed, a '}' is left for the block; anything else is an error. */
  function Terminator(ts: seq<Token>, pos: nat): (r: Result<nat>)
    requires WellFormed(ts) && pos < |ts|
    ensures r.Ok? ==> pos <= r.value < |ts|
  {
    if Check(ts, pos, Newline) then Ok(pos + 1)
    else if ts[pos].kind == RightBrace then Ok(pos)
    else Result<nat>.Err(TerminatorExpected)
  }

  function ExpressionStatement(ts: seq<Token>, pos: nat, err: bool): (o: Outcome<Stmt>)
    requires WellFormed(ts) && pos < |ts|
    ensures Advanced(ts, pos, err, o)
    decreases |ts| - pos, 37
  {
    var e := Expression(ts, pos, err);
    if e.result.Err? then Outcome(Err(e.result.error), e.pos, e.hadError)
    else match Terminator(ts, e.pos)
      case Err(error) => Outcome(Err(error), e.pos, e.hadError)
      case Ok(next) => Outcome(Ok(ExprStmt(e.result.value)), next, e.hadError)
  }

  /** outputStmt, after 'output'. */
  function OutputStatement(ts: seq<Token>, pos: nat, err: bool): (o: Outcome<Stmt>)
    requires WellFormed(ts) && pos < |ts|
    ensures Advanced(ts, pos, err, o)
    decreases |ts| - pos, 37
  {
    var e := Expression(ts, pos, err);
    if e.result.Err? then Outcome(Err(e.result.error), e.pos, e.hadError)
    else match Terminator(ts, e.pos)
      case Err(error) => Outcome(Err(error), e.pos, e.hadError)
      case Ok(next) => Outcome(Ok(OutputStmt(e.result.value)), next, e.hadError)
  }

  /** blockStmt, after '{': statements until '}' or EOF, then the '}'. */
  function Block(ts: seq<Token>, pos: nat, acc: seq<Stmt>, err: bool): (o: Outcome<seq<Stmt>>)
    requires WellFormed(ts) && pos < |ts|
    ensures Moved(ts, pos, err, o)
    ensures o.result.Ok? ==> pos < o.pos && ts[o.pos - 1].kind == RightBrace
    decreases |ts| - pos, 41
  {
    if !Check(ts, pos, RightBrace) && !AtEnd(ts, pos) then BlockItem(ts, pos, acc, err)
    else if Check(ts, pos, RightBrace) then Outcome(Ok(acc), pos + 1, err)
    else Outcome(Err(BlockUnclosed), pos, err)
  }

  /** One pass of blockStmt's loop: the newlines, then a statement, then the loop again. */
  function BlockItem(ts: seq<Token>, pos: nat, acc: seq<Stmt>, err: bool): (o: Outcome<seq<Stmt>>)
    requires WellFormed(ts) && pos < |ts|
    ensures Moved(ts, pos, err, o)
    ensures o.result.Ok? ==> pos < o.pos && ts[o.pos - 1].kind == RightBrace
    decreases |ts| - pos, 40
  {
    var s := Statement(ts, SkipNewlines(ts, pos), err);
    if s.result.Err? then Outcome(Err(s.result.error), s.pos, s.hadError)
    else Block(ts, s.pos, acc + [s.result.value], s.hadError)
  }

  /** ifStmt, after 'if': condition, newlines, then-branch, newlines, and an optional 'else' branch. */
  function IfStatement(ts: seq<Token>, pos: nat, err: bool): (o: Outcome<Stmt>)
    requires WellFormed(ts) && pos < |ts|
    ensures Advanced(ts, pos, err, o)
    decreases |ts| - pos, 37
  {
    var condition := Expression(ts, pos, err);
    if condition.result.Err? then Outcome(Err(condition.result.error), condition.pos, condition.hadError)
    else
      var thenBranch := Statement(ts, SkipNewlines(ts, condition.pos), condition.hadError);
      if thenBranch.result.Err? then Outcome(Err(thenBranch.result.error), thenBranch.pos, thenBranch.hadError)
      else ElseClause(ts, condition.result.value, thenBranch.result.value, thenBranch.pos, thenBranch.hadError)
  }

  /** The rest of ifStmt after the then-branch: newlines, then an optional 'else', newlines and else-branch. */
  function ElseClause(ts: seq<Token>, condition: Expr, thenBranch: Stmt, pos: nat, err: bool): (o: Outcome<Stmt>)
    requires WellFormed(ts) && pos < |ts|
    ensures Moved(ts, pos, err, o)
    ensures o.result.Ok? ==> o.result.value.IfStmt?
    decreases |ts| - pos, 37
  {
    ElseTest(ts, condition, thenBranch, SkipNewlines(ts, pos), err)
  }

  /** The `match(ELSE)` of ifStmt, after the newlines that follow the then-branch. */
  function ElseTest(ts: seq<Token>, condition: Expr, thenBranch: Stmt, pos: nat, err: bool): (o: Outcome<Stmt>)
    requires WellFormed(ts) && pos < |ts|
    ensures Moved(ts, pos, err, o)
    ensures o.result.Ok? ==> o.result.value.IfStmt?
    decreases |ts| - pos, 36
  {
    if Check(ts, pos, Else) then ElseBranch(ts, condition, thenBranch, pos + 1, err)
    else Outcome(Ok(IfStmt(condition, thenBranch, None)), pos, err)
  }

  /** The else-branch of ifStmt, after 'else' and the newlines that follow it. */
  function ElseBranch(ts: seq<Token>, condition: Expr, thenBranch: Stmt, pos: nat, err: bool): (o: Outcome<Stmt>)
    requires WellFormed(ts) && pos < |ts|
    ensures Advanced(ts, pos, err, o)
    ensures o.result.Ok? ==> o.result.value.IfStmt?
    decreases |ts| - pos, 40
  {
    var elseBranch := Statement(ts, SkipNewlines(ts, pos), err);
    if elseBranch.result.Err? then Outcome(Err(elseBranch.result.error), elseBranch.pos, elseBranch.hadError)
    else Outcome(Ok(IfStmt(condition, thenBranch, Some(elseBranch.result.value))), elseBranch.pos, elseBranch.hadError)
  }

  /** whileStmt, after 'while': condition, newlines, body. */
  function WhileStatement(ts: seq<Token>, pos: nat, err: bool): (o: Outcome<Stmt>)
    requires WellFormed(ts) && pos < |ts|
    ensures Advanced(ts, pos, err, o)
    decreases |ts| - pos, 37
  {
    var condition := Expression(ts, pos, err);
    if condition.result.Err? then Outcome(Err(condition.result.error), condition.pos, condition.hadError)
    else
      var body := Statement(ts, SkipNewlines(ts, condition.pos), condition.hadError);
      if body.result.Err? then Outcome(Err(body.result.error), body.pos, body.hadError)
      else Outcome(Ok(WhileStmt(condition.result.value, body.result.value)), body.pos, body.hadError)
  }

  /** parse: statements, skipping blank lines, until EOF. */
  function Program(ts: seq<Token>, pos: nat, acc: seq<Stmt>, err: bool): (o: Outcome<seq<Stmt>>)
    requires WellFormed(ts) && pos < |ts|
    ensures Moved(ts, pos, err, o)
    ensures o.result.Ok? ==> AtEnd(ts, o.pos) && acc <= o.result.value
    decreases |ts| - pos
  {
    if AtEnd(ts, pos) then Outcome(Ok(acc), pos, err)
    else
      var start := SkipNewlines(ts, pos);
      if ts[start].kind == EOF then Outcome(Ok(acc), start, err)
      else
        var s := Statement(ts, start, err);
        if s.result.Err? then Outcome(Err(s.result.error), s.pos, s.hadError)
        else Program(ts, s.pos, acc + [s.result.value], s.hadError)
  }
}
