/**
 * Properties of the grammar the parser recognises: precedence and
 * associativity of the binary levels, the two-token lookahead of
 * assignments, statement terminators, and how `expr` swallows errors.
 */
module GrammarLemmas {

  import opened Errors
  import opened Tokens
  import opened Ast
  import opened Grammar
  import Scanning

  /** When one operand is not followed by an operator of the level, the level yields that operand unchanged. */
  lemma OneOperand(ts: seq<Token>, level: Level, p: nat, err: bool)
    requires WellFormed(ts) && p < |ts|
    requires Operand(ts, level, p, err).result.Ok?
    requires !CheckOperator(ts, level, Operand(ts, level, p, err).pos)
    ensures Binary(ts, level, p, err) == Operand(ts, level, p, err)
  {
  }

  /**
   * Two operands joined by an operator of the level, with no further
   * operator of that level: the level builds one binary node whose operands
   * are what the next tighter level parsed, so the tighter operators bind
   * first.
   */
  lemma TwoOperands(ts: seq<Token>, level: Level, p: nat, err: bool)
    requires WellFormed(ts) && p < |ts|
    requires Operand(ts, level, p, err).result.Ok?
    requires CheckOperator(ts, level, Operand(ts, level, p, err).pos)
    requires Operand(ts, level, Operand(ts, level, p, err).pos + 1, Operand(ts, level, p, err).hadError).result.Ok?
    requires !CheckOperator(ts, level, Operand(ts, level, Operand(ts, level, p, err).pos + 1, Operand(ts, level, p, err).hadError).pos)
    ensures var a := Operand(ts, level, p, err);
            var b := Operand(ts, level, a.pos + 1, a.hadError);
            Binary(ts, level, p, err) == Outcome(Ok(BinaryExpr(ts[a.pos], a.result.value, b.result.value)), b.pos, b.hadError)
  {
    var a := Operand(ts, level, p, err);
    var b := Operand(ts, level, a.pos + 1, a.hadError);
    var node := BinaryExpr(ts[a.pos], a.result.value, b.result.value);
    TailStep(ts, level, a.result.value, a.pos, a.hadError);
    assert BinaryTail(ts, level, node, b.pos, b.hadError) == Outcome(Ok(node), b.pos, b.hadError);
  }

  /** One pass of a level's loop: the operator at `pos` and the operand after it become the new left operand. */
  lemma TailStep(ts: seq<Token>, level: Level, left: Expr, pos: nat, err: bool)
    requires WellFormed(ts) && pos < |ts| && Simple(left)
    requires CheckOperator(ts, level, pos) && Operand(ts, level, pos + 1, err).result.Ok?
    ensures var b := Operand(ts, level, pos + 1, err);
            BinaryTail(ts, level, left, pos, err)
            == BinaryTail(ts, level, BinaryExpr(ts[pos], left, b.result.value), b.pos, b.hadError)
  {
  }

  /** Three operands joined by two operators of the same level group to the left: (a op b) op c. */
  lemma LeftAssociative(ts: seq<Token>, level: Level, p: nat, err: bool)
    requires WellFormed(ts) && p < |ts|
    requires Operand(ts, level, p, err).result.Ok?
    requires CheckOperator(ts, level, Operand(ts, level, p, err).pos)
    requires Operand(ts, level, Operand(ts, level, p, err).pos + 1, Operand(ts, level, p, err).hadError).result.Ok?
    requires CheckOperator(ts, level, Operand(ts, level, Operand(ts, level, p, err).pos + 1, Operand(ts, level, p, err).hadError).pos)
    requires var a := Operand(ts, level, p, err);
             var b := Operand(ts, level, a.pos + 1, a.hadError);
             var c := Operand(ts, level, b.pos + 1, b.hadError);
             c.result.Ok? && !CheckOperator(ts, level, c.pos)
    ensures var a := Operand(ts, level, p, err);
            var b := Operand(ts, level, a.pos + 1, a.hadError);
            var c := Operand(ts, level, b.pos + 1, b.hadError);
            Binary(ts, level, p, err)
            == Outcome(Ok(BinaryExpr(ts[b.pos], BinaryExpr(ts[a.pos], a.result.value, b.result.value), c.result.value)),
                       c.pos, c.hadError)
  {
    var a := Operand(ts, level, p, err);
    var b := Operand(ts, level, a.pos + 1, a.hadError);
    var c := Operand(ts, level, b.pos + 1, b.hadError);
    var inner := BinaryExpr(ts[a.pos], a.result.value, b.result.value);
    var outer := BinaryExpr(ts[b.pos], inner, c.result.value);
    TailStep(ts, level, a.result.value, a.pos, a.hadError);
    TailStep(ts, level, inner, b.pos, b.hadError);
    assert BinaryTail(ts, level, outer, c.pos, c.hadError) == Outcome(Ok(outer), c.pos, c.hadError);
  }

  /** A unary operand not followed by '**' is the whole exponentiation. */
  lemma OneFactor(ts: seq<Token>, p: nat, err: bool)
    requires WellFormed(ts) && p < |ts|
    requires Unary(ts, p, err).result.Ok? && !Check(ts, Unary(ts, p, err).pos, StarStar)
    ensures Exponentiation(ts, p, err) == Unary(ts, p, err)
  {
  }

  /** One pass of exponentiation's loop: the '**' at `pos` and the exponentiation after it become the new left operand. */
  lemma PowerStep(ts: seq<Token>, left: Expr, pos: nat, err: bool)
    requires WellFormed(ts) && pos < |ts| && Simple(left)
    requires Check(ts, pos, StarStar) && Exponentiation(ts, pos + 1, err).result.Ok?
    ensures var b := Exponentiation(ts, pos + 1, err);
            ExponentTail(ts, left, pos, err)
            == ExponentTail(ts, BinaryExpr(ts[pos], left, b.result.value), b.pos, b.hadError)
  {
  }

  /** Three unary operands joined by '**' group to the right: a ** (b ** c). */
  lemma RightAssociative(ts: seq<Token>, p: nat, err: bool, a: Outcome<Expr>, b: Outcome<Expr>, c: Outcome<Expr>)
    requires WellFormed(ts) && p < |ts|
    requires a == Unary(ts, p, err) && a.result.Ok? && Check(ts, a.pos, StarStar)
    requires b == Unary(ts, a.pos + 1, a.hadError) && b.result.Ok? && Check(ts, b.pos, StarStar)
    requires c == Unary(ts, b.pos + 1, b.hadError) && c.result.Ok? && !Check(ts, c.pos, StarStar)
    ensures Exponentiation(ts, p, err)
            == Outcome(Ok(BinaryExpr(ts[a.pos], a.result.value, BinaryExpr(ts[b.pos], b.result.value, c.result.value))),
                       c.pos, c.hadError)
  {
    var outer := BinaryExpr(ts[a.pos], a.result.value, BinaryExpr(ts[b.pos], b.result.value, c.result.value));
    TwoFactors(ts, a.pos + 1, a.hadError, b, c);
    PowerStep(ts, a.result.value, a.pos, a.hadError);
    assert ExponentTail(ts, outer, c.pos, c.hadError) == Outcome(Ok(outer), c.pos, c.hadError);
  }

  /** Two unary operands joined by one '**' make one binary node. */
  lemma TwoFactors(ts: seq<Token>, p: nat, err: bool, b: Outcome<Expr>, c: Outcome<Expr>)
    requires WellFormed(ts) && p < |ts|
    requires b == Unary(ts, p, err) && b.result.Ok? && Check(ts, b.pos, StarStar)
    requires c == Unary(ts, b.pos + 1, b.hadError) && c.result.Ok? && !Check(ts, c.pos, StarStar)
    ensures Exponentiation(ts, p, err) == Outcome(Ok(BinaryExpr(ts[b.pos], b.result.value, c.result.value)), c.pos, c.hadError)
  {
    var inner := BinaryExpr(ts[b.pos], b.result.value, c.result.value);
    OneFactor(ts, b.pos + 1, b.hadError);
    PowerStep(ts, b.result.value, b.pos, b.hadError);
    assert ExponentTail(ts, inner, c.pos, c.hadError) == Outcome(Ok(inner), c.pos, c.hadError);
  }

  /**
   * assignExpr builds an assignment exactly when an identifier is followed by
   * '=' and the value parses, and a declaration exactly when it is followed
   * by ':='; every other expression comes from the `or` level.
   */
  lemma AssignmentLookahead(ts: seq<Token>, pos: nat, err: bool)
    requires WellFormed(ts) && pos < |ts|
    ensures var o := Assignment(ts, pos, err);
            o.result.Ok? && o.result.value.AssignExpr?
            <==> pos + 1 < |ts| && ts[pos].kind == Identifier && ts[pos + 1].kind == Equal
                 && Expression(ts, pos + 2, err).result.Ok?
    ensures var o := Assignment(ts, pos, err);
            o.result.Ok? && o.result.value.VarDeclExpr?
            <==> pos + 1 < |ts| && ts[pos].kind == Identifier && ts[pos + 1].kind == ColonEqual
                 && Expression(ts, pos + 2, err).result.Ok?
    ensures var o := Assignment(ts, pos, err);
            o.result.Ok? && (o.result.value.AssignExpr? || o.result.value.VarDeclExpr?) ==> o.result.value.name == ts[pos]
    ensures pos + 1 < |ts| && !(ts[pos].kind == Identifier && (ts[pos + 1].kind == Equal || ts[pos + 1].kind == ColonEqual))
            ==> Assignment(ts, pos, err) == Binary(ts, OrLevel, pos, err)
  {
  }

  /** The second lookahead token of assignExpr lies past the end when the cursor is on the final EOF. */
  lemma LookaheadPastEnd(ts: seq<Token>, err: bool)
    requires WellFormed(ts)
    ensures Assignment(ts, |ts| - 1, err).result == Err(ReadPastEnd)
    ensures Expression(ts, |ts| - 1, err).result == Err(ReadPastEnd)
  {
  }

  /**
   * An expression or output statement must be followed by a NEWLINE, which
   * it consumes, or by '}', which it leaves for the enclosing block;
   * otherwise parsing fails with a ParserError.
   */
  lemma StatementTerminator(ts: seq<Token>, pos: nat, err: bool)
    requires WellFormed(ts) && pos < |ts|
    requires Expression(ts, pos, err).result.Ok?
    ensures var e := Expression(ts, pos, err);
            var s := ExpressionStatement(ts, pos, err);
            (s.result.Ok? <==> Check(ts, e.pos, Newline) || ts[e.pos].kind == RightBrace)
            && (Check(ts, e.pos, Newline) ==> s.pos == e.pos + 1)
            && (s.result.Ok? && !Check(ts, e.pos, Newline) ==> s.pos == e.pos && ts[s.pos].kind == RightBrace)
            && (s.result.Err? ==> s.result.error == TerminatorExpected && s.pos == e.pos)
  {
  }

  /** A block that reaches EOF before its '}' fails, wherever the statements before it ended. */
  lemma UnclosedBlock(ts: seq<Token>, pos: nat, acc: seq<Stmt>, err: bool)
    requires WellFormed(ts) && pos < |ts| && AtEnd(ts, pos)
    ensures Block(ts, pos, acc, err) == Outcome(Err(BlockUnclosed), pos, err)
  {
  }

  /**
   * expr never lets a ParserError escape, and yields a missing node only
   * after recording an error in hadError.
   */
  lemma MissingOnlyAfterError(ts: seq<Token>, pos: nat, err: bool)
    requires WellFormed(ts) && pos < |ts|
    ensures var o := Expression(ts, pos, err);
            !(o.result.Err? && o.result.error.ParserError?) && (o.result == Ok(Missing) ==> o.hadError)
  {
    if !Check(ts, pos, Arrow) {
      var a := Assignment(ts, pos, err);
      if a.result.Ok? && !a.result.value.AssignExpr? && !a.result.value.VarDeclExpr? {
        assert a == Binary(ts, OrLevel, pos, err);
      }
    }
  }

  /** An error other than a ParserError raised inside an expression passes through expr unchanged. */
  lemma OtherErrorsPropagate(ts: seq<Token>, pos: nat, err: bool)
    requires WellFormed(ts) && pos < |ts| && !Check(ts, pos, Arrow)
    requires Assignment(ts, pos, err).result.Err? && !Assignment(ts, pos, err).result.error.ParserError?
    ensures Expression(ts, pos, err) == Assignment(ts, pos, err)
  {
  }

  /** A number literal is a primary: its node holds the value std::stod reads from it. */
  lemma NumberPrimary(ts: seq<Token>, k: nat, err: bool)
    requires WellFormed(ts) && k < |ts| && ts[k].kind == NumberLiteral
    ensures Primary(ts, k, err) == Outcome(NumberNode(ts[k], false), k + 1, err)
  {
    assert Literal(ts, k, err) == Outcome(NumberNode(ts[k], false), k + 1, err);
  }

  /** A number literal not followed by a call or '**' is a whole exponentiation operand. */
  lemma NumberFactor(ts: seq<Token>, k: nat, err: bool, value: real)
    requires WellFormed(ts) && k + 1 < |ts|
    requires ts[k].kind == NumberLiteral && Scanning.Stod(ts[k].lexeme) == Some(value)
    requires ts[k + 1].kind != LeftParen && ts[k + 1].kind != StarStar
    ensures Exponentiation(ts, k, err) == Outcome(Ok(RealNumber(ts[k], value)), k + 1, err)
  {
    var node := RealNumber(ts[k], value);
    NumberUnary(ts, k, err, value);
    assert ExponentTail(ts, node, k + 1, err) == Outcome(Ok(node), k + 1, err);
  }

  /** A number literal not followed by '(' is a whole unary operand. */
  lemma NumberUnary(ts: seq<Token>, k: nat, err: bool, value: real)
    requires WellFormed(ts) && k + 1 < |ts|
    requires ts[k].kind == NumberLiteral && Scanning.Stod(ts[k].lexeme) == Some(value)
    requires ts[k + 1].kind != LeftParen
    ensures Unary(ts, k, err) == Outcome(Ok(RealNumber(ts[k], value)), k + 1, err)
  {
    var node := RealNumber(ts[k], value);
    NumberPrimary(ts, k, err);
    assert NumberNode(ts[k], false) == Ok(node);
    assert CallTail(ts, node, k + 1, err) == Outcome(Ok(node), k + 1, err);
    assert Call(ts, k, err) == Outcome(Ok(node), k + 1, err);
  }
}
