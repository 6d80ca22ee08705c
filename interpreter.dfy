/**
 * The tree-walking interpreter (interpreter.cpp).
 *
 * The interpreter object holds the current scope, the global scope and the
 * repl flag; statements are run by visitor methods that evaluate
 * subexpressions, update scopes in place and swap the current scope around
 * blocks. Console output is recorded in the `output` field: the values whose
 * repr() the source writes, in order.
 *
 * The expressions that neither assign, declare, call nor build a closure are
 * specified by the function Denote, which reads the scope chain and changes
 * nothing; the visitors are proved to compute Denote on them.
 *
 * Evaluation is given fuel: a closure call and an iteration of `while` each
 * spend one unit, and OutOfFuel stands for a run that would go on longer.
 */
module Interpreter {

  import opened Errors
  import opened Tokens
  import opened Ast
  import opened Runtime
  import Scanning
  import Closures
  import Operators

  /** constants.h */
  const PiConstant: real := 3.14159265358979323846
  const EulerConstant: real := 2.71828182845904523536

  /** The operator a binary node's token selects (the switch of visitBinaryExpr). */
  function ApplyBinary(op: TokenType, left: Object, right: Object): (r: Result<Value>)
    ensures r.Ok? ==> !r.value.Callable?
    ensures op !in {Plus, Minus, Star, StarStar, Slash, EqualEqual, BangEqual, Or, And,
                    LessEqual, GreaterEqual, Less, Greater} ==>
              r == Err(ImplementationError("binary operator not handled in switch."))
  {
    match op
    case Plus => Operators.Add(left, right)
    case Minus => Operators.Subtract(left, right)
    case Star => Operators.Multiply(left, right)
    case StarStar => Operators.Power(left, right)
    case Slash => Operators.Divide(left, right)
    case EqualEqual => Operators.Equal(left, right)
    case BangEqual => Operators.NotEqual(left, right)
    case Or => Operators.Or(left, right)
    case And => Operators.And(left, right)
    case LessEqual => Operators.Compare(Operators.Le, left, right)
    case GreaterEqual => Operators.Compare(Operators.Ge, left, right)
    case Less => Operators.Compare(Operators.Lt, left, right)
    case Greater => Operators.Compare(Operators.Gt, left, right)
    case _ => Err(ImplementationError("binary operator not handled in switch."))
  }

  /** The operator a unary node's token selects (the switch of visitUnaryExpr). */
  function ApplyUnary(op: TokenType, operand: Object): (r: Result<Value>)
    ensures r.Ok? ==> !r.value.Callable?
    ensures op !in {Minus, J, Bang, Not} ==> r == Err(ImplementationError("unary operator not handled."))
  {
    match op
    case Minus => Operators.Negate(operand)
    case J => Operators.TimesJ(operand)
    case Bang => Operators.Not(operand)
    case Not => Operators.Not(operand)
    case _ => Err(ImplementationError("unary operator not handled."))
  }

  /** The value of a keyword constant: pi and euler, and no other. */
  function KeywordValue(kind: TokenType): (r: Result<Value>)
    ensures kind == Pi ==> r == Ok(Real(PiConstant))
    ensures kind == Euler ==> r == Ok(Real(EulerConstant))
    ensures kind != Pi && kind != Euler ==> r == Err(ImplementationError("Keyword constant not handled in interpreter."))
  {
    match kind
    case Pi => Ok(Real(PiConstant))
    case Euler => Ok(Real(EulerConstant))
    case _ => Err(ImplementationError("Keyword constant not handled in interpreter."))
  }

  /** The expressions that change no state: no assignment, declaration, call or lambda inside. */
  predicate Pure(e: Expr)
    decreases e
  {
    match e
    case BinaryExpr(_, left, right) => Pure(left) && Pure(right)
    case Grouping(contents) => Pure(contents)
    case UnaryExpr(_, operand) => Pure(operand)
    case AssignExpr(_, _) => false
    case VarDeclExpr(_, _) => false
    case CallExpr(_, _, _) => false
    case LambdaExpr(_, _) => false
    case _ => true
  }

  /**
   * The value of a pure expression in a scope chain: operands left then
   * right, both always evaluated, then the operator; a name is looked up from
   * the innermost scope outward. The null left by a swallowed syntax error is
   * dereferenced.
   */
  function Denote(e: Expr, env: Environment): (r: Result<Object>)
    requires env.Valid() && Pure(e)
    reads env.Chain()
    ensures r.Ok? ==> r.value.Some?
    decreases e
  {
    match e
    case BinaryExpr(op, left, right) =>
      var l :- Denote(left, env);
      var rv :- Denote(right, env);
      var v :- ApplyBinary(op.kind, l, rv);
      Ok(Some(v))
    case Grouping(contents) => Denote(contents, env)
    case UnaryExpr(op, operand) =>
      var x :- Denote(operand, env);
      var v :- ApplyUnary(op.kind, x);
      Ok(Some(v))
    case IdentifierExpr(token) =>
      var v := env.Lookup(token.lexeme);
      if v.None? then Err(RuntimeError("undefined variable '" + token.lexeme + "'.")) else Ok(v)
    case RealNumber(_, number) => Ok(Some(Real(number)))
    case ImaginaryNumber(_, number) => Ok(Some(Complex(0.0, number)))
    case StringExpr(token) => Ok(Some(Str(token.lexeme)))
    case BooleanExpr(token) => Ok(Some(Bool(token.kind == True)))
    case KeywordConstant(token) =>
      var v :- KeywordValue(token.kind);
      Ok(Some(v))
    case Missing => Err(Operators.NullDereference)
    case _ => assert false; Err(OutOfFuel)
  }

  /**
   * Operands are evaluated eagerly: when the right operand fails, the whole
   * expression fails with its error, whatever the operator and however the
   * left operand came out, so `or` and `and` never short-circuit.
   */
  lemma EagerOperands(op: Token, left: Expr, right: Expr, env: Environment)
    requires env.Valid() && Pure(left) && Pure(right)
    requires Denote(left, env).Ok? && Denote(right, env).Err?
    ensures Denote(BinaryExpr(op, left, right), env) == Err(Denote(right, env).error)
  {
  }

  /** `true or x` with x unbound is an error, not true. */
  lemma OrDoesNotShortCircuit(env: Environment, e: Expr)
    requires env.Valid() && e.BinaryExpr? && e.op.kind == Or
    requires e.left.BooleanExpr? && e.left.token.kind == True
    requires e.right.IdentifierExpr? && !env.ExistsSomewhere(e.right.token.lexeme)
    ensures Pure(e) && Denote(e, env) == Err(RuntimeError("undefined variable '" + e.right.token.lexeme + "'."))
  {
    env.LookupIsInnermost(e.right.token.lexeme);
  }

  /** 1 + 2 * 3 as the parser builds it, +(1, *(2, 3)), is 7. */
  lemma ArithmeticExample(env: Environment, e: Expr)
    requires env.Valid() && e.BinaryExpr? && e.op.kind == Plus && e.left.RealNumber? && e.left.number == 1.0
    requires e.right.BinaryExpr? && e.right.op.kind == Star
    requires e.right.left.RealNumber? && e.right.left.number == 2.0
    requires e.right.right.RealNumber? && e.right.right.number == 3.0
    ensures Pure(e) && Denote(e, env) == Ok(Some(Real(7.0)))
  {
    assert Pure(e.right.left) && Pure(e.right.right);
    assert Denote(e.right, env) == Ok(Some(Real(6.0)));
  }

  /** A scope with no bindings of its own is transparent: names resolve as in its enclosing scope. */
  lemma {:induction false} DenoteThroughEmptyScope(e: Expr, inner: Environment)
    requires inner.Valid() && inner.enclosing != null && inner.bindings == map[] && Pure(e)
    ensures Denote(e, inner) == Denote(e, inner.enclosing)
    decreases e
  {
    match e
    case BinaryExpr(_, left, right) =>
      DenoteThroughEmptyScope(left, inner);
      DenoteThroughEmptyScope(right, inner);
    case Grouping(contents) =>
      DenoteThroughEmptyScope(contents, inner);
    case UnaryExpr(_, operand) =>
      DenoteThroughEmptyScope(operand, inner);
    case _ =>
  }

  /** A block of expression statements over pure expressions. */
  predicate PureExprStmts(stmts: seq<Stmt>) {
    forall i :: 0 <= i < |stmts| ==> stmts[i].ExprStmt? && Pure(stmts[i].expr)
  }

  /**
   * What a block of pure expression statements yields: the first error, or
   * else the last statement's value, or null for an empty block.
   */
  function DenoteBlock(stmts: seq<Stmt>, env: Environment): Result<Object>
    requires env.Valid() && PureExprStmts(stmts)
    reads env.Chain()
    decreases |stmts|
  {
    if stmts == [] then Ok(None)
    else
      var n := |stmts| - 1;
      var _ :- DenoteBlock(stmts[..n], env);
      Denote(stmts[n].expr, env)
  }

  /** Once a prefix of the block fails, the block fails with the same error. */
  lemma {:induction false} DenoteBlockErrorPersists(stmts: seq<Stmt>, k: nat, env: Environment)
    requires env.Valid() && PureExprStmts(stmts) && k <= |stmts|
    requires DenoteBlock(stmts[..k], env).Err?
    ensures DenoteBlock(stmts, env) == DenoteBlock(stmts[..k], env)
    decreases |stmts|
  {
    if k < |stmts| {
      var n := |stmts| - 1;
      var prefix := stmts[..n];
      assert prefix[..k] == stmts[..k];
      DenoteBlockErrorPersists(prefix, k, env);
      DenoteBlockStopsAtError(stmts, env);
    } else {
      assert stmts[..k] == stmts;
    }
  }

  /** A block whose statements but the last already fail does not evaluate the last. */
  lemma DenoteBlockStopsAtError(stmts: seq<Stmt>, env: Environment)
    requires env.Valid() && PureExprStmts(stmts) && stmts != []
    requires PureExprStmts(stmts[..|stmts| - 1]) && DenoteBlock(stmts[..|stmts| - 1], env).Err?
    ensures DenoteBlock(stmts, env) == DenoteBlock(stmts[..|stmts| - 1], env)
  {
  }

  /** Running one more pure statement after a prefix of the block. */
  lemma DenoteBlockStep(stmts: seq<Stmt>, i: nat, env: Environment)
    requires env.Valid() && PureExprStmts(stmts) && i < |stmts|
    ensures DenoteBlock(stmts[..i + 1], env) == (var _ :- DenoteBlock(stmts[..i], env); Denote(stmts[i].expr, env))
  {
    assert stmts[..i + 1][..i] == stmts[..i];
  }

  /** A block whose statements all succeed yields its last statement's value. */
  lemma {:induction false} DenoteBlockIsLast(stmts: seq<Stmt>, env: Environment)
    requires env.Valid() && PureExprStmts(stmts) && stmts != []
    requires forall i :: 0 <= i < |stmts| ==> Denote(stmts[i].expr, env).Ok?
    ensures DenoteBlock(stmts, env) == Denote(stmts[|stmts| - 1].expr, env)
    decreases |stmts|
  {
    var n := |stmts| - 1;
    if n > 0 {
      assert forall i :: 0 <= i < n ==> stmts[..n][i] == stmts[i];
      DenoteBlockIsLast(stmts[..n], env);
    }
  }

  /** A block of pure statements means the same in a fresh empty scope as in its enclosing scope. */
  lemma {:induction false} DenoteBlockThroughEmptyScope(stmts: seq<Stmt>, inner: Environment)
    requires inner.Valid() && inner.enclosing != null && inner.bindings == map[] && PureExprStmts(stmts)
    ensures DenoteBlock(stmts, inner) == DenoteBlock(stmts, inner.enclosing)
    decreases |stmts|
  {
    if stmts != [] {
      var n := |stmts| - 1;
      DenoteBlockThroughEmptyScope(stmts[..n], inner);
      DenoteThroughEmptyScope(stmts[n].expr, inner);
    }
  }

  /**
   * What a statement's kind promises about its value in any state: output,
   * while and an empty block yield null when they succeed.
   */
  predicate Yields(s: Stmt, r: Result<Object>) {
    r.Ok? && (s.OutputStmt? || s.WhileStmt? || (s.BlockStmt? && s.stmts == [])) ==> r.value == None
  }

  /**
   * The results of running a statement list in order, one per statement run:
   * each is one its statement's kind allows, all but the last succeed, and
   * the run ends before the last statement only at an error.
   */
  predicate RunsInOrder(stmts: seq<Stmt>, results: seq<Result<Object>>) {
    && |results| <= |stmts|
    && (forall k :: 0 <= k < |results| ==> Yields(stmts[k], results[k]))
    && (forall k :: 0 <= k < |results| - 1 ==> results[k].Ok?)
    && (|results| < |stmts| ==> results != [] && results[|results| - 1].Err?)
  }

  /** What a run yields: the error that stopped it, else the last statement's value, else null. */
  function RunResult(results: seq<Result<Object>>): Result<Object> {
    if results == [] then Ok(None) else results[|results| - 1]
  }

  /** The first statements of a list have run, each successfully and as its kind allows. */
  predicate RanOk(stmts: seq<Stmt>, results: seq<Result<Object>>) {
    |results| <= |stmts| && forall k :: 0 <= k < |results| ==> results[k].Ok? && Yields(stmts[k], results[k])
  }

  /** One more statement that succeeds extends a successful run, whose value is then that statement's. */
  lemma RanOkExtend(stmts: seq<Stmt>, results: seq<Result<Object>>, result: Result<Object>)
    requires RanOk(stmts, results) && |results| < |stmts| && result.Ok? && Yields(stmts[|results|], result)
    ensures RanOk(stmts, results + [result]) && RunResult(results + [result]) == result
  {
    assert forall k :: 0 <= k < |results| ==> (results + [result])[k] == results[k];
  }

  /** A statement that fails ends the run, and the run yields its error. */
  lemma RanOkStop(stmts: seq<Stmt>, results: seq<Result<Object>>, result: Result<Object>)
    requires RanOk(stmts, results) && |results| < |stmts| && result.Err?
    ensures RunsInOrder(stmts, results + [result]) && RunResult(results + [result]) == result
  {
    assert forall k :: 0 <= k < |results| ==> (results + [result])[k] == results[k];
  }

  /** A successful run of every statement is a complete run. */
  lemma RanOkAll(stmts: seq<Stmt>, results: seq<Result<Object>>)
    requires RanOk(stmts, results) && |results| == |stmts|
    ensures RunsInOrder(stmts, results)
  {
  }

  /**
   * A run succeeds exactly when every statement ran and succeeded, and then
   * it yields the last statement's value (null for no statements); it fails
   * exactly with the first error, which no later statement follows.
   */
  lemma RunResultIsFirstErrorOrLast(stmts: seq<Stmt>, results: seq<Result<Object>>)
    requires RunsInOrder(stmts, results)
    ensures RunResult(results).Ok? <==> |results| == |stmts| && forall k :: 0 <= k < |results| ==> results[k].Ok?
    ensures RunResult(results).Ok? ==> RunResult(results).value == if stmts == [] then None else results[|stmts| - 1].value
    ensures RunResult(results).Err? ==> results != [] && RunResult(results) == results[|results| - 1]
                                        && forall k :: 0 <= k < |results| - 1 ==> results[k].Ok?
  {
  }

  /** What an expression statement echoes in repl mode: its value, unless it is null. */
  function Echo(repl: bool, r: Result<Object>): seq<Value> {
    if repl && r.Ok? && r.value.Some? then [r.value.value] else []
  }

  /**
   * A list of expression and output statements over pure expressions: the
   * statements whose only effect is on the console.
   */
  predicate SimpleStmts(stmts: seq<Stmt>) {
    forall i :: 0 <= i < |stmts| ==> (stmts[i].ExprStmt? || stmts[i].OutputStmt?) && Pure(stmts[i].expr)
  }

  /** What running statements yields, and the values it writes to the console, in order. */
  datatype Run = Run(result: Result<Object>, written: seq<Value>)

  /**
   * One simple statement: an expression statement yields the expression's
   * value and echoes it in repl mode; `output e` writes e's value and yields
   * null, and a null value is dereferenced. A failing expression writes nothing.
   */
  function SimpleStep(s: Stmt, env: Environment, repl: bool): Run
    requires env.Valid() && (s.ExprStmt? || s.OutputStmt?) && Pure(s.expr)
    reads env.Chain()
  {
    var v := Denote(s.expr, env);
    if s.ExprStmt? then Run(v, Echo(repl, v))
    else if v.Err? then Run(v, [])
    else if v.value.None? then Run(Err(Operators.NullDereference), [])
    else Run(Ok(None), [v.value.value])
  }

  /**
   * The reference run of simple statements in one scope: in order, stopping
   * at the first error, yielding that error or the last statement's value
   * (null for none), and writing what each statement that ran wrote.
   */
  function RunSimple(stmts: seq<Stmt>, env: Environment, repl: bool): Run
    requires env.Valid() && SimpleStmts(stmts)
    reads env.Chain()
    decreases |stmts|
  {
    if stmts == [] then Run(Ok(None), [])
    else
      var n := |stmts| - 1;
      var prefix := RunSimple(stmts[..n], env, repl);
      if prefix.result.Err? then prefix
      else
        var step := SimpleStep(stmts[n], env, repl);
        Run(step.result, prefix.written + step.written)
  }

  /** Running one more simple statement after a prefix of the list. */
  lemma RunSimpleStep(stmts: seq<Stmt>, i: nat, env: Environment, repl: bool)
    requires env.Valid() && SimpleStmts(stmts) && i < |stmts|
    ensures var prefix := RunSimple(stmts[..i], env, repl);
            var step := SimpleStep(stmts[i], env, repl);
            RunSimple(stmts[..i + 1], env, repl)
              == if prefix.result.Err? then prefix else Run(step.result, prefix.written + step.written)
  {
    assert stmts[..i + 1][..i] == stmts[..i];
  }

  /** Once a prefix of the list fails, the run fails with its error and writes nothing more. */
  lemma {:induction false} RunSimpleErrorPersists(stmts: seq<Stmt>, k: nat, env: Environment, repl: bool)
    requires env.Valid() && SimpleStmts(stmts) && k <= |stmts|
    requires RunSimple(stmts[..k], env, repl).result.Err?
    ensures RunSimple(stmts, env, repl) == RunSimple(stmts[..k], env, repl)
    decreases |stmts|
  {
    if k < |stmts| {
      var n := |stmts| - 1;
      var prefix := stmts[..n];
      assert prefix[..k] == stmts[..k];
      RunSimpleErrorPersists(prefix, k, env, repl);
    } else {
      assert stmts[..k] == stmts;
    }
  }

  /**
   * On expression statements the reference run is DenoteBlock, and outside
   * repl mode it writes nothing.
   */
  lemma {:induction false} RunSimpleIsDenoteBlock(stmts: seq<Stmt>, env: Environment, repl: bool)
    requires env.Valid() && PureExprStmts(stmts)
    ensures SimpleStmts(stmts)
    ensures RunSimple(stmts, env, repl).result == DenoteBlock(stmts, env)
    ensures !repl ==> RunSimple(stmts, env, repl).written == []
    decreases |stmts|
  {
    if stmts != [] {
      var n := |stmts| - 1;
      assert PureExprStmts(stmts[..n]) by {
        assert forall i :: 0 <= i < n ==> stmts[..n][i] == stmts[i];
      }
      RunSimpleIsDenoteBlock(stmts[..n], env, repl);
    }
  }

  /**
   * A program of output statements whose expressions all succeed writes
   * their values, one per statement and in order, and yields null.
   */
  lemma {:induction false} RunSimpleOutputs(stmts: seq<Stmt>, env: Environment, repl: bool)
    requires env.Valid() && forall i :: 0 <= i < |stmts| ==> stmts[i].OutputStmt? && Pure(stmts[i].expr)
    requires forall i :: 0 <= i < |stmts| ==> Denote(stmts[i].expr, env).Ok?
    ensures SimpleStmts(stmts)
    ensures RunSimple(stmts, env, repl).result == Ok(None)
    ensures var w := RunSimple(stmts, env, repl).written;
            |w| == |stmts| && forall i :: 0 <= i < |stmts| ==> Some(w[i]) == Denote(stmts[i].expr, env).value
    decreases |stmts|
  {
    if stmts != [] {
      var n := |stmts| - 1;
      var prefix := stmts[..n];
      assert forall i :: 0 <= i < n ==> prefix[i] == stmts[i];
      RunSimpleOutputs(prefix, env, repl);
      var w := RunSimple(prefix, env, repl).written;
      var v := Denote(stmts[n].expr, env).value.value;
      assert RunSimple(stmts, env, repl) == Run(Ok(None), w + [v]);
      forall i | 0 <= i < |stmts|
        ensures Some((w + [v])[i]) == Denote(stmts[i].expr, env).value
      {
        if i < n {
          assert (w + [v])[i] == w[i] && prefix[i] == stmts[i];
        }
      }
    }
  }

  /**
   * The first output statement whose expression fails stops the program:
   * the run yields its error, and only the values of the statements before
   * it are written.
   */
  lemma RunSimpleOutputsStop(stmts: seq<Stmt>, k: nat, env: Environment, repl: bool)
    requires env.Valid() && forall i :: 0 <= i < |stmts| ==> stmts[i].OutputStmt? && Pure(stmts[i].expr)
    requires k < |stmts| && Denote(stmts[k].expr, env).Err?
    requires forall i :: 0 <= i < k ==> Denote(stmts[i].expr, env).Ok?
    ensures SimpleStmts(stmts)
    ensures RunSimple(stmts, env, repl).result == Denote(stmts[k].expr, env)
    ensures RunSimple(stmts, env, repl).written == RunSimple(stmts[..k], env, repl).written
  {
    assert forall i :: 0 <= i < k ==> stmts[..k][i] == stmts[i];
    RunSimpleOutputs(stmts[..k], env, repl);
    RunSimpleStep(stmts, k, env, repl);
    RunSimpleErrorPersists(stmts, k + 1, env, repl);
  }

  /** A fresh empty scope is transparent to simple statements. */
  lemma {:induction false} RunSimpleThroughEmptyScope(stmts: seq<Stmt>, inner: Environment, repl: bool)
    requires inner.Valid() && inner.enclosing != null && inner.bindings == map[] && SimpleStmts(stmts)
    ensures RunSimple(stmts, inner, repl) == RunSimple(stmts, inner.enclosing, repl)
    decreases |stmts|
  {
    if stmts != [] {
      var n := |stmts| - 1;
      assert SimpleStmts(stmts[..n]) by {
        assert forall i :: 0 <= i < n ==> stmts[..n][i] == stmts[i];
      }
      RunSimpleThroughEmptyScope(stmts[..n], inner, repl);
      DenoteThroughEmptyScope(stmts[n].expr, inner);
    }
  }

  /** Each of the first values is what the matching argument denotes. */
  ghost predicate DenotesEach(arguments: seq<Expr>, values: seq<Object>, env: Environment)
    requires env.Valid() && forall a <- arguments :: Pure(a)
    reads env.Chain()
  {
    |values| <= |arguments| && forall k :: 0 <= k < |values| ==> Ok(values[k]) == Denote(arguments[k], env)
  }

  lemma DenotesEachExtend(arguments: seq<Expr>, values: seq<Object>, v: Object, env: Environment)
    requires env.Valid() && forall a <- arguments :: Pure(a)
    requires DenotesEach(arguments, values, env) && |values| < |arguments|
    requires Ok(v) == Denote(arguments[|values|], env)
    ensures DenotesEach(arguments, values + [v], env)
  {
  }

  /** Results taken left to right: the first error stops the collection, or else all the values in order. */
  function Collect(results: seq<Result<Object>>): Result<seq<Object>>
    decreases |results|
  {
    if results == [] then Ok([])
    else
      var v :- results[0];
      var rest :- Collect(results[1..]);
      Ok([v] + rest)
  }

  /** The collection succeeds exactly when every result does. */
  lemma {:induction false} CollectSucceeds(results: seq<Result<Object>>)
    ensures Collect(results).Ok? <==> forall k :: 0 <= k < |results| ==> results[k].Ok?
    decreases |results|
  {
    if results != [] {
      var tail := results[1..];
      CollectSucceeds(tail);
      assert forall k :: 0 < k < |results| ==> results[k] == tail[k - 1];
    }
  }

  /** A successful collection holds result k's value in place k. */
  lemma {:induction false} CollectInPlace(results: seq<Result<Object>>)
    ensures var c := Collect(results);
            c.Ok? ==> |c.value| == |results| && forall k :: 0 <= k < |results| ==> Ok(c.value[k]) == results[k]
    decreases |results|
  {
    if results != [] && Collect(results).Ok? {
      var tail := results[1..];
      CollectInPlace(tail);
      var rest := Collect(tail).value;
      assert Collect(results).value == [results[0].value] + rest;
      assert forall k :: 0 < k < |results| ==> results[k] == tail[k - 1];
    }
  }

  /** A failed collection fails with the error of a result that only successes precede. */
  lemma {:induction false} CollectFails(results: seq<Result<Object>>)
    ensures var c := Collect(results);
            c.Err? ==> exists k :: 0 <= k < |results| && results[k] == Err(c.error)
                                   && forall j :: 0 <= j < k ==> results[j].Ok?
    decreases |results|
  {
    if results != [] && results[0].Ok? && Collect(results).Err? {
      var tail := results[1..];
      CollectFails(tail);
      var k :| 0 <= k < |tail| && tail[k] == Err(Collect(tail).error) && forall j :: 0 <= j < k ==> tail[j].Ok?;
      assert results[k + 1] == tail[k];
      assert forall j :: 0 < j < k + 1 ==> results[j] == tail[j - 1];
    }
  }

  /** When the results before i succeed and result i fails, the collection fails with its error. */
  lemma {:induction false} CollectStopsAt(results: seq<Result<Object>>, i: nat)
    requires i < |results| && results[i].Err?
    requires forall k :: 0 <= k < i ==> results[k].Ok?
    ensures Collect(results) == Err(results[i].error)
    decreases i
  {
    if i > 0 {
      var tail := results[1..];
      assert forall k :: 0 <= k < |tail| ==> tail[k] == results[k + 1];
      CollectStopsAt(tail, i - 1);
    }
  }

  /** When every result succeeds, the collection holds their values in order. */
  lemma {:induction false} CollectAllOk(results: seq<Result<Object>>, values: seq<Object>)
    requires |values| == |results| && forall k :: 0 <= k < |results| ==> Ok(values[k]) == results[k]
    ensures Collect(results) == Ok(values)
    decreases |results|
  {
    if results != [] {
      var tail := results[1..];
      assert forall k :: 0 <= k < |tail| ==> tail[k] == results[k + 1];
      CollectAllOk(tail, values[1..]);
      assert values == [values[0]] + values[1..];
    }
  }

  /** Each argument's denotation, in order. */
  function DenoteEach(arguments: seq<Expr>, env: Environment): (results: seq<Result<Object>>)
    requires env.Valid() && forall a <- arguments :: Pure(a)
    reads env.Chain()
    ensures |results| == |arguments| && forall k :: 0 <= k < |arguments| ==> results[k] == Denote(arguments[k], env)
    decreases |arguments|
  {
    if arguments == [] then []
    else [Denote(arguments[0], env)] + DenoteEach(arguments[1..], env)
  }

  /**
   * The arguments of a call, denoted left to right: the first argument that
   * fails stops the evaluation with its error.
   */
  function DenoteArguments(arguments: seq<Expr>, env: Environment): Result<seq<Object>>
    requires env.Valid() && forall a <- arguments :: Pure(a)
    reads env.Chain()
    decreases |arguments|
  {
    if arguments == [] then Ok([])
    else
      var v :- Denote(arguments[0], env);
      var rest :- DenoteArguments(arguments[1..], env);
      Ok([v] + rest)
  }

  /** Denoting the arguments is collecting their denotations. */
  lemma {:induction false} DenoteArgumentsCollects(arguments: seq<Expr>, env: Environment)
    requires env.Valid() && forall a <- arguments :: Pure(a)
    ensures DenoteArguments(arguments, env) == Collect(DenoteEach(arguments, env))
    decreases |arguments|
  {
    if arguments != [] {
      DenoteArgumentsCollects(arguments[1..], env);
      assert DenoteEach(arguments, env)[1..] == DenoteEach(arguments[1..], env);
    }
  }

  /**
   * The arguments succeed exactly when each one does, with argument k's value
   * in place k; otherwise the error is that of the first argument that fails.
   */
  lemma DenoteArgumentsFirstError(arguments: seq<Expr>, env: Environment)
    requires env.Valid() && forall a <- arguments :: Pure(a)
    ensures var r := DenoteArguments(arguments, env);
            (r.Ok? <==> forall a <- arguments :: Denote(a, env).Ok?)
            && (r.Ok? ==> |r.value| == |arguments| && forall k :: 0 <= k < |arguments| ==> Ok(r.value[k]) == Denote(arguments[k], env))
            && (r.Err? ==> exists k :: 0 <= k < |arguments| && Denote(arguments[k], env) == Err(r.error)
                                       && forall j :: 0 <= j < k ==> Denote(arguments[j], env).Ok?)
  {
    DenoteArgumentsValues(arguments, env);
    DenoteArgumentsError(arguments, env);
  }

  lemma DenoteArgumentsValues(arguments: seq<Expr>, env: Environment)
    requires env.Valid() && forall a <- arguments :: Pure(a)
    ensures var r := DenoteArguments(arguments, env);
            (r.Ok? <==> forall a <- arguments :: Denote(a, env).Ok?)
            && (r.Ok? ==> |r.value| == |arguments| && forall k :: 0 <= k < |arguments| ==> Ok(r.value[k]) == Denote(arguments[k], env))
  {
    DenoteArgumentsSucceed(arguments, env);
    DenoteArgumentsInPlace(arguments, env);
  }

  lemma DenoteArgumentsSucceed(arguments: seq<Expr>, env: Environment)
    requires env.Valid() && forall a <- arguments :: Pure(a)
    ensures DenoteArguments(arguments, env).Ok? <==> forall a <- arguments :: Denote(a, env).Ok?
  {
    var results := DenoteEach(arguments, env);
    DenoteArgumentsCollects(arguments, env);
    CollectSucceeds(results);
    if forall a <- arguments :: Denote(a, env).Ok? {
      forall k | 0 <= k < |results| ensures results[k].Ok? {
        assert arguments[k] in arguments;
      }
    } else {
      var a :| a in arguments && Denote(a, env).Err?;
      var k :| 0 <= k < |arguments| && arguments[k] == a;
      assert results[k].Err?;
    }
  }

  lemma DenoteArgumentsInPlace(arguments: seq<Expr>, env: Environment)
    requires env.Valid() && forall a <- arguments :: Pure(a)
    ensures var r := DenoteArguments(arguments, env);
            r.Ok? ==> |r.value| == |arguments| && forall k :: 0 <= k < |arguments| ==> Ok(r.value[k]) == Denote(arguments[k], env)
  {
    DenoteArgumentsCollects(arguments, env);
    CollectInPlace(DenoteEach(arguments, env));
  }

  lemma DenoteArgumentsError(arguments: seq<Expr>, env: Environment)
    requires env.Valid() && forall a <- arguments :: Pure(a)
    ensures var r := DenoteArguments(arguments, env);
            r.Err? ==> exists k :: 0 <= k < |arguments| && Denote(arguments[k], env) == Err(r.error)
                                   && forall j :: 0 <= j < k ==> Denote(arguments[j], env).Ok?
  {
    DenoteArgumentsCollects(arguments, env);
    CollectFails(DenoteEach(arguments, env));
  }

  /** When the arguments before i succeed and argument i fails, the arguments fail with its error. */
  lemma DenoteArgumentsStopsAt(arguments: seq<Expr>, env: Environment, i: nat)
    requires env.Valid() && (forall a <- arguments :: Pure(a)) && i < |arguments|
    requires forall k :: 0 <= k < i ==> Denote(arguments[k], env).Ok?
    requires Denote(arguments[i], env).Err?
    ensures DenoteArguments(arguments, env) == Err(Denote(arguments[i], env).error)
  {
    DenoteArgumentsCollects(arguments, env);
    CollectStopsAt(DenoteEach(arguments, env), i);
  }

  /** When every argument succeeds, the arguments yield their values in order. */
  lemma DenoteArgumentsAllOk(arguments: seq<Expr>, env: Environment, values: seq<Object>)
    requires env.Valid() && (forall a <- arguments :: Pure(a)) && |values| == |arguments|
    requires forall k :: 0 <= k < |arguments| ==> Ok(values[k]) == Denote(arguments[k], env)
    ensures DenoteArguments(arguments, env) == Ok(values)
  {
    DenoteArgumentsCollects(arguments, env);
    CollectAllOk(DenoteEach(arguments, env), values);
  }

  class Interpreter {
    /** The scope statements currently run in. */
    var environment: Environment
    const globals: Environment
    const repl: bool
    /** The values whose repr() has been written to the console, in order. */
    var output: seq<Value>
    /** What the wall clock reads whenever millis() is called. */
    const clock: real
    /** Every scope the interpreter can reach: the current chain, and the scopes closures captured. */
    ghost var scopes: set<Environment>

    /** A closure object's captured scope is among the known scopes. */
    ghost predicate Closed(o: Object)
      reads this
    {
      o.Some? && o.value.Callable? && o.value.callable.Closure? ==> o.value.callable.env in scopes
    }

    ghost predicate Valid()
      reads this, scopes
    {
      && environment in scopes && globals in scopes
      && (forall s <- scopes :: s.Valid() && s.Chain() <= scopes)
      && (forall s <- scopes, n <- s.bindings :: Closed(s.bindings[n]))
    }

    /** Between two states: scopes are only added, freshly made, and output is only appended to. */
    twostate predicate Extends()
      reads this
    {
      old(scopes) <= scopes && fresh(scopes - old(scopes)) && old(output) <= output
    }

    /**
     * The global scope holds the four native functions, and is the current
     * scope. The arities of getline, exit and exit_status are parameters:
     * their definitions are not part of this model.
     */
    constructor (repl: bool, clock: real, getlineArity: nat, exitArity: nat, exitStatusArity: nat)
      ensures Valid() && fresh(globals) && environment == globals && globals.enclosing == null
      ensures globals.bindings == map["millis" := Some(Callable(Native("millis", 0))),
                                      "getline" := Some(Callable(Native("getline", getlineArity))),
                                      "exit" := Some(Callable(Native("exit", exitArity))),
                                      "exit_status" := Some(Callable(Native("exit_status", exitStatusArity)))]
      ensures output == [] && this.repl == repl && this.clock == clock
    {
      var g := new Environment(null);
      BindRoot(g, "millis", Some(Callable(Native("millis", 0))));
      BindRoot(g, "getline", Some(Callable(Native("getline", getlineArity))));
      BindRoot(g, "exit", Some(Callable(Native("exit", exitArity))));
      BindRoot(g, "exit_status", Some(Callable(Native("exit_status", exitStatusArity))));
      globals := g;
      environment := g;
      scopes := {g};
      output := [];
      this.repl := repl;
      this.clock := clock;
    }

    /** Look-ups of the current chain yield objects whose captured scopes are known. */
    lemma LookupClosed(name: string)
      requires Valid()
      ensures Closed(environment.Lookup(name))
    {
      environment.LookupIsInnermost(name);
    }

    /**
     * The bind of visitAssignExpr, on the current scope: the name is set in
     * the innermost scope of the chain that maps it (or in the current scope
     * when none does), and every other known scope keeps its bindings.
     */
    method Assign(name: string, value: Object)
      requires Valid() && Closed(value)
      modifies scopes
      ensures Valid()
      ensures environment.Lookup(name) == value
      ensures forall n :: n != name ==> environment.Lookup(n) == old(environment.Lookup(n))
      ensures var t := old(environment.Target(name));
              environment.Snapshot() == old(environment.Snapshot())[t := old(t.bindings)[name := value]]
      ensures var t := old(environment.Target(name));
              t.bindings == old(t.bindings)[name := value]
              && forall s <- old(scopes) :: s != t ==> s.bindings == old(s.bindings)
    {
      ghost var chain := environment.Chain();
      environment.SnapshotIsBindings();
      ghost var before := environment.Snapshot();
      ghost var t := environment.Target(name);
      environment.Bind(name, value);
      environment.SnapshotIsBindings();
      forall s <- scopes | s != t
        ensures s.bindings == old(s.bindings)
      {
        if s in chain {
          assert s.bindings == before[s];
        }
      }
      forall s <- scopes, n <- s.bindings
        ensures Closed(s.bindings[n])
      {
      }
    }

    // Expressions

    method Evaluate(e: Expr, fuel: nat) returns (r: Result<Object>)
      requires Valid()
      modifies this, scopes
      ensures Valid() && Extends()
      ensures r.Ok? ==> environment == old(environment) && Closed(r.value)
      ensures Pure(e) ==> r == old(Denote(e, environment)) && environment == old(environment)
                          && scopes == old(scopes) && output == old(output) && unchanged(scopes)
      decreases fuel, e, 2
    {
      match e
      case BinaryExpr(_, _, _) => r := VisitBinary(e, fuel);
      case Grouping(contents) => r := Evaluate(contents, fuel);
      case UnaryExpr(_, _) => r := VisitUnary(e, fuel);
      case AssignExpr(_, _) => r := VisitAssign(e, fuel);
      case VarDeclExpr(_, _) => r := VisitVarDecl(e, fuel);
      case CallExpr(_, _, _) =>
        ghost var scope, values, results;
        r, scope, values, results := VisitCall(e, fuel);
      case LambdaExpr(_, _) => r := VisitLambda(e);
      case IdentifierExpr(token) =>
        LookupClosed(token.lexeme);
        r := Denote(e, environment);
      case _ =>
        r := Denote(e, environment);
    }

    method VisitBinary(e: Expr, fuel: nat) returns (r: Result<Object>)
      requires e.BinaryExpr? && Valid()
      modifies this, scopes
      ensures Valid() && Extends()
      ensures r.Ok? ==> environment == old(environment) && Closed(r.value)
      ensures Pure(e) ==> r == old(Denote(e, environment)) && environment == old(environment)
                          && scopes == old(scopes) && output == old(output) && unchanged(scopes)
      decreases fuel, e, 0
    {
      var left := Evaluate(e.left, fuel);
      if left.Err? {
        return Err(left.error);
      }
      var right := Evaluate(e.right, fuel);
      if right.Err? {
        return Err(right.error);
      }
      var v := ApplyBinary(e.op.kind, left.value, right.value);
      if v.Err? {
        return Err(v.error);
      }
      r := Ok(Some(v.value));
    }

    method VisitUnary(e: Expr, fuel: nat) returns (r: Result<Object>)
      requires e.UnaryExpr? && Valid()
      modifies this, scopes
      ensures Valid() && Extends()
      ensures r.Ok? ==> environment == old(environment) && Closed(r.value)
      ensures Pure(e) ==> r == old(Denote(e, environment)) && environment == old(environment)
                          && scopes == old(scopes) && output == old(output) && unchanged(scopes)
      decreases fuel, e, 0
    {
      var operand := Evaluate(e.operand, fuel);
      if operand.Err? {
        return Err(operand.error);
      }
      var v := ApplyUnary(e.op.kind, operand.value);
      if v.Err? {
        return Err(v.error);
      }
      r := Ok(Some(v.value));
    }

    /** `name = value`: binds where the name is bound, and evaluates to the value. */
    method VisitAssign(e: Expr, fuel: nat) returns (r: Result<Object>)
      requires e.AssignExpr? && Valid()
      modifies this, scopes
      ensures Valid() && Extends()
      ensures r.Ok? ==> environment == old(environment) && Closed(r.value)
      ensures r.Ok? ==> environment.Lookup(e.name.lexeme) == r.value
      ensures Pure(e.value) ==> var v := old(Denote(e.value, environment));
                                (v.Err? ==> r == v && scopes == old(scopes) && unchanged(scopes))
                                && (v.Ok? ==> r == v && environment == old(environment)
                                              && scopes == old(scopes) && output == old(output)
                                              && forall n :: n != e.name.lexeme ==> environment.Lookup(n) == old(environment.Lookup(n)))
      ensures Pure(e.value) && old(Denote(e.value, environment)).Ok? ==>
                var t := old(environment.Target(e.name.lexeme));
                t.bindings == old(t.bindings)[e.name.lexeme := r.value]
                && forall s <- old(scopes) :: s != t ==> s.bindings == old(s.bindings)
      decreases fuel, e, 0
    {
      r := Evaluate(e.value, fuel);
      if r.Err? {
        return;
      }
      Assign(e.name.lexeme, r.value);
    }

    /** `name := value`: declares the name in the current scope, and evaluates to the value. */
    method VisitVarDecl(e: Expr, fuel: nat) returns (r: Result<Object>)
      requires e.VarDeclExpr? && Valid()
      modifies this, scopes
      ensures Valid() && Extends()
      ensures r.Ok? ==> environment == old(environment) && Closed(r.value)
      ensures r.Ok? ==> e.name.lexeme in environment.bindings && environment.bindings[e.name.lexeme] == r.value
      ensures Pure(e.value) ==> var v := old(Denote(e.value, environment));
                                (v.Err? ==> r == v && scopes == old(scopes) && unchanged(scopes))
                                && (v.Ok? ==> r == v && environment == old(environment)
                                              && scopes == old(scopes) && output == old(output)
                                              && environment.bindings == old(environment.bindings)[e.name.lexeme := v.value]
                                              && forall s <- old(scopes) :: s != environment ==> s.bindings == old(s.bindings))
      decreases fuel, e, 0
    {
      r := Evaluate(e.value, fuel);
      if r.Err? {
        return;
      }
      environment.DeclareVar(e.name.lexeme, r.value);
    }

    /** A lambda evaluates to a closure over a copy of the current scope. */
    method VisitLambda(e: Expr) returns (r: Result<Object>)
      requires e.LambdaExpr? && Valid()
      modifies this
      ensures Valid() && Extends() && environment == old(environment) && output == old(output)
      ensures r.Ok? && r.value.Some? && r.value.value.Callable? && Closed(r.value)
      ensures var c := r.value.value.callable;
              c.Closure? && c.parameters == e.parameters && c.body == e.body && fresh(c.env)
              && c.env.bindings == environment.bindings && c.env.enclosing == environment.enclosing
    {
      var c := Closures.MakeClosure(e.parameters, e.body, environment);
      scopes := scopes + {c.env};
      r := Ok(Some(Callable(c)));
    }

    /**
     * A call: the callee, then the arguments in order, then the checks that
     * the callee is callable and that the argument count is its arity. The
     * ghost outputs are the call scope, the argument values and, for a
     * closure, the results of its body's statements.
     */
    method VisitCall(e: Expr, fuel: nat)
      returns (r: Result<Object>, ghost scope: Environment?, ghost values: seq<Object>, ghost results: seq<Result<Object>>)
      requires e.CallExpr? && Valid()
      modifies this, scopes
      ensures Valid() && Extends()
      ensures r.Ok? ==> environment == old(environment) && Closed(r.value)
      ensures scope != null ==> fresh(scope)
      ensures Pure(e.callee) && (forall a <- e.arguments :: Pure(a)) ==>
                var callee := old(Denote(e.callee, environment));
                var arguments := old(DenoteArguments(e.arguments, environment));
                (callee.Err? ==> r == callee)
                && (callee.Ok? && arguments.Err? ==> r == Err(arguments.error))
                && (callee.Ok? && arguments.Ok? ==> values == arguments.value && InvokeOutcome(callee.value, values, fuel, r, scope, results))
      decreases fuel, e, 1
    {
      var callee := Evaluate(e.callee, fuel);
      if callee.Err? {
        return callee, null, [], [];
      }
      var arguments := EvaluateArguments(e.arguments, fuel);
      if arguments.Err? {
        return Err(arguments.error), null, [], [];
      }
      values := arguments.value;
      r, scope, results := Invoke(e, callee.value, arguments.value, fuel);
    }

    /**
     * What calling `callee` on `arguments` yields, as the checks of
     * visitCallExpr and NCallable::call decide it: null is dereferenced, a
     * non-callable is "object not callable.", a wrong argument count is
     * reported with both counts, millis reads the clock, and a closure runs
     * its body in order, with `results` the body's statements' results; a
     * pure body denotes its body in a scope that encloses the captured copy
     * and binds the parameters.
     */
    ghost predicate InvokeOutcome(callee: Object, arguments: seq<Object>, fuel: nat, r: Result<Object>, scope: Environment?,
                                  results: seq<Result<Object>>)
      reads this, if scope != null && scope.Valid() then scope.Chain() else {}
    {
      if callee.None? then r == Err(Operators.NullDereference)
      else if !callee.value.Callable? then r == Err(RuntimeError("object not callable."))
      else
        var c := callee.value.callable;
        if |arguments| != Closures.Arity(c) then
          r == Err(RuntimeError("expected " + Scanning.DecimalString(Closures.Arity(c)) + " arguments but got "
                                + Scanning.DecimalString(|arguments|) + "."))
        else if c.Native? then
          r == if c.name == "millis" then Ok(Some(Real(clock))) else Err(Unmodelled("the body of native function " + c.name))
        else if fuel == 0 then r == Err(OutOfFuel)
        else
          scope != null && scope.Valid() && scope.enclosing == c.env
          && RunsInOrder(c.body, results) && r == RunResult(results)
          && (PureExprStmts(c.body) ==>
                scope.bindings == Closures.BindParameters(c.parameters, arguments)
                && r == DenoteBlock(c.body, scope))
    }

    /** The checks visitCallExpr makes once the callee and the arguments are evaluated, then the call itself. */
    method Invoke(ghost call: Expr, callee: Object, arguments: seq<Object>, fuel: nat)
      returns (r: Result<Object>, ghost scope: Environment?, ghost results: seq<Result<Object>>)
      requires Valid() && Closed(callee) && forall a <- arguments :: Closed(a)
      modifies this, scopes
      ensures Valid() && Extends()
      ensures r.Ok? ==> environment == old(environment) && Closed(r.value)
      ensures scope != null ==> fresh(scope)
      ensures InvokeOutcome(callee, arguments, fuel, r, scope, results)
      decreases fuel, call, 0
    {
      scope, results := null, [];
      if callee.None? {
        return Err(Operators.NullDereference), null, [];
      }
      if !callee.value.Callable? {
        return Err(RuntimeError("object not callable.")), null, [];
      }
      var callable := callee.value.callable;
      var arity := Closures.Arity(callable);
      if |arguments| != arity {
        return Err(RuntimeError("expected " + Scanning.DecimalString(arity) + " arguments but got "
                                + Scanning.DecimalString(|arguments|) + ".")), null, [];
      }
      match callable
      case Native(name, _) =>
        if name == "millis" {
          r := Ok(Some(Real(clock)));
        } else {
          r := Err(Unmodelled("the body of native function " + name));
        }
      case Closure(_, _, _) =>
        if fuel == 0 {
          return Err(OutOfFuel), null, [];
        }
        ghost var callScope;
        r, callScope, results := CallClosure(callable, arguments, fuel - 1);
        scope := callScope;
    }

    /** The arguments of a call, evaluated left to right; the first error stops the evaluation. */
    method EvaluateArguments(arguments: seq<Expr>, fuel: nat) returns (r: Result<seq<Object>>)
      requires Valid()
      modifies this, scopes
      ensures Valid() && Extends()
      ensures r.Ok? ==> environment == old(environment) && |r.value| == |arguments| && forall a <- r.value :: Closed(a)
      ensures (forall a <- arguments :: Pure(a)) ==>
                scopes == old(scopes) && unchanged(scopes) && environment == old(environment)
                && (r.Ok? <==> forall a <- arguments :: old(Denote(a, environment)).Ok?)
                && (r.Ok? ==> forall k :: 0 <= k < |arguments| ==> Ok(r.value[k]) == old(Denote(arguments[k], environment)))
                && r == old(DenoteArguments(arguments, environment))
      decreases fuel, arguments, 2
    {
      ghost var pure := forall a <- arguments :: Pure(a);
      if pure {
        DenoteArgumentsValues(arguments, environment);
      }
      var values: seq<Object> := [];
      for i := 0 to |arguments|
        invariant Valid() && Extends() && environment == old(environment)
        invariant |values| == i && forall a <- values :: Closed(a)
        invariant pure ==> scopes == old(scopes) && unchanged(scopes)
        invariant pure ==> DenotesEach(arguments, values, environment)
      {
        assert pure ==> Pure(arguments[i]);
        var a := Evaluate(arguments[i], fuel);
        if a.Err? {
          if pure {
            DenoteArgumentsStopsAt(arguments, environment, i);
          }
          return Err(a.error);
        }
        if pure {
          DenotesEachExtend(arguments, values, a.value, environment);
        }
        values := values + [a.value];
      }
      if pure {
        DenoteArgumentsAllOk(arguments, environment, values);
      }
      r := Ok(values);
    }

    /**
     * NClosure::call: the body runs as a block in a fresh scope that encloses
     * in the captured copy and holds the parameters bound positionally. Once
     * the call has returned, that scope is off the current scope chain; a
     * closure created during the call may still hold it.
     */
    method CallClosure(c: Callable, arguments: seq<Object>, fuel: nat)
      returns (r: Result<Object>, ghost scope: Environment, ghost results: seq<Result<Object>>)
      requires Valid() && c.Closure? && c.env in scopes && |arguments| == |c.parameters|
      requires forall a <- arguments :: Closed(a)
      modifies this, scopes
      ensures Valid() && Extends()
      ensures r.Ok? ==> environment == old(environment) && Closed(r.value)
      ensures fresh(scope) && scope.Valid() && scope.enclosing == c.env
      ensures r.Ok? ==> scope !in environment.Chain()
      ensures RunsInOrder(c.body, results) && r == RunResult(results)
      ensures PureExprStmts(c.body) ==>
                scope.bindings == Closures.BindParameters(c.parameters, arguments)
                && r == DenoteBlock(c.body, scope) && unchanged(old(scopes))
      decreases fuel, c.body, 4
    {
      var callScope := Closures.BindArguments(c, arguments);
      Closures.BindParametersValues(c.parameters, arguments);
      scope := callScope;
      scopes := scopes + {callScope};
      r, results := ExecuteBlock(c.body, callScope, fuel);
    }

    // Statements

    /**
     * What running statement `s` promises, from the state before to the state
     * after, when it yields `r` (and, for a block, its statements yield
     * `results`):
     * - an expression statement over a pure expression yields the
     *   expression's value, echoes it in repl mode and changes nothing else;
     * - `output` yields null; over a pure expression it writes the value, or
     *   nothing when the expression fails;
     * - a block runs its statements in order, stopping at the first error,
     *   and yields that error or the last statement's value; a block of pure
     *   expression statements yields DenoteBlock, and an error leaves the
     *   current scope at the block's scope;
     * - `if` with a pure condition fails with the condition's error, runs a
     *   pure expression-statement branch the truthiness selects, and yields
     *   null when the condition is falsy and there is no else-branch;
     * - `while` yields null, fails with the condition's error, and with a
     *   falsy pure condition does nothing.
     */
    twostate predicate StmtDone(s: Stmt, new r: Result<Object>, new results: seq<Result<Object>>)
      requires old(Valid()) && old(scopes) <= scopes
      reads this, scopes
    {
      match s
      case ExprStmt(e) => ExprStmtDone(e, r)
      case OutputStmt(e) => OutputDone(e, r)
      case BlockStmt(stmts) => BlockDone(stmts, r, results)
      case IfStmt(condition, thenBranch, elseBranch) => IfDone(condition, thenBranch, elseBranch, r)
      case WhileStmt(condition, _) => WhileDone(condition, r)
    }

    twostate predicate ExprStmtDone(e: Expr, new r: Result<Object>)
      requires old(Valid())
      reads this, scopes
    {
      Pure(e) ==> r == old(Denote(e, environment)) && environment == old(environment)
                  && scopes == old(scopes) && unchanged(scopes) && output == old(output) + Echo(repl, r)
    }

    twostate predicate OutputDone(e: Expr, new r: Result<Object>)
      requires old(Valid())
      reads this, scopes
    {
      (r.Ok? ==> r.value == None)
      && (Pure(e) ==> var v := old(Denote(e, environment));
                      environment == old(environment) && scopes == old(scopes) && unchanged(scopes)
                      && (v.Err? ==> r == Err(v.error) && output == old(output))
                      && (v.Ok? ==> r == Ok(None) && output == old(output) + [v.value.value]))
    }

    twostate predicate BlockDone(stmts: seq<Stmt>, new r: Result<Object>, new results: seq<Result<Object>>)
      requires old(Valid()) && old(scopes) <= scopes
      reads this, scopes
    {
      RunsInOrder(stmts, results) && r == RunResult(results)
      && (SimpleStmts(stmts) ==> var run := old(RunSimple(stmts, environment, repl));
                                 r == run.result && output == old(output) + run.written && unchanged(old(scopes)))
      && (PureExprStmts(stmts) ==> r == old(DenoteBlock(stmts, environment)) && unchanged(old(scopes))
                                   && (r.Err? ==> environment != old(environment) && environment.enclosing == old(environment)))
    }

    twostate predicate IfDone(condition: Expr, thenBranch: Stmt, elseBranch: Option<Stmt>, new r: Result<Object>)
      requires old(Valid())
    {
      Pure(condition) ==>
        var c := old(Denote(condition, environment));
        (c.Err? ==> r == c)
        && (c.Ok? && Operators.IsTruthy(c.value).Err? ==> r == Err(Operators.IsTruthy(c.value).error))
        && (c.Ok? && Operators.IsTruthy(c.value) == Ok(true) && thenBranch.ExprStmt? && Pure(thenBranch.expr) ==>
              r == old(Denote(thenBranch.expr, environment)))
        && (c.Ok? && Operators.IsTruthy(c.value) == Ok(false) && elseBranch.Some?
            && elseBranch.value.ExprStmt? && Pure(elseBranch.value.expr) ==>
              r == old(Denote(elseBranch.value.expr, environment)))
        && (c.Ok? && Operators.IsTruthy(c.value) == Ok(false) && elseBranch.None? ==> r == Ok(None))
    }

    twostate predicate WhileDone(condition: Expr, new r: Result<Object>)
      requires old(Valid())
      reads this, scopes
    {
      (r.Ok? ==> r.value == None)
      && (Pure(condition) ==>
            var c := old(Denote(condition, environment));
            (c.Err? ==> r == c)
            && (c.Ok? && Operators.IsTruthy(c.value) == Ok(false) ==> r == Ok(None) && scopes == old(scopes) && unchanged(scopes)))
    }

    /**
     * visitStmt's dispatch: each kind of statement to its visitor, with that
     * visitor's promise. The ghost results are a block's statements' results.
     */
    method ExecStmt(s: Stmt, fuel: nat) returns (r: Result<Object>, ghost results: seq<Result<Object>>)
      requires Valid()
      modifies this, scopes
      ensures Valid() && Extends()
      ensures r.Ok? ==> environment == old(environment) && Closed(r.value)
      ensures StmtDone(s, r, results) && Yields(s, r)
      ensures (s.ExprStmt? || s.OutputStmt?) && Pure(s.expr) ==>
                var step := old(SimpleStep(s, environment, repl));
                r == step.result && output == old(output) + step.written
                && environment == old(environment) && scopes == old(scopes) && unchanged(scopes)
      decreases fuel, s, 1
    {
      results := [];
      match s
      case ExprStmt(_) => r := VisitExprStmt(s, fuel);
      case OutputStmt(_) => r := VisitOutputStmt(s, fuel);
      case BlockStmt(_) => r, results := VisitBlock(s, fuel);
      case IfStmt(_, _, _) => r := VisitIf(s, fuel);
      case WhileStmt(_, _) => r := VisitWhile(s, fuel);
    }

    /** An expression statement yields its value; in repl mode a non-null value is echoed. */
    method VisitExprStmt(s: Stmt, fuel: nat) returns (r: Result<Object>)
      requires s.ExprStmt? && Valid()
      modifies this, scopes
      ensures Valid() && Extends()
      ensures r.Ok? ==> environment == old(environment) && Closed(r.value)
      ensures StmtDone(s, r, [])
      decreases fuel, s, 0
    {
      r := Evaluate(s.expr, fuel);
      if repl && r.Ok? && r.value.Some? {
        output := output + [r.value.value];
      }
    }

    /** `output e` writes e's value and yields null; a null value is dereferenced. */
    method VisitOutputStmt(s: Stmt, fuel: nat) returns (r: Result<Object>)
      requires s.OutputStmt? && Valid()
      modifies this, scopes
      ensures Valid() && Extends()
      ensures r.Ok? ==> environment == old(environment) && r.value == None
      ensures StmtDone(s, r, [])
      decreases fuel, s, 0
    {
      var value := Evaluate(s.expr, fuel);
      if value.Err? {
        return Err(value.error);
      }
      if value.value.None? {
        return Err(Operators.NullDereference);
      }
      output := output + [value.value.value];
      r := Ok(None);
    }

    /**
     * A block runs in a fresh empty scope nested in the current one. On an
     * error the current scope is left at that inner scope.
     */
    method VisitBlock(s: Stmt, fuel: nat) returns (r: Result<Object>, ghost results: seq<Result<Object>>)
      requires s.BlockStmt? && Valid()
      modifies this, scopes
      ensures Valid() && Extends()
      ensures r.Ok? ==> environment == old(environment) && Closed(r.value)
      ensures StmtDone(s, r, results)
      decreases fuel, s, 0
    {
      var inner := EnterBlockScope(s.stmts);
      r, results := ExecuteBlock(s.stmts, inner, fuel);
    }

    /**
     * The scope visitBlockStmt makes: fresh, empty and nested in the current
     * one. It is transparent, so the block's statements mean in it what they
     * mean in the current scope.
     */
    method EnterBlockScope(ghost stmts: seq<Stmt>) returns (inner: Environment)
      requires Valid()
      modifies this
      ensures Valid() && Extends() && environment == old(environment) && output == old(output)
      ensures fresh(inner) && inner in scopes && inner.enclosing == environment && inner.bindings == map[]
      ensures scopes == old(scopes) + {inner}
      ensures SimpleStmts(stmts) ==> RunSimple(stmts, inner, repl) == old(RunSimple(stmts, environment, repl))
      ensures PureExprStmts(stmts) ==> DenoteBlock(stmts, inner) == old(DenoteBlock(stmts, environment))
    {
      inner := new Environment(environment);
      scopes := scopes + {inner};
      if PureExprStmts(stmts) {
        DenoteBlockThroughEmptyScope(stmts, inner);
      }
      if SimpleStmts(stmts) {
        RunSimpleThroughEmptyScope(stmts, inner, repl);
      }
    }

    /**
     * executeBlockStmt: installs the given scope, runs the statements in
     * order and yields the last one's value (null for an empty block), then
     * reinstates the previous scope; an error leaves the given scope installed.
     */
    method ExecuteBlock(stmts: seq<Stmt>, inner: Environment, fuel: nat) returns (r: Result<Object>, ghost results: seq<Result<Object>>)
      requires Valid() && inner in scopes
      modifies this, scopes
      ensures Valid() && Extends()
      ensures r.Ok? ==> environment == old(environment) && Closed(r.value)
      ensures RunsInOrder(stmts, results) && r == RunResult(results)
      ensures SimpleStmts(stmts) ==> var run := old(RunSimple(stmts, inner, repl));
                                     r == run.result && output == old(output) + run.written
                                     && scopes == old(scopes) && unchanged(scopes)
      ensures PureExprStmts(stmts) ==> r == old(DenoteBlock(stmts, inner)) && scopes == old(scopes) && unchanged(scopes)
      ensures PureExprStmts(stmts) && r.Err? ==> environment == inner
      decreases fuel, stmts, 3
    {
      var previous := environment;
      environment := inner;
      r, results := ExecuteStatements(stmts, fuel);
      if r.Ok? {
        environment := previous;
      }
    }

    /**
     * The loop of executeBlock: the statements in order in the current scope,
     * stopping at the first error; the value is the last statement's, or null
     * for no statements. The ghost results are the statements' results in
     * the order they ran. For pure expression statements this is DenoteBlock,
     * because there the reference run yields what DenoteBlock does.
     */
    method ExecuteStatements(stmts: seq<Stmt>, fuel: nat) returns (r: Result<Object>, ghost results: seq<Result<Object>>)
      requires Valid()
      modifies this, scopes
      ensures Valid() && Extends()
      ensures r.Ok? ==> environment == old(environment) && Closed(r.value)
      ensures RunsInOrder(stmts, results) && r == RunResult(results)
      ensures SimpleStmts(stmts) ==> var run := old(RunSimple(stmts, environment, repl));
                                     r == run.result && output == old(output) + run.written && environment == old(environment)
                                     && scopes == old(scopes) && unchanged(scopes)
      ensures PureExprStmts(stmts) ==> r == old(DenoteBlock(stmts, environment)) && environment == old(environment)
                                       && scopes == old(scopes) && unchanged(scopes)
      decreases fuel, stmts, 2
    {
      if PureExprStmts(stmts) {
        RunSimpleIsDenoteBlock(stmts, environment, repl);
      }
      r, results := ExecuteEach(stmts, fuel);
    }

    /**
     * The statement loop itself. For simple statements it computes the
     * reference run: each pass extends the run of the prefix by one
     * statement, and an error ends the run of them all.
     */
    method ExecuteEach(stmts: seq<Stmt>, fuel: nat) returns (r: Result<Object>, ghost results: seq<Result<Object>>)
      requires Valid()
      modifies this, scopes
      ensures Valid() && Extends()
      ensures r.Ok? ==> environment == old(environment) && Closed(r.value)
      ensures RunsInOrder(stmts, results) && r == RunResult(results)
      ensures SimpleStmts(stmts) ==> var run := old(RunSimple(stmts, environment, repl));
                                     r == run.result && output == old(output) + run.written && environment == old(environment)
                                     && scopes == old(scopes) && unchanged(scopes)
      decreases fuel, stmts, 1
    {
      ghost var whole := if SimpleStmts(stmts) then RunSimple(stmts, environment, repl) else Run(Ok(None), []);
      var value: Object := None;
      results := [];
      for i := 0 to |stmts|
        invariant Valid() && Extends() && environment == old(environment) && Closed(value)
        invariant |results| == i && RanOk(stmts, results) && RunResult(results) == Ok(value)
        invariant SimpleStmts(stmts) ==> scopes == old(scopes) && unchanged(scopes)
                                         && RunSimple(stmts, environment, repl) == whole
                                         && var run := RunSimple(stmts[..i], environment, repl);
                                            run.result == Ok(value) && output == old(output) + run.written
      {
        var result := ExecuteNext(stmts, i, fuel, old(output));
        if result.Err? {
          RanOkStop(stmts, results, result);
          return result, results + [result];
        }
        RanOkExtend(stmts, results, result);
        results := results + [result];
        value := result.value;
      }
      assert stmts[..|stmts|] == stmts;
      RanOkAll(stmts, results);
      r := Ok(value);
    }

    /**
     * One pass of the statement loops of interpret and executeBlock: the next
     * statement runs after a prefix that succeeded. For simple statements the run of the prefix and this
     * statement is RunSimple of the longer prefix, and the output grows by
     * what the statement writes; an error there is the run of them all.
     */
    method ExecuteNext(stmts: seq<Stmt>, i: nat, fuel: nat, ghost base: seq<Value>) returns (result: Result<Object>)
      requires Valid() && i < |stmts|
      requires SimpleStmts(stmts) ==> var prefix := RunSimple(stmts[..i], environment, repl);
                                      prefix.result.Ok? && output == base + prefix.written
      modifies this, scopes
      ensures Valid() && Extends()
      ensures result.Ok? ==> environment == old(environment) && Closed(result.value)
      ensures Yields(stmts[i], result)
      ensures SimpleStmts(stmts) ==>
                environment == old(environment) && scopes == old(scopes) && unchanged(scopes)
                && RunSimple(stmts, environment, repl) == old(RunSimple(stmts, environment, repl))
                && var run := RunSimple(stmts[..i + 1], environment, repl);
                   run.result == result && output == base + run.written
                   && (result.Err? ==> RunSimple(stmts, environment, repl) == run)
      decreases fuel, stmts, 0
    {
      if SimpleStmts(stmts) {
        RunSimpleStep(stmts, i, environment, repl);
      }
      ghost var blockResults;
      result, blockResults := ExecStmt(stmts[i], fuel);
      if SimpleStmts(stmts) && result.Err? {
        RunSimpleErrorPersists(stmts, i + 1, environment, repl);
      }
    }

    /** `if`: the then-branch when the condition is truthy, else the else-branch if any, else null. */
    method VisitIf(s: Stmt, fuel: nat) returns (r: Result<Object>)
      requires s.IfStmt? && Valid()
      modifies this, scopes
      ensures Valid() && Extends()
      ensures r.Ok? ==> environment == old(environment) && Closed(r.value)
      ensures StmtDone(s, r, [])
      decreases fuel, s, 0
    {
      var condition := Evaluate(s.condition, fuel);
      if condition.Err? {
        return condition;
      }
      var truthy := Operators.IsTruthy(condition.value);
      if truthy.Err? {
        return Err(truthy.error);
      }
      if truthy.value {
        ghost var blockResults;
        r, blockResults := ExecStmt(s.thenBranch, fuel);
      } else if s.elseBranch.Some? {
        ghost var blockResults;
        r, blockResults := ExecStmt(s.elseBranch.value, fuel);
      } else {
        r := Ok(None);
      }
    }

    /** `while`: runs the body until the condition is falsy, and yields null. Each iteration spends one unit of fuel. */
    method VisitWhile(s: Stmt, fuel: nat) returns (r: Result<Object>)
      requires s.WhileStmt? && Valid()
      modifies this, scopes
      ensures Valid() && Extends()
      ensures r.Ok? ==> environment == old(environment) && r.value == None
      ensures StmtDone(s, r, [])
      decreases fuel, s, 0
    {
      var budget: nat := fuel;
      while true
        invariant Valid() && Extends() && environment == old(environment) && budget <= fuel
        invariant Pure(s.condition) && budget == fuel ==> scopes == old(scopes) && unchanged(scopes)
        invariant Pure(s.condition) && budget < fuel ==>
                    var c := old(Denote(s.condition, environment));
                    c.Ok? && Operators.IsTruthy(c.value) == Ok(true)
        decreases budget
      {
        var condition := Evaluate(s.condition, budget);
        if condition.Err? {
          return condition;
        }
        var truthy := Operators.IsTruthy(condition.value);
        if truthy.Err? {
          return Err(truthy.error);
        }
        if !truthy.value {
          break;
        }
        if budget == 0 {
          return Err(OutOfFuel);
        }
        budget := budget - 1;
        var body;
        ghost var blockResults;
        body, blockResults := ExecStmt(s.body, budget);
        if body.Err? {
          return body;
        }
      }
      r := Ok(None);
    }

    /**
     * Runs the top-level statements in order in the current scope; the first
     * error stops the run. The loop is executeBlock's without the change of
     * scope, so it is ExecuteStatements'. The ghost results are the
     * statements' results in the order they ran.
     */
    method Interpret(stmts: seq<Stmt>, fuel: nat) returns (r: Result<()>, ghost results: seq<Result<Object>>)
      requires Valid()
      modifies this, scopes
      ensures Valid() && Extends()
      ensures r.Ok? ==> environment == old(environment)
      ensures RunsInOrder(stmts, results)
      ensures r == if RunResult(results).Ok? then Ok(()) else Err(RunResult(results).error)
      ensures SimpleStmts(stmts) ==>
                var run := old(RunSimple(stmts, environment, repl));
                (run.result.Ok? ==> r == Ok(())) && (run.result.Err? ==> r == Err(run.result.error))
                && output == old(output) + run.written && scopes == old(scopes) && unchanged(scopes)
      ensures PureExprStmts(stmts) ==>
                var d := old(DenoteBlock(stmts, environment));
                (d.Ok? ==> r == Ok(())) && (d.Err? ==> r == Err(d.error)) && scopes == old(scopes) && unchanged(scopes)
    {
      var value;
      value, results := ExecuteStatements(stmts, fuel);
      r := if value.Ok? then Ok(()) else Err(value.error);
    }
  }

  /** bind on a root scope: the name is set in that scope. */
  method BindRoot(g: Environment, name: string, value: Object)
    requires g.Valid() && g.enclosing == null
    modifies g
    ensures g.bindings == old(g.bindings)[name := value]
  {
    g.Bind(name, value);
    g.SnapshotIsBindings();
  }
}
