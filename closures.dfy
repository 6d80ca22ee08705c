/**
 * Closures (nclosure.cpp): creation by snapshot and the positional binding of
 * parameters. Running a closure's body needs the interpreter, so the call
 * itself is Interpreter.CallClosure.
 */
module Closures {

  import opened Errors
  import opened Tokens
  import opened Ast
  import opened Runtime

  /**
   * A closure over a member-wise copy of the creating scope: the copy has its
   * own name map, equal to the scope's at this moment, and shares the scope's
   * enclosing link.
   */
  method MakeClosure(parameters: seq<Token>, body: seq<Stmt>, scope: Environment) returns (c: Callable)
    requires scope.Valid()
    ensures c.Closure? && c.parameters == parameters && c.body == body
    ensures fresh(c.env) && c.env.Valid()
    ensures c.env.bindings == scope.bindings && c.env.enclosing == scope.enclosing
  {
    var snapshot := new Environment.Copy(scope);
    c := Closure(parameters, body, snapshot);
  }

  /** The number of arguments a callable takes: a closure's parameter count, or a native's fixed arity. */
  function Arity(c: Callable): (n: nat)
    ensures c.Closure? ==> n == |c.parameters|
  {
    match c
    case Native(_, arity) => arity
    case Closure(parameters, _, _) => |parameters|
  }

  /**
   * The map the parameter declarations leave in an empty scope: parameter i
   * declared with argument i, in order, so a later parameter of the same
   * name wins.
   */
  function BindParameters(parameters: seq<Token>, arguments: seq<Object>): map<string, Object>
    requires |parameters| == |arguments|
    decreases |parameters|
  {
    if parameters == [] then map[]
    else
      var n := |parameters| - 1;
      BindParameters(parameters[..n], arguments[..n])[parameters[n].lexeme := arguments[n]]
  }

  /** The scope the parameter declarations leave maps exactly the parameter names. */
  lemma {:induction false} BindParametersKeys(parameters: seq<Token>, arguments: seq<Object>)
    requires |parameters| == |arguments|
    ensures BindParameters(parameters, arguments).Keys == set p <- parameters :: p.lexeme
    decreases |parameters|
  {
    if parameters != [] {
      var n := |parameters| - 1;
      BindParametersKeys(parameters[..n], arguments[..n]);
      assert parameters == parameters[..n] + [parameters[n]];
    }
  }

  /** A parameter that no later parameter redeclares is bound to its own argument. */
  lemma {:induction false} BindParametersLast(parameters: seq<Token>, arguments: seq<Object>, i: nat)
    requires |parameters| == |arguments| && i < |parameters|
    requires forall k :: i < k < |parameters| ==> parameters[k].lexeme != parameters[i].lexeme
    ensures parameters[i].lexeme in BindParameters(parameters, arguments)
    ensures BindParameters(parameters, arguments)[parameters[i].lexeme] == arguments[i]
    decreases |parameters|
  {
    var n := |parameters| - 1;
    if i < n {
      assert parameters[..n][i] == parameters[i];
      BindParametersLast(parameters[..n], arguments[..n], i);
    }
  }

  /**
   * Parameters bind positionally: the scope maps exactly the parameter names,
   * and each name to the argument at the last position that declares it.
   */
  lemma BindParametersPositional(parameters: seq<Token>, arguments: seq<Object>)
    requires |parameters| == |arguments|
    ensures BindParameters(parameters, arguments).Keys == set p <- parameters :: p.lexeme
    ensures forall i :: 0 <= i < |parameters| && (forall k :: i < k < |parameters| ==> parameters[k].lexeme != parameters[i].lexeme) ==>
              BindParameters(parameters, arguments)[parameters[i].lexeme] == arguments[i]
  {
    BindParametersKeys(parameters, arguments);
    forall i | 0 <= i < |parameters| && (forall k :: i < k < |parameters| ==> parameters[k].lexeme != parameters[i].lexeme)
      ensures BindParameters(parameters, arguments)[parameters[i].lexeme] == arguments[i]
    {
      BindParametersLast(parameters, arguments, i);
    }
  }

  /**
   * The scope a call runs its body in: a fresh scope nested in the captured
   * copy, with parameter i declared as argument i, in order.
   */
  method BindArguments(c: Callable, arguments: seq<Object>) returns (scope: Environment)
    requires c.Closure? && c.env.Valid() && |arguments| == |c.parameters|
    ensures fresh(scope) && scope.Valid() && scope.enclosing == c.env
    ensures scope.bindings == BindParameters(c.parameters, arguments)
  {
    scope := new Environment(c.env);
    for i := 0 to |arguments|
      invariant scope.bindings == BindParameters(c.parameters[..i], arguments[..i])
    {
      assert c.parameters[..i + 1][..i] == c.parameters[..i];
      assert arguments[..i + 1][..i] == arguments[..i];
      scope.DeclareVar(c.parameters[i].lexeme, arguments[i]);
    }
    assert c.parameters[..|arguments|] == c.parameters;
    assert arguments[..|arguments|] == arguments;
  }

  /** Every object a parameter is bound to is one of the arguments. */
  lemma {:induction false} BindParametersValues(parameters: seq<Token>, arguments: seq<Object>)
    requires |parameters| == |arguments|
    ensures forall n <- BindParameters(parameters, arguments) :: BindParameters(parameters, arguments)[n] in arguments
    decreases |parameters|
  {
    if parameters != [] {
      var n := |parameters| - 1;
      BindParametersValues(parameters[..n], arguments[..n]);
      assert forall a <- arguments[..n] :: a in arguments;
    }
  }

  /** With distinct parameter names, parameter i is bound to argument i. */
  lemma DistinctParametersBindPositionally(parameters: seq<Token>, arguments: seq<Object>, i: nat)
    requires |parameters| == |arguments| && i < |parameters|
    requires forall j, k :: 0 <= j < k < |parameters| ==> parameters[j].lexeme != parameters[k].lexeme
    ensures parameters[i].lexeme in BindParameters(parameters, arguments)
    ensures BindParameters(parameters, arguments)[parameters[i].lexeme] == arguments[i]
  {
    BindParametersPositional(parameters, arguments);
  }

  /**
   * The snapshot asymmetry: after a closure is made in a scope that binds x
   * and whose enclosing scope binds y, redeclaring x in the creating scope is
   * invisible to the closure, while rebinding y in the enclosing scope is seen.
   */
  method SnapshotAsymmetry() returns (x: Object, y: Object)
    ensures x == Some(Real(1.0)) && y == Some(Real(2.0))
  {
    var outer := new Environment(null);
    outer.DeclareVar("y", Some(Real(1.0)));
    var scope := new Environment(outer);
    scope.DeclareVar("x", Some(Real(1.0)));
    var c := MakeClosure([], [], scope);
    scope.DeclareVar("x", Some(Real(2.0)));
    outer.Bind("y", Some(Real(2.0)));
    assert c.env.bindings == map["x" := Some(Real(1.0))];
    assert outer.Lookup("y") == Some(Real(2.0));
    x := c.env.Lookup("x");
    y := c.env.Lookup("y");
  }
}
