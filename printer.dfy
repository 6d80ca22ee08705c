/**
 * The debugging printer of ASTPrinter.cpp: an expression in Lisp-like
 * prefix notation. Only the node kinds whose visit functions the file
 * defines can be printed. Numbers are printed by std::to_string, which is a
 * parameter here.
 */
module Printer {

  import opened Errors
  import opened Tokens
  import opened Ast
  import opened Scanning

  /** The node kinds ASTPrinter.cpp has a visit function for, all the way down. */
  predicate Printable(e: Expr) {
    match e
    case BinaryExpr(_, left, right) => Printable(left) && Printable(right)
    case Grouping(contents) => Printable(contents)
    case UnaryExpr(_, operand) => Printable(operand)
    case IdentifierExpr(_) => true
    case RealNumber(_, _) => true
    case ImaginaryNumber(_, _) => true
    case StringExpr(_) => true
    case _ => false
  }

  /**
   * The printed form of an expression, or None when some node has no
   * visit function in ASTPrinter.cpp.
   */
  function Print(e: Expr, render: real -> string): (r: Option<string>)
    ensures r.Some? <==> Printable(e)
  {
    match e
    case BinaryExpr(op, left, right) =>
      var l := Print(left, render);
      var r := Print(right, render);
      if l.Some? && r.Some? then Some("(" + op.lexeme + " " + l.value + " " + r.value + ")") else None
    case Grouping(contents) =>
      var c := Print(contents, render);
      if c.Some? then Some("(Grouping " + c.value + ")") else None
    case UnaryExpr(op, operand) =>
      var x := Print(operand, render);
      if x.Some? then Some("(" + op.lexeme + " " + x.value + ")") else None
    case IdentifierExpr(token) => Some(token.lexeme)
    case RealNumber(_, value) => Some(render(value))
    case ImaginaryNumber(_, value) => Some("j" + render(value))
    case StringExpr(token) => Some(token.lexeme)
    case _ => None
  }

  predicate NoParentheses(t: string) {
    Count(t, '(') == 0 && Count(t, ')') == 0
  }

  /** No operator lexeme, name, string or rendered number in the expression contains a parenthesis. */
  predicate PlainLeaves(e: Expr, render: real -> string) {
    match e
    case BinaryExpr(op, left, right) => NoParentheses(op.lexeme) && PlainLeaves(left, render) && PlainLeaves(right, render)
    case Grouping(contents) => PlainLeaves(contents, render)
    case UnaryExpr(op, operand) => NoParentheses(op.lexeme) && PlainLeaves(operand, render)
    case IdentifierExpr(token) => NoParentheses(token.lexeme)
    case RealNumber(_, value) => NoParentheses(render(value))
    case ImaginaryNumber(_, value) => NoParentheses(render(value))
    case StringExpr(token) => NoParentheses(token.lexeme)
    case _ => true
  }

  /** The binary, unary and grouping nodes of an expression: the nodes printed inside parentheses. */
  function Composites(e: Expr): nat {
    match e
    case BinaryExpr(_, left, right) => 1 + Composites(left) + Composites(right)
    case Grouping(contents) => 1 + Composites(contents)
    case UnaryExpr(_, operand) => 1 + Composites(operand)
    case _ => 0
  }

  lemma {:induction false} CountAbsent(t: string, c: char)
    requires forall k :: 0 <= k < |t| ==> t[k] != c
    ensures Count(t, c) == 0
  {
    if t != [] {
      CountAbsent(t[1..], c);
    }
  }

  lemma CountSingle(x: char, c: char)
    ensures Count([x], c) == if x == c then 1 else 0
  {
    assert [x][1..] == [];
  }

  /** The parentheses a printed binary node has besides those of its parts. */
  lemma BinaryCounts(op: string, l: string, r: string, c: char)
    requires c == '(' || c == ')'
    ensures Count("(" + op + " " + l + " " + r + ")", c)
            == Count(op, c) + Count(l, c) + Count(r, c) + 1
  {
    var t := "(" + op + " " + l + " " + r + ")";
    assert t == ['('] + op + [' '] + l + [' '] + r + [')'];
    CountSingle('(', c);
    CountSingle(' ', c);
    CountSingle(')', c);
    CountAppend(['('], op, c);
    CountAppend(['('] + op, [' '], c);
    CountAppend(['('] + op + [' '], l, c);
    CountAppend(['('] + op + [' '] + l, [' '], c);
    CountAppend(['('] + op + [' '] + l + [' '], r, c);
    CountAppend(['('] + op + [' '] + l + [' '] + r, [')'], c);
  }

  /** The parentheses a printed unary node has besides those of its parts. */
  lemma UnaryCounts(op: string, x: string, c: char)
    requires c == '(' || c == ')'
    ensures Count("(" + op + " " + x + ")", c) == Count(op, c) + Count(x, c) + 1
  {
    var t := "(" + op + " " + x + ")";
    assert t == ['('] + op + [' '] + x + [')'];
    CountSingle('(', c);
    CountSingle(' ', c);
    CountSingle(')', c);
    CountAppend(['('], op, c);
    CountAppend(['('] + op, [' '], c);
    CountAppend(['('] + op + [' '], x, c);
    CountAppend(['('] + op + [' '] + x, [')'], c);
  }

  /** The parentheses a printed grouping has besides those of its contents. */
  lemma GroupingCounts(x: string, c: char)
    requires c == '(' || c == ')'
    ensures Count("(Grouping " + x + ")", c) == Count(x, c) + 1
  {
    var word := "Grouping ";
    assert "(Grouping " + x + ")" == ['('] + word + x + [')'];
    CountAbsent(word, c);
    CountSingle('(', c);
    CountSingle(')', c);
    CountAppend(['('], word, c);
    CountAppend(['('] + word, x, c);
    CountAppend(['('] + word + x, [')'], c);
  }

  /** An imaginary number prints as 'j' and its value, which adds no parenthesis. */
  lemma ImaginaryCounts(x: string, c: char)
    requires c == '(' || c == ')'
    ensures Count("j" + x, c) == Count(x, c)
  {
    assert "j" + x == ['j'] + x;
    CountSingle('j', c);
    CountAppend(['j'], x, c);
  }

  /**
   * When no leaf text contains a parenthesis, the printed form has one
   * '(' and one ')' for each binary, unary and grouping node, so its
   * parentheses balance.
   */
  lemma {:induction false} ParenthesesBalance(e: Expr, render: real -> string)
    requires Printable(e) && PlainLeaves(e, render)
    ensures Count(Print(e, render).value, '(') == Composites(e)
    ensures Count(Print(e, render).value, ')') == Composites(e)
  {
    match e
    case BinaryExpr(op, left, right) =>
      ParenthesesBalance(left, render);
      ParenthesesBalance(right, render);
      BinaryCounts(op.lexeme, Print(left, render).value, Print(right, render).value, '(');
      BinaryCounts(op.lexeme, Print(left, render).value, Print(right, render).value, ')');
    case Grouping(contents) =>
      ParenthesesBalance(contents, render);
      GroupingCounts(Print(contents, render).value, '(');
      GroupingCounts(Print(contents, render).value, ')');
    case UnaryExpr(op, operand) =>
      ParenthesesBalance(operand, render);
      UnaryCounts(op.lexeme, Print(operand, render).value, '(');
      UnaryCounts(op.lexeme, Print(operand, render).value, ')');
    case ImaginaryNumber(_, value) =>
      ImaginaryCounts(render(value), '(');
      ImaginaryCounts(render(value), ')');
    case IdentifierExpr(_) =>
    case RealNumber(_, _) =>
    case StringExpr(_) =>
  }
}
