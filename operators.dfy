/**
 * The operators of the numeric tower (noperator.cpp): total functions over
 * possibly-null objects. Doubles are modelled as exact reals; whatever the
 * host would compute as an IEEE infinity or NaN is reported as Unmodelled.
 *
 * Each operator inspects its operands in the order the source does, so a null
 * operand is a Crash exactly when the source would dereference it, and an
 * earlier type error wins over a later null.
 */
module Operators {

  import opened Errors
  import opened Runtime
  import opened RealAlgebra

  const NullDereference := Crash("null object dereferenced")
  const NotFinite := Unmodelled("IEEE infinity or NaN")

  predicate IsNumeric(v: Value) {
    v.Real? || v.Complex?
  }

  /** The real part of a number; a Real r is read as (r, 0). */
  function Re(v: Value): real
    requires IsNumeric(v)
  {
    if v.Real? then v.r else v.re
  }

  /** The imaginary part of a number; a Real has none. */
  function Im(v: Value): real
    requires IsNumeric(v)
  {
    if v.Real? then 0.0 else v.im
  }

  // Type predicates

  function IsRealNumber(o: Object): (r: Result<bool>)
  {
    if o.None? then Err(NullDereference) else Ok(o.value.Real?)
  }

  function IsNumber(o: Object): (r: Result<bool>)
  {
    if o.None? then Err(NullDereference) else Ok(IsNumeric(o.value))
  }

  function AreRealNumbers(left: Object, right: Object): (r: Result<bool>)
  {
    var l :- IsRealNumber(left);
    if !l then Ok(false) else IsRealNumber(right)
  }

  function AreNumbers(left: Object, right: Object): (r: Result<bool>)
  {
    var l :- IsNumber(left);
    if !l then Ok(false) else IsNumber(right)
  }

  /** The type predicates hold of two non-null objects exactly when each operand is of the kind. */
  lemma TypePredicates(a: Value, b: Value)
    ensures AreRealNumbers(Some(a), Some(b)) == Ok(a.Real? && b.Real?)
    ensures AreNumbers(Some(a), Some(b)) == Ok(IsNumeric(a) && IsNumeric(b))
  {
  }

  // Addition and subtraction

  function AddNumbers(a: Value, b: Value): Value
    requires IsNumeric(a) && IsNumeric(b)
  {
    if a.Real? && b.Real? then Real(a.r + b.r)
    else if a.Real? then Complex(a.r + b.re, b.im)
    else if b.Real? then Complex(a.re + b.r, a.im)
    else Complex(a.re + b.re, a.im + b.im)
  }

  function Add(left: Object, right: Object): Result<Value>
  {
    if left.None? then Err(NullDereference)
    else if left.value.Str? && right.None? then Err(NullDereference)
    else if left.value.Str? && right.value.Str? then Ok(Str(left.value.s + right.value.s))
    else if !IsNumeric(left.value) then Err(RuntimeError("Invalid operands for addition/subtraction."))
    else if right.None? then Err(NullDereference)
    else if !IsNumeric(right.value) then Err(RuntimeError("Invalid operands for addition/subtraction."))
    else Ok(AddNumbers(left.value, right.value))
  }

  /**
   * Two strings concatenate; two reals stay real; any complex operand makes
   * the sum complex, the real side counting as (r, 0); anything else is the
   * addition error.
   */
  lemma AddCases(a: Value, b: Value)
    ensures a.Str? && b.Str? ==> Add(Some(a), Some(b)) == Ok(Str(a.s + b.s))
    ensures a.Real? && b.Real? ==> Add(Some(a), Some(b)) == Ok(Real(a.r + b.r))
    ensures IsNumeric(a) && IsNumeric(b) && (a.Complex? || b.Complex?) ==>
              Add(Some(a), Some(b)) == Ok(Complex(Re(a) + Re(b), Im(a) + Im(b)))
    ensures !(a.Str? && b.Str?) && !(IsNumeric(a) && IsNumeric(b)) ==>
              Add(Some(a), Some(b)) == Err(RuntimeError("Invalid operands for addition/subtraction."))
  {
  }

  lemma AddCommutesOnNumbers(a: Value, b: Value)
    requires IsNumeric(a) && IsNumeric(b)
    ensures Add(Some(a), Some(b)) == Add(Some(b), Some(a))
  {
  }

  function Negate(right: Object): Result<Value>
  {
    if right.None? then Err(NullDereference)
    else match right.value
      case Real(x) => Ok(Real(-x))
      case Complex(re, im) => Ok(Complex(-re, -im))
      case _ => Err(RuntimeError("Invalid operand for unary negation."))
  }

  /** Negation keeps the kind and negates each part; it is its own inverse. */
  lemma NegateInvolution(v: Value)
    requires IsNumeric(v)
    ensures Negate(Some(v)).Ok? && Negate(Some(v)).value.Real? == v.Real?
    ensures Re(Negate(Some(v)).value) == -Re(v) && Im(Negate(Some(v)).value) == -Im(v)
    ensures Negate(Some(Negate(Some(v)).value)) == Ok(v)
  {
  }

  /** The operand is negated before anything else, so a bad right operand reports the negation error. */
  function Subtract(left: Object, right: Object): Result<Value>
  {
    var negated :- Negate(right);
    Add(left, Some(negated))
  }

  /**
   * Subtracting and adding back the same number gives the left operand back,
   * promoted to complex when either side is complex.
   */
  lemma SubtractThenAdd(a: Value, b: Value)
    requires IsNumeric(a) && IsNumeric(b)
    ensures Subtract(Some(a), Some(b)).Ok?
    ensures var d := Subtract(Some(a), Some(b)).value;
            Add(Some(d), Some(b)) == Ok(if a.Real? && b.Real? then a else Complex(Re(a), Im(a)))
  {
  }

  /** x - x is the zero of x's kind. */
  lemma SubtractSelf(a: Value)
    requires IsNumeric(a)
    ensures Subtract(Some(a), Some(a)) == Ok(if a.Real? then Real(0.0) else Complex(0.0, 0.0))
  {
  }

  // Multiplication, j and division

  function MultiplyNumbers(a: Value, b: Value): Value
    requires IsNumeric(a) && IsNumeric(b)
  {
    if a.Real? && b.Real? then Real(a.r * b.r)
    else if a.Real? then Complex(a.r * b.re, a.r * b.im)
    else if b.Real? then Complex(a.re * b.r, a.im * b.r)
    else Complex(a.re * b.re - a.im * b.im, a.re * b.im + a.im * b.re)
  }

  function Multiply(left: Object, right: Object): Result<Value>
  {
    if left.None? then Err(NullDereference)
    else if !IsNumeric(left.value) then Err(RuntimeError("Invalid operands for multiplication/division."))
    else if right.None? then Err(NullDereference)
    else if !IsNumeric(right.value) then Err(RuntimeError("Invalid operands for multiplication/division."))
    else Ok(MultiplyNumbers(left.value, right.value))
  }

  /**
   * Reals multiply as reals; otherwise the product is the complex product
   * (ac - bd, ad + bc) with a real side read as (r, 0), so a real scales both
   * parts of a complex.
   */
  lemma MultiplyCases(a: Value, b: Value)
    requires IsNumeric(a) && IsNumeric(b)
    ensures a.Real? && b.Real? ==> Multiply(Some(a), Some(b)) == Ok(Real(a.r * b.r))
    ensures a.Complex? || b.Complex? ==>
              Multiply(Some(a), Some(b)) ==
              Ok(Complex(Re(a) * Re(b) - Im(a) * Im(b), Re(a) * Im(b) + Im(a) * Re(b)))
  {
    assert Multiply(Some(a), Some(b)) == Ok(MultiplyNumbers(a, b));
    if a.Real? && b.Complex? {
      assert Re(a) == a.r && Re(b) == b.re && Im(b) == b.im;
      assert Im(a) * Im(b) == 0.0 && Im(a) * Re(b) == 0.0;
      assert MultiplyNumbers(a, b) == Complex(a.r * b.re, a.r * b.im);
      assert Re(a) * Re(b) - Im(a) * Im(b) == a.r * b.re;
      assert Re(a) * Im(b) + Im(a) * Re(b) == a.r * b.im;
    } else if a.Complex? && b.Real? {
      assert Re(a) == a.re && Im(a) == a.im && Re(b) == b.r;
      assert Re(a) * Im(b) == 0.0 && Im(a) * Im(b) == 0.0;
      assert MultiplyNumbers(a, b) == Complex(a.re * b.r, a.im * b.r);
      assert Re(a) * Re(b) - Im(a) * Im(b) == a.re * b.r;
      assert Re(a) * Im(b) + Im(a) * Re(b) == a.im * b.r;
    } else if a.Complex? && b.Complex? {
      assert Re(a) == a.re && Im(a) == a.im && Re(b) == b.re && Im(b) == b.im;
      assert MultiplyNumbers(a, b) == Complex(Re(a) * Re(b) - Im(a) * Im(b), Re(a) * Im(b) + Im(a) * Re(b));
    }
  }

  lemma MultiplyCommutesOnNumbers(a: Value, b: Value)
    requires IsNumeric(a) && IsNumeric(b)
    ensures Multiply(Some(a), Some(b)) == Multiply(Some(b), Some(a))
  {
  }

  /** Multiplication by j1; a non-number reports the negation message, as the source does. */
  function TimesJ(right: Object): Result<Value>
  {
    if right.None? then Err(NullDereference)
    else if !IsNumeric(right.value) then Err(RuntimeError("Invalid operand for unary negation."))
    else Multiply(Some(Complex(0.0, 1.0)), right)
  }

  /** j turns a real r into (0, r) and rotates (a, b) to (-b, a); applied twice it negates. */
  lemma TimesJRotates(v: Value)
    requires IsNumeric(v)
    ensures v.Real? ==> TimesJ(Some(v)) == Ok(Complex(0.0, v.r))
    ensures v.Complex? ==> TimesJ(Some(v)) == Ok(Complex(-v.im, v.re))
    ensures TimesJ(Some(TimesJ(Some(v)).value)) == Ok(Complex(-Re(v), -Im(v)))
  {
    var j := Complex(0.0, 1.0);
    if v.Real? {
      assert MultiplyNumbers(j, v) == Complex(0.0 * v.r, 1.0 * v.r);
    } else {
      assert MultiplyNumbers(j, v) == Complex(0.0 * v.re - 1.0 * v.im, 0.0 * v.im + 1.0 * v.re);
    }
    var w := MultiplyNumbers(j, v);
    assert MultiplyNumbers(j, w) == Complex(0.0 * w.re - 1.0 * w.im, 0.0 * w.im + 1.0 * w.re);
  }

  /**
   * A real left operand over a complex right operand is first promoted to
   * (r, 0). A zero divisor is left to IEEE arithmetic and is not modelled.
   */
  function Divide(left: Object, right: Object): (r: Result<Value>)
    ensures r.Ok? ==> IsNumeric(r.value)
    decreases if left.Some? && left.value.Real? then 1 else 0
  {
    if left.None? then Err(NullDereference)
    else if !IsNumeric(left.value) then Err(RuntimeError("Invalid operands for multiplication/division."))
    else if right.None? then Err(NullDereference)
    else if !IsNumeric(right.value) then Err(RuntimeError("Invalid operands for multiplication/division."))
    else
      var a, b := left.value, right.value;
      if a.Real? && b.Real? then
        if b.r == 0.0 then Err(NotFinite) else Ok(Real(a.r / b.r))
      else if b.Real? then
        if b.r == 0.0 then Err(NotFinite) else Ok(Complex(a.re / b.r, a.im / b.r))
      else if a.Real? then
        Divide(Some(Complex(a.r, 0.0)), right)
      else
        ComplexQuotient(a.re, a.im, b.re, b.im)
  }

  /** (a, b) / (c, d) = ((ac + bd) / (c² + d²), (bc - ad) / (c² + d²)). */
  function ComplexQuotient(a: real, b: real, c: real, d: real): Result<Value>
  {
    var divisor := c * c + d * d;
    if divisor == 0.0 then Err(NotFinite)
    else Ok(Complex((a * c + b * d) / divisor, (-(a * d) + c * b) / divisor))
  }

  /** (1 + j1) / j1 = 1 - j1. */
  lemma DivideExample()
    ensures Divide(Some(Complex(1.0, 1.0)), Some(Complex(0.0, 1.0))) == Ok(Complex(1.0, -1.0))
  {
  }

  /**
   * Two reals divide as reals, a complex over a real divides both parts, a
   * real over a complex is first promoted to (r, 0), and two complexes give
   * ((ac + bd) / (c² + d²), (bc - ad) / (c² + d²)). A zero divisor is left
   * to IEEE arithmetic.
   */
  lemma DivideCases(a: Value, b: Value)
    requires IsNumeric(a) && IsNumeric(b)
    ensures b.Real? && b.r == 0.0 ==> Divide(Some(a), Some(b)) == Err(NotFinite)
    ensures a.Real? && b.Real? && b.r != 0.0 ==> Divide(Some(a), Some(b)) == Ok(Real(a.r / b.r))
    ensures a.Complex? && b.Real? && b.r != 0.0 ==> Divide(Some(a), Some(b)) == Ok(Complex(a.re / b.r, a.im / b.r))
    ensures a.Real? && b.Complex? ==> Divide(Some(a), Some(b)) == Divide(Some(Complex(a.r, 0.0)), Some(b))
    ensures a.Real? && b.Complex? ==> Divide(Some(a), Some(b)) == ComplexQuotient(a.r, 0.0, b.re, b.im)
    ensures a.Complex? && b.Complex? ==> Divide(Some(a), Some(b)) == ComplexQuotient(a.re, a.im, b.re, b.im)
  {
  }

  /** The divisors the quotient is defined for: a nonzero real, or a complex whose c² + d² is nonzero. */
  predicate NonZero(v: Value)
    requires IsNumeric(v)
  {
    if v.Real? then v.r != 0.0 else v.re * v.re + v.im * v.im != 0.0
  }

  /** ((ac + bd) / n) c - ((bc - ad) / n) d = a and ((ac + bd) / n) d + ((bc - ad) / n) c = b, with n = c² + d². */
  lemma QuotientTimesDivisor(a: real, b: real, c: real, d: real)
    requires c * c + d * d != 0.0
    ensures ComplexQuotient(a, b, c, d).Ok?
    ensures MultiplyNumbers(ComplexQuotient(a, b, c, d).value, Complex(c, d)) == Complex(a, b)
  {
    var n := c * c + d * d;
    var x := (a * c + b * d) / n;
    var y := (-(a * d) + c * b) / n;
    QuotientParts(a, b, c, d, n, x, y);
  }

  /**
   * Division undoes multiplication: (a / b) * b gives a back for every
   * nonzero divisor, as a complex unless both operands are reals.
   */
  lemma DivideThenMultiply(a: Value, b: Value)
    requires IsNumeric(a) && IsNumeric(b) && NonZero(b)
    ensures Divide(Some(a), Some(b)).Ok?
    ensures Multiply(Some(Divide(Some(a), Some(b)).value), Some(b))
         == Ok(if a.Real? && b.Real? then a else Complex(Re(a), Im(a)))
  {
    if b.Real? {
      RealDivisor(a, b.r);
    } else if a.Real? {
      DivideCases(a, b);
      QuotientTimesDivisor(a.r, 0.0, b.re, b.im);
    } else {
      DivideCases(a, b);
      QuotientTimesDivisor(a.re, a.im, b.re, b.im);
    }
  }

  /** (x / r) · r = x. */
  lemma RealOverReal(x: real, r: real)
    requires r != 0.0
    ensures MultiplyNumbers(Real(x / r), Real(r)) == Real(x)
  {
    DivMul(x, r);
  }

  /** (re / r, im / r) · r = (re, im). */
  lemma ComplexOverReal(re: real, im: real, r: real)
    requires r != 0.0
    ensures MultiplyNumbers(Complex(re / r, im / r), Real(r)) == Complex(re, im)
  {
    DivMul(re, r);
    DivMul(im, r);
  }

  /** Dividing by a nonzero real and multiplying back gives the dividend. */
  lemma RealDivisor(a: Value, r: real)
    requires IsNumeric(a) && r != 0.0
    ensures Divide(Some(a), Some(Real(r))).Ok?
    ensures Multiply(Some(Divide(Some(a), Some(Real(r))).value), Some(Real(r))) == Ok(a)
  {
    DivideCases(a, Real(r));
    if a.Real? {
      RealOverReal(a.r, r);
    } else {
      ComplexOverReal(a.re, a.im, r);
    }
  }

  /** Division fails only on a zero divisor: 0 and 0 + j0 are not finite. */
  lemma DivideByZero(a: Value, b: Value)
    requires IsNumeric(a) && IsNumeric(b)
    ensures Divide(Some(a), Some(b)).Err? <==> !NonZero(b)
    ensures !NonZero(b) ==> Divide(Some(a), Some(b)) == Err(NotFinite)
  {
    if NonZero(b) {
      DivideThenMultiply(a, b);
    } else if b.Complex? {
      if a.Real? {
        assert Divide(Some(a), Some(b)) == Divide(Some(Complex(a.r, 0.0)), Some(b));
      }
    }
  }

  // Exponentiation

  function IntPower(x: real, n: nat): (p: real)
    ensures x != 0.0 ==> p != 0.0
  {
    if n == 0 then 1.0 else x * IntPower(x, n - 1)
  }

  /**
   * std::pow on reals, computed exactly for integral exponents; a non-integral
   * exponent and a negative power of zero are not modelled.
   */
  function Pow(x: real, y: real): Result<Value>
  {
    if y != y.Floor as real then Err(Unmodelled("std::pow with a non-integral exponent"))
    else if y >= 0.0 then Ok(Real(IntPower(x, y.Floor)))
    else if x == 0.0 then Err(NotFinite)
    else Ok(Real(1.0 / IntPower(x, -y.Floor)))
  }

  function Power(left: Object, right: Object): Result<Value>
  {
    var reals :- AreRealNumbers(left, right);
    if !reals then Err(RuntimeError("invalid operands for exponentiation."))
    else if left.value.r == 0.0 && right.value.r == 0.0 then
      Err(RuntimeError("can't raise zero to the power of zero!"))
    else Pow(left.value.r, right.value.r)
  }

  /** Only two reals can be raised, and 0 ** 0 is an error rather than 1. */
  lemma PowerGuards(a: Value, b: Value)
    ensures !(a.Real? && b.Real?) ==> Power(Some(a), Some(b)) == Err(RuntimeError("invalid operands for exponentiation."))
    ensures a == Real(0.0) && b == Real(0.0) ==>
              Power(Some(a), Some(b)) == Err(RuntimeError("can't raise zero to the power of zero!"))
  {
  }

  lemma PowerExample()
    ensures Power(Some(Real(2.0)), Some(Real(10.0))) == Ok(Real(1024.0))
    ensures Power(Some(Real(2.0)), Some(Real(-1.0))) == Ok(Real(0.5))
  {
    assert IntPower(2.0, 10) == 1024.0;
  }

  // Truthiness and logic

  /**
   * Zero, (0, 0), false and the empty string are falsy. The source's switch
   * has no case for a callable and falls off the end of a non-void function,
   * which is undefined behaviour.
   */
  function IsTruthy(o: Object): Result<bool>
  {
    if o.None? then Err(NullDereference)
    else match o.value
      case Real(x) => Ok(x != 0.0)
      case Complex(re, im) => Ok(!(re == 0.0 && im == 0.0))
      case Bool(b) => Ok(b)
      case Str(s) => Ok(s != [])
      case Callable(_) => Err(Crash("isTruthy has no case for a callable"))
  }

  /** Truthiness never raises a RuntimeException, so the handlers in `or` and `and` are dead. */
  lemma IsTruthyNeverRuntimeError(o: Object)
    ensures IsTruthy(o).Err? ==> IsTruthy(o).error.Crash?
    ensures IsTruthy(o).Err? <==> o.None? || o.value.Callable?
  {
  }

  function Not(right: Object): Result<Value>
  {
    var t :- IsTruthy(right);
    Ok(Bool(!t))
  }

  /** The right operand's truthiness is only asked for when the left one does not decide. */
  function Or(left: Object, right: Object): Result<Value>
  {
    var l :- IsTruthy(left);
    if l then Ok(Bool(true))
    else
      var r :- IsTruthy(right);
      Ok(Bool(r))
  }

  function And(left: Object, right: Object): Result<Value>
  {
    var l :- IsTruthy(left);
    if !l then Ok(Bool(false))
    else
      var r :- IsTruthy(right);
      Ok(Bool(r))
  }

  /** On operands with a truthiness, not / or / and are the boolean operations on it. */
  lemma LogicTables(a: Object, b: Object)
    requires IsTruthy(a).Ok? && IsTruthy(b).Ok?
    ensures Not(a) == Ok(Bool(!IsTruthy(a).value))
    ensures Or(a, b) == Ok(Bool(IsTruthy(a).value || IsTruthy(b).value))
    ensures And(a, b) == Ok(Bool(IsTruthy(a).value && IsTruthy(b).value))
  {
  }

  // Equality

  /** Defined only when an operand is a boolean; then it compares truthiness. */
  function Equal(left: Object, right: Object): (r: Result<Value>)
    ensures r.Ok? ==> r.value.Bool?
  {
    if left.None? || right.None? then Err(NullDereference)
    else if left.value.Bool? || right.value.Bool? then
      var l :- IsTruthy(left);
      var r :- IsTruthy(right);
      Ok(Bool(l == r))
    else Err(RuntimeError("Invalid operands for '==' operator"))
  }

  function NotEqual(left: Object, right: Object): Result<Value>
  {
    match Equal(left, right)
    case Err(RuntimeError(_)) => Err(RuntimeError("Invalid operands for '!=' operator"))
    case Err(e) => Err(e)
    case Ok(v) => Ok(Bool(!v.b))
  }

  lemma EqualSymmetric(a: Object, b: Object)
    ensures Equal(a, b) == Equal(b, a)
  {
  }

  /** `!=` yields the negation exactly when `==` yields a value, and fails where `==` fails. */
  lemma NotEqualNegatesEqual(a: Object, b: Object)
    ensures Equal(a, b).Ok? <==> NotEqual(a, b).Ok?
    ensures Equal(a, b).Ok? ==> NotEqual(a, b) == Ok(Bool(!Equal(a, b).value.b))
    ensures Equal(a, b).Err? && !Equal(a, b).error.RuntimeError? ==> NotEqual(a, b) == Equal(a, b)
  {
  }

  /**
   * With a boolean operand, == compares the two operands' truthiness: true
   * exactly when both are truthy or both are falsy. A callable operand has no
   * truthiness, so the comparison crashes.
   */
  lemma EqualComparesTruthiness(a: Value, b: Value)
    requires a.Bool? || b.Bool?
    ensures IsTruthy(Some(a)).Ok? && IsTruthy(Some(b)).Ok? ==>
              Equal(Some(a), Some(b)) == Ok(Bool(IsTruthy(Some(a)).value == IsTruthy(Some(b)).value))
    ensures Equal(Some(a), Some(b)).Ok? <==> !a.Callable? && !b.Callable?
    ensures a.Callable? || b.Callable? ==>
              Equal(Some(a), Some(b)) == Err(Crash("isTruthy has no case for a callable"))
  {
  }

  /** Two non-boolean operands cannot be compared at all: `1 == 1` is an error. */
  lemma EqualNeedsBoolean(a: Value, b: Value)
    requires !a.Bool? && !b.Bool?
    ensures Equal(Some(a), Some(b)) == Err(RuntimeError("Invalid operands for '==' operator"))
    ensures NotEqual(Some(a), Some(b)) == Err(RuntimeError("Invalid operands for '!=' operator"))
  {
  }

  // Orderings

  datatype Ordering = Gt | Lt | Ge | Le

  function Symbol(o: Ordering): string {
    match o
    case Gt => "'>'"
    case Lt => "'<'"
    case Ge => "'>='"
    case Le => "'<='"
  }

  function Holds(o: Ordering, x: real, y: real): bool {
    match o
    case Gt => x > y
    case Lt => x < y
    case Ge => x >= y
    case Le => x <= y
  }

  /** nGreater, nLess, nGreaterEqual and nLessEqual: the four share one shape and differ in symbol and relation. */
  function Compare(o: Ordering, left: Object, right: Object): Result<Value>
  {
    if left.None? || right.None? then Err(NullDereference)
    else if left.value.Complex? || right.value.Complex? then
      Err(RuntimeError(Symbol(o) + " operator does not support complex numbers."))
    else if !left.value.Real? || !right.value.Real? then
      Err(RuntimeError("invalid operands for " + Symbol(o) + " operator."))
    else Ok(Bool(Holds(o, left.value.r, right.value.r)))
  }

  /** A complex operand is reported before any other kind mismatch. */
  lemma CompareErrors(o: Ordering, a: Value, b: Value)
    ensures a.Complex? || b.Complex? ==>
              Compare(o, Some(a), Some(b)) == Err(RuntimeError(Symbol(o) + " operator does not support complex numbers."))
    ensures !a.Complex? && !b.Complex? && !(a.Real? && b.Real?) ==>
              Compare(o, Some(a), Some(b)) == Err(RuntimeError("invalid operands for " + Symbol(o) + " operator."))
  {
  }

  /** On reals, a > b is b < a, a >= b is b <= a, and >= is the negation of <. */
  lemma OrderingDualities(x: real, y: real)
    ensures Compare(Gt, Some(Real(x)), Some(Real(y))) == Compare(Lt, Some(Real(y)), Some(Real(x)))
    ensures Compare(Ge, Some(Real(x)), Some(Real(y))) == Compare(Le, Some(Real(y)), Some(Real(x)))
    ensures Compare(Ge, Some(Real(x)), Some(Real(y))) == Not(Some(Compare(Lt, Some(Real(x)), Some(Real(y))).value))
  {
  }
}
