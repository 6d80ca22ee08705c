/**
 * Character classes and the extent of each lexeme the lexer scans
 * (lexer.cpp), stated as functions on the source text. The Lexer class is
 * proved to stop exactly where these functions say; the properties of the
 * lexemes (their syntax, that they are maximal) are proved here.
 */
module Scanning {

  import opened Errors

  predicate IsDigit(c: char) {
    '0' <= c <= '9'
  }

  /** Letters and '_': the characters that may start an identifier. */
  predicate IsChar(c: char) {
    ('a' <= c <= 'z') || ('A' <= c <= 'Z') || c == '_'
  }

  predicate AllDigits(s: string) {
    forall k :: 0 <= k < |s| ==> IsDigit(s[k])
  }

  predicate AllIdentifierChars(s: string) {
    forall k :: 0 <= k < |s| ==> IsDigit(s[k]) || IsChar(s[k])
  }

  /** The character n places ahead of position i, or '\0' past the end (Lexer::peek). */
  function CharAt(s: string, i: nat): (c: char)
    ensures i < |s| ==> c == s[i]
    ensures i >= |s| ==> c == '\0'
  {
    if i < |s| then s[i] else '\0'
  }

  /** The end of the maximal run of digits that starts at i. */
  function DigitRun(s: string, i: nat): (j: nat)
    requires i <= |s|
    ensures i <= j <= |s|
    ensures AllDigits(s[i..j])
    ensures j < |s| ==> !IsDigit(s[j])
    decreases |s| - i
  {
    if i < |s| && IsDigit(s[i]) then DigitRun(s, i + 1) else i
  }

  /**
   * Where a number literal that started before i ends: the digit run from i,
   * then a '.' and a second digit run only when a digit follows the '.'.
   */
  function NumberEnd(s: string, i: nat): (j: nat)
    requires i <= |s|
    ensures i <= j <= |s|
  {
    var d := DigitRun(s, i);
    if CharAt(s, d) == '.' && IsDigit(CharAt(s, d + 1)) then DigitRun(s, d + 1) else d
  }

  /** The syntax of a number lexeme: digits, optionally followed by '.' and at least one digit. */
  predicate NumberSyntax(t: string) {
    var d := DigitRun(t, 0);
    d > 0 && (d == |t| || (t[d] == '.' && d + 1 < |t| && AllDigits(t[d + 1..])))
  }

  lemma AllDigitsSplit(s: string, i: nat, j: nat, k: nat)
    requires i <= j <= k <= |s|
    requires AllDigits(s[i..j]) && AllDigits(s[j..k])
    ensures AllDigits(s[i..k])
  {
    assert forall m :: i <= m < k ==> (m < j ==> s[m] == s[i..j][m - i]) && (m >= j ==> s[m] == s[j..k][m - j]);
  }

  /**
   * A number literal whose first digit is at start is well formed, and it is
   * maximal: no digit follows it, and when it has no fractional part no
   * '.'-and-digit follows it either.
   */
  lemma {:induction false} NumberLexemeWellFormed(s: string, start: nat)
    requires start < |s| && IsDigit(s[start])
    ensures var e := NumberEnd(s, start + 1);
            NumberSyntax(s[start..e])
            && !IsDigit(CharAt(s, e))
            && (DigitRun(s, start) == e ==> !(CharAt(s, e) == '.' && IsDigit(CharAt(s, e + 1))))
  {
    var e := NumberEnd(s, start + 1);
    var d := DigitRun(s, start + 1);
    assert DigitRun(s, start) == d;
    var t := s[start..e];
    DigitRunShift(s, start, e);
    assert DigitRun(t, 0) == d - start;
    if CharAt(s, d) == '.' && IsDigit(CharAt(s, d + 1)) {
      assert t[d - start] == '.';
      assert t[d - start + 1..] == s[d + 1..e];
    }
  }

  /** Running DigitRun on a slice that starts at `from` gives the same end, shifted. */
  lemma {:induction false} DigitRunShift(s: string, from: nat, to: nat)
    requires from <= to <= |s|
    ensures DigitRun(s[from..to], 0) == (if DigitRun(s, from) <= to then DigitRun(s, from) else to) - from
  {
    var t := s[from..to];
    var d := DigitRun(s, from);
    var e := if d <= to then d else to;
    assert forall k :: 0 <= k < e - from ==> t[k] == s[from + k] && IsDigit(s[from..d][k]);
    DigitRunFrom(t, 0, e - from);
  }

  /** DigitRun from i ends at e exactly when s[i..e] is all digits and s[e] is not a digit (or e is the end). */
  lemma {:induction false} DigitRunFrom(s: string, i: nat, e: nat)
    requires i <= e <= |s|
    requires forall k :: i <= k < e ==> IsDigit(s[k])
    requires e < |s| ==> !IsDigit(s[e])
    ensures DigitRun(s, i) == e
    decreases e - i
  {
    if i < e {
      DigitRunFrom(s, i + 1, e);
    }
  }

  /**
   * Where an imaginary literal whose 'j' is at start - 1 ends: an optional
   * '-', then a number. This is the scan the lexer's comments describe; see
   * ImNumberEndAsWritten for the scan the source performs.
   */
  function ImNumberEnd(s: string, i: nat): (j: nat)
    requires i <= |s|
    ensures i <= j <= |s|
  {
    if CharAt(s, i) == '-' then NumberEnd(s, i + 1) else NumberEnd(s, i)
  }

  /** The imaginary lexeme without its 'j'. */
  function ImNumberLexeme(s: string, start: nat): (t: string)
    requires start < |s|
  {
    s[start + 1..ImNumberEnd(s, start + 1)]
  }

  /**
   * The scan as lexer.cpp:220-238 performs it: lexToken has already
   * consumed the 'j', yet imNumber advances once more "to consume the 'j'",
   * swallowing the first digit or the '-', and only then matches an
   * optional '-' and the digits.
   */
  function ImNumberEndAsWritten(s: string, i: nat): (j: nat)
    requires i < |s|
    ensures i < j <= |s|
  {
    var k := i + 1;
    if CharAt(s, k) == '-' then NumberEnd(s, k + 1) else NumberEnd(s, k)
  }

  /**
   * The lexeme as lexer.cpp:240-241 cuts it: substr(start + 1, current - start),
   * one character longer than the literal, clamped at the end of the text.
   */
  function ImNumberLexemeAsWritten(s: string, start: nat): (t: string)
    requires start + 1 < |s|
  {
    var len := ImNumberEndAsWritten(s, start + 1) - start;
    var stop := if start + 1 + len <= |s| then start + 1 + len else |s|;
    s[start + 1..stop]
  }

  /** The scan as written is the intended scan begun one character late. */
  lemma ImNumberEndOneLate(s: string, i: nat)
    requires i < |s|
    ensures ImNumberEndAsWritten(s, i) == ImNumberEnd(s, i + 1)
  {
  }

  /**
   * "j5-3": the source scans one imaginary literal whose lexeme is "5-3",
   * swallowing the subtraction; the intended scan stops after "5".
   */
  lemma ImNumberCounterexample()
    ensures ImNumberEndAsWritten("j5-3", 1) == 4
    ensures ImNumberLexemeAsWritten("j5-3", 0) == "5-3"
    ensures ImNumberEnd("j5-3", 1) == 2
    ensures ImNumberLexeme("j5-3", 0) == "5"
  {
    assert DigitRun("j5-3", 4) == 4;
    assert DigitRun("j5-3", 3) == 4;
    assert DigitRun("j5-3", 2) == 2;
    assert DigitRun("j5-3", 1) == 2;
  }

  /**
   * The corrected scan yields exactly an optional '-' followed by a number
   * literal, and nothing after it continues the number.
   */
  lemma ImNumberLexemeWellFormed(s: string, start: nat)
    requires start + 1 < |s|
    requires IsDigit(s[start + 1]) || (s[start + 1] == '-' && IsDigit(CharAt(s, start + 2)))
    ensures var t := ImNumberLexeme(s, start);
            var body := if t[0] == '-' then t[1..] else t;
            |t| > 0 && NumberSyntax(body) && !IsDigit(CharAt(s, ImNumberEnd(s, start + 1)))
  {
    var i := start + 1;
    var t := ImNumberLexeme(s, start);
    if s[i] == '-' {
      var e := NumberEnd(s, i + 2);
      assert ImNumberEnd(s, i) == e;
      NumberLexemeWellFormed(s, i + 1);
      assert t == s[i..e];
      assert t[0] == '-';
      assert t[1..] == s[i + 1..e];
    } else {
      var e := NumberEnd(s, i + 1);
      assert ImNumberEnd(s, i) == e;
      NumberLexemeWellFormed(s, i);
      assert t == s[i..e];
      assert t[0] != '-';
    }
  }

  /** The end of the identifier that started before i: the maximal run of letters, digits and '_'. */
  function IdentifierEnd(s: string, i: nat): (j: nat)
    requires i <= |s|
    ensures i <= j <= |s|
    ensures AllIdentifierChars(s[i..j])
    ensures j < |s| ==> !(IsDigit(s[j]) || IsChar(s[j]))
    decreases |s| - i
  {
    if i < |s| && (IsDigit(s[i]) || IsChar(s[i])) then IdentifierEnd(s, i + 1) else i
  }

  /** The first position at or after i that holds c, or the end of the text. */
  function Find(s: string, i: nat, c: char): (j: nat)
    requires i <= |s|
    ensures i <= j <= |s|
    ensures forall k :: i <= k < j ==> s[k] != c
    ensures j < |s| ==> s[j] == c
    decreases |s| - i
  {
    if i < |s| && s[i] != c then Find(s, i + 1, c) else i
  }

  /** The number of occurrences of c in s. */
  function Count(s: string, c: char): nat {
    if s == [] then 0 else (if s[0] == c then 1 else 0) + Count(s[1..], c)
  }

  lemma {:induction false} CountAppend(s: string, t: string, c: char)
    ensures Count(s + t, c) == Count(s, c) + Count(t, c)
  {
    if s != [] {
      assert (s + t)[0] == s[0];
      assert (s + t)[1..] == s[1..] + t;
      CountAppend(s[1..], t, c);
    } else {
      assert s + t == t;
    }
  }

  // std::stod on the decimal forms the lexer produces

  function DigitsValue(s: string): nat
    requires AllDigits(s)
  {
    if s == [] then 0 else 10 * DigitsValue(s[..|s| - 1]) + (s[|s| - 1] as int - '0' as int)
  }

  /** The value of the digits after a decimal point: 0.d1d2d3... */
  function FractionValue(s: string): (v: real)
    requires AllDigits(s)
    ensures 0.0 <= v <= 1.0
  {
    if s == [] then 0.0 else ((s[0] as int - '0' as int) as real + FractionValue(s[1..])) / 10.0
  }

  /** std::to_string on a non-negative integer: its decimal digits, with no leading zero unless it is 0. */
  function DecimalString(n: nat): (s: string)
    ensures |s| > 0 && AllDigits(s)
    ensures s[0] == '0' <==> n == 0
    decreases n
  {
    var last := [('0' as int + n % 10) as char];
    if n < 10 then last else DecimalString(n / 10) + last
  }

  /** Reading back the rendered digits gives the number. */
  lemma {:induction false} DecimalStringRoundTrip(n: nat)
    ensures DigitsValue(DecimalString(n)) == n
    decreases n
  {
    var s := DecimalString(n);
    if n >= 10 {
      DecimalStringRoundTrip(n / 10);
      assert s[..|s| - 1] == DecimalString(n / 10);
    }
  }

  /**
   * The value std::stod reads from the longest prefix of s of the form
   * [+|-] digits [. digits] with at least one digit; None when there is no
   * such prefix (std::stod throws std::invalid_argument).
   */
  function Stod(s: string): (r: Option<real>)
    ensures r.Some? ==> exists k :: 0 <= k < |s| && IsDigit(s[k])
  {
    var signed := |s| > 0 && (s[0] == '-' || s[0] == '+');
    var i := if signed then 1 else 0;
    var j := DigitRun(s, i);
    var whole := DigitsValue(s[i..j]) as real;
    var negative := |s| > 0 && s[0] == '-';
    if CharAt(s, j) == '.' then
      var k := DigitRun(s, j + 1);
      if j == i && k == j + 1 then None
      else
        assert j > i ==> IsDigit(s[i]);
        assert k > j + 1 ==> IsDigit(s[j + 1]);
        var magnitude := whole + FractionValue(s[j + 1..k]);
        Some(if negative then -magnitude else magnitude)
    else if j == i then None
    else
      assert IsDigit(s[i]);
      Some(if negative then -whole else whole)
  }

  /** The decimal value of a number lexeme: its whole digits plus its fraction digits. */
  function NumberValue(t: string): real
    requires NumberSyntax(t)
  {
    var d := DigitRun(t, 0);
    DigitsValue(t[..d]) as real + (if d == |t| then 0.0 else FractionValue(t[d + 1..]))
  }

  /**
   * std::stod reads every number lexeme whole: the lexeme gives its decimal
   * value, and the lexeme after a '-' gives the negated value.
   */
  lemma StodNumber(t: string)
    requires NumberSyntax(t)
    ensures Stod(t) == Some(NumberValue(t))
    ensures Stod("-" + t) == Some(-NumberValue(t))
  {
    StodUnsigned(t);
    StodNegated(t);
  }

  lemma StodUnsigned(t: string)
    requires NumberSyntax(t)
    ensures Stod(t) == Some(NumberValue(t))
  {
    var d := DigitRun(t, 0);
    assert t[0..d] == t[..d];
    if d < |t| {
      DigitRunFrom(t, d + 1, |t|);
      assert t[d + 1..|t|] == t[d + 1..];
    }
  }

  lemma StodNegated(t: string)
    requires NumberSyntax(t)
    ensures Stod("-" + t) == Some(-NumberValue(t))
  {
    var d := DigitRun(t, 0);
    var s := "-" + t;
    assert forall k :: 1 <= k < 1 + d ==> s[k] == t[..d][k - 1];
    DigitRunFrom(s, 1, 1 + d);
    assert s[1..1 + d] == t[..d];
    if d < |t| {
      assert s[1 + d] == '.';
      assert forall k :: d + 2 <= k < |s| ==> s[k] == t[d + 1..][k - d - 2];
      DigitRunFrom(s, d + 2, |s|);
      assert s[d + 2..|s|] == t[d + 1..];
    }
  }

  /** Every number literal the lexer scans is read by std::stod. */
  lemma NumberLexemeReads(s: string, start: nat)
    requires start < |s| && IsDigit(s[start])
    ensures var t := s[start..NumberEnd(s, start + 1)];
            NumberSyntax(t) && Stod(t) == Some(NumberValue(t))
  {
    NumberLexemeWellFormed(s, start);
    StodNumber(s[start..NumberEnd(s, start + 1)]);
  }
}
