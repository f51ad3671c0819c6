/** Doubles as far as comparing and writing them goes: rounding is not modelled. */
module Doubles {

  datatype Double = Finite(n: real) | Infinite(positive: bool) | NaN

  datatype Op = Eq | Gt | Ge | Lt | Le

  function Rank(x: Double): int {
    match x
    case Finite(_) => 0
    case Infinite(positive) => if positive then 1 else -1
    case NaN => 2
  }

  /** The database's order: NaN equals itself and lies above everything. */
  predicate Above(l: Double, r: Double) {
    if l.Finite? && r.Finite? then l.n > r.n else Rank(l) > Rank(r)
  }

  predicate Ordered(op: Op, l: Double, r: Double) {
    match op
    case Eq => l == r
    case Gt => Above(l, r)
    case Ge => !Above(r, l)
    case Lt => Above(r, l)
    case Le => !Above(l, r)
  }

  /** Go's comparison: the same but for NaN, of which nothing holds. */
  predicate Compares(op: Op, l: Double, r: Double) {
    !l.NaN? && !r.NaN? && Ordered(op, l, r)
  }

  /** What each sign means of numbers, and where infinities and NaN stand. */
  lemma OrderedMeans(a: real, b: real, x: Double)
    ensures Ordered(Eq, Finite(a), Finite(b)) <==> a == b
    ensures Ordered(Gt, Finite(a), Finite(b)) <==> a > b
    ensures Ordered(Ge, Finite(a), Finite(b)) <==> a >= b
    ensures Ordered(Lt, Finite(a), Finite(b)) <==> a < b
    ensures Ordered(Le, Finite(a), Finite(b)) <==> a <= b
    ensures Ordered(Gt, Infinite(true), Finite(a)) && Ordered(Lt, Infinite(false), Finite(a))
    ensures x != NaN ==> Ordered(Gt, NaN, x)
    ensures Ordered(Eq, x, x) && Ordered(Ge, x, x) && Ordered(Le, x, x) && !Ordered(Gt, x, x) && !Ordered(Lt, x, x)
    ensures forall op :: !Compares(op, NaN, x) && !Compares(op, x, NaN)
    ensures forall op :: x != NaN ==> (Compares(op, Finite(a), x) <==> Ordered(op, Finite(a), x))
  {
  }

  /** The two comparisons with a number differ exactly on a NaN at the left of > or >=. */
  lemma OrdersDifferIff(op: Op, l: Double, r: real)
    ensures Ordered(op, l, Finite(r)) != Compares(op, l, Finite(r)) <==> l.NaN? && (op == Gt || op == Ge)
  {
  }

  // ---------------------------------------------------------------- numeric literals

  predicate IsDigit(c: char) {
    '0' <= c <= '9'
  }

  predicate IsSign(c: char) {
    c == '+' || c == '-'
  }

  function DropDigits(s: string): string {
    if s != "" && IsDigit(s[0]) then DropDigits(s[1..]) else s
  }

  function DropSign(s: string): string {
    if s != "" && IsSign(s[0]) then s[1..] else s
  }

  predicate StartsWithDigit(s: string) {
    s != "" && IsDigit(s[0])
  }

  /** What may follow the fraction: nothing or an exponent. */
  predicate Exponent(s: string) {
    s == "" || ((s[0] == 'e' || s[0] == 'E') && StartsWithDigit(DropSign(s[1..])) && DropDigits(DropSign(s[1..])) == "")
  }

  /** What may follow the whole part. */
  predicate Fraction(s: string) {
    if s != "" && s[0] == '.' then StartsWithDigit(s[1..]) && Exponent(DropDigits(s[1..])) else Exponent(s)
  }

  /** A signed number as SQL reads it; anything else without quotes is a name or an error. */
  predicate NumericLiteral(s: string) {
    StartsWithDigit(DropSign(s)) && Fraction(DropDigits(DropSign(s)))
  }

  predicate Digits(s: string) {
    s != "" && forall c :: c in s ==> c in "0123456789"
  }

  predicate Signed(s: string) {
    s == "" || s == "+" || s == "-"
  }

  /** A dot with digits behind it, or nothing. */
  predicate Decimals(s: string) {
    s == "" || (s[0] == '.' && Digits(s[1..]))
  }

  /** An e with a sign or none and digits behind it, or nothing. */
  ghost predicate Power(s: string) {
    s == "" || ((s[0] == 'e' || s[0] == 'E') && exists sign, digits :: Signed(sign) && Digits(digits) && s[1..] == sign + digits)
  }

  /** The parts of a numeric literal. */
  ghost predicate Parts(s: string, sign: string, whole: string, decimals: string, power: string) {
    Signed(sign) && Digits(whole) && Decimals(decimals) && Power(power) && s == sign + (whole + (decimals + power))
  }

  lemma DigitIff(c: char)
    ensures IsDigit(c) <==> c in "0123456789"
  {
    if IsDigit(c) { assert c == "0123456789"[c as int - 48]; }
  }

  lemma {:induction false} DigitsDropped(digits: string, rest: string)
    requires Digits(digits) && (rest == "" || rest[0] !in "0123456789")
    ensures DropDigits(digits + rest) == rest && StartsWithDigit(digits + rest)
  {
    var s := digits + rest;
    DigitIff(digits[0]);
    assert s[0] == digits[0] && s[1..] == digits[1..] + rest;
    if |digits| > 1 {
      DigitsDropped(digits[1..], rest);
    } else {
      assert s[1..] == rest;
      if rest != "" { DigitIff(rest[0]); }
    }
  }

  lemma {:induction false} DigitsFound(s: string) returns (digits: string)
    requires StartsWithDigit(s)
    ensures Digits(digits) && s == digits + DropDigits(s) && (DropDigits(s) == "" || DropDigits(s)[0] !in "0123456789")
  {
    DigitIff(s[0]);
    if StartsWithDigit(s[1..]) {
      var more := DigitsFound(s[1..]);
      digits := [s[0]] + more;
      assert s == [s[0]] + s[1..];
    } else {
      digits := [s[0]];
      if |s| > 1 { DigitIff(s[1]); }
      assert DropDigits(s) == s[1..];
    }
  }

  lemma SignDropped(sign: string, rest: string)
    requires Signed(sign) && rest != "" && rest[0] in "0123456789"
    ensures DropSign(sign + rest) == rest
  {
    DigitIff(rest[0]);
    if sign == "" { assert sign + rest == rest; } else { assert (sign + rest)[1..] == rest; }
  }

  lemma SignFound(s: string) returns (sign: string)
    ensures Signed(sign) && s == sign + DropSign(s)
  {
    sign := if s != "" && IsSign(s[0]) then [s[0]] else "";
  }

  lemma PowerIff(s: string)
    ensures Exponent(s) <==> Power(s)
  {
    if Exponent(s) && s != "" {
      var sign := SignFound(s[1..]);
      var digits := DigitsFound(DropSign(s[1..]));
      assert DropSign(s[1..]) == digits + "" == digits;
    }
    if Power(s) && s != "" {
      var sign, digits :| Signed(sign) && Digits(digits) && s[1..] == sign + digits;
      assert digits[0] in digits;
      SignDropped(sign, digits);
      DigitsDropped(digits, "");
      assert digits + "" == digits;
    }
  }

  lemma PartsLiteral(s: string, sign: string, whole: string, decimals: string, power: string)
    requires Parts(s, sign, whole, decimals, power)
    ensures NumericLiteral(s)
  {
    var rest := decimals + power;
    assert whole[0] in whole && (whole + rest)[0] == whole[0];
    SignDropped(sign, whole + rest);
    DigitsDropped(whole, rest);
    PowerIff(power);
    if decimals == "" {
      assert rest == power;
    } else {
      DigitsDropped(decimals[1..], power);
      assert rest[1..] == decimals[1..] + power && rest[0] == '.';
    }
  }

  lemma LiteralParts(s: string)
    requires NumericLiteral(s)
    ensures exists sign, whole, decimals, power :: Parts(s, sign, whole, decimals, power)
  {
    hide Exponent, Power;
    var sign := SignFound(s);
    var whole := DigitsFound(DropSign(s));
    var rest := DropDigits(DropSign(s));
    PowerIff(rest);
    if rest != "" && rest[0] == '.' {
      var digits := DigitsFound(rest[1..]);
      var power := DropDigits(rest[1..]);
      PowerIff(power);
      assert ("." + digits)[1..] == digits;
      assert rest == "." + digits + power;
      assert Parts(s, sign, whole, "." + digits, power);
    } else {
      assert rest == "" + rest;
      assert Parts(s, sign, whole, "", rest);
    }
  }

  /** The form of a numeric literal: sign, digits, decimals, power of ten; all but the digits may be missing. */
  lemma LiteralMeans(s: string)
    ensures NumericLiteral(s) <==> exists sign, whole, decimals, power :: Parts(s, sign, whole, decimals, power)
  {
    hide NumericLiteral, Parts;
    if NumericLiteral(s) { LiteralParts(s); }
    if sign, whole, decimals, power :| Parts(s, sign, whole, decimals, power) { PartsLiteral(s, sign, whole, decimals, power); }
  }

  /** What strconv.FormatFloat writes for the values that have no digits. */
  function WithoutDigits(x: Double): string
    requires !x.Finite?
  {
    match x
    case Infinite(positive) => if positive then "+Inf" else "-Inf"
    case NaN => "NaN"
  }

  lemma NoLiteral(x: Double)
    requires !x.Finite?
    ensures !NumericLiteral(WithoutDigits(x)) && WithoutDigits(x) != "" && '\'' !in WithoutDigits(x)
  {
  }
}
