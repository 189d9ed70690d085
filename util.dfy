/** Small shared vocabulary: optional values, results carrying the Java exception
    a step would throw, 32-bit integer bounds, and decimal rendering and parsing
    of integers (Integer.toString / String.format("%d") and Integer.parseInt). */
module Util {

  /** Some element of a set that is not empty: the next element a loop over
      a hash set visits, in an order the model leaves open. */
  method Pick<T>(s: set<T>) returns (x: T)
    requires s != {}
    ensures x in s
  {
    x :| x in s;
  }

  /** A loop over a set takes the element `x` out of the ones still to visit,
      `rest`, and adds it to the visited ones, `done`. */
  lemma Take<T>(all: set<T>, rest: set<T>, done: set<T>, x: T)
    requires done == all - rest && rest <= all && x in rest
    ensures done + {x} == all - (rest - {x}) && rest - {x} <= all
  {
  }

  datatype Option<+T> = None | Some(value: T)

  /** The Java exceptions (and failed `assert` statements) the modelled code can raise. */
  datatype Error =
    | EmptyStack        // java.util.EmptyStackException from Stack.pop/peek
    | NullValue         // NullPointerException from unboxing a missing map entry
    | NumberFormat      // NumberFormatException from Integer.parseInt
    | IndexOutOfBounds  // IndexOutOfBoundsException from List.get
    | AssertionFailed   // a Java `assert` statement that does not hold
    | UnsupportedToken  // IllegalArgumentException from the set builder

  datatype Result<+T> = Ok(value: T) | Err(error: Error) {
    predicate IsFailure() { Err? }
    function PropagateFailure<U>(): Result<U> requires Err? { Err(error) }
    function Extract(): T requires Ok? { value }
  }

  const Int32Min: int := -0x8000_0000
  const Int32Max: int := 0x7fff_ffff

  predicate InInt32(x: int) { Int32Min <= x <= Int32Max }

  /** Java `int` arithmetic: the result reduced into the 32-bit two's-complement range. */
  function Wrap32(x: int): (r: int)
    ensures InInt32(r)
    ensures InInt32(x) ==> r == x
  {
    (x - Int32Min) % 0x1_0000_0000 + Int32Min
  }

  function Last<T>(s: seq<T>): T
    requires |s| > 0
  {
    s[|s| - 1]
  }

  // ---------------------------------------------------------------------------
  // Decimal rendering and parsing

  predicate IsDigit(c: char) { '0' <= c <= '9' }

  predicate AllDigits(s: string) { forall i :: 0 <= i < |s| ==> IsDigit(s[i]) }

  /** AllDigits, checked character by character. */
  predicate DigitsOnly(s: string)
    decreases |s|
  {
    |s| == 0 || (IsDigit(s[0]) && DigitsOnly(s[1..]))
  }

  lemma {:induction false} DigitsOnlyMeaning(s: string)
    ensures DigitsOnly(s) <==> AllDigits(s)
    decreases |s|
  {
    if |s| > 0 {
      DigitsOnlyMeaning(s[1..]);
      assert forall i :: 1 <= i < |s| ==> s[i] == s[1..][i - 1];
    }
  }

  function DigitChar(d: nat): (c: char)
    requires d < 10
    ensures IsDigit(c) && c as int - '0' as int == d
  {
    (d + '0' as int) as char
  }

  /** The decimal digits of n, most significant first, without leading zeros. */
  function NatToString(n: nat): (s: string)
    ensures |s| >= 1 && AllDigits(s)
    ensures |s| > 1 ==> s[0] != '0'
    decreases n
  {
    if n < 10 then [DigitChar(n)] else NatToString(n / 10) + [DigitChar(n % 10)]
  }

  /** Integer.toString: a minus sign for negative numbers, then the digits. */
  function IntToString(i: int): string
  {
    if i < 0 then "-" + NatToString(-i) else NatToString(i)
  }

  /** Integer.toString only produces digits and a leading minus sign. */
  lemma IntToStringChars(i: int)
    ensures |IntToString(i)| >= 1
    ensures forall k :: 0 <= k < |IntToString(i)| ==> IsDigit(IntToString(i)[k]) || (k == 0 && IntToString(i)[k] == '-')
  {
  }

  /** The value of a string of decimal digits. */
  function DigitsValue(s: string): nat
    requires AllDigits(s)
    decreases |s|
  {
    if |s| == 0 then 0
    else DigitsValue(s[..|s| - 1]) * 10 + (s[|s| - 1] as int - '0' as int)
  }

  /** Integer.parseInt: an optional sign, at least one digit, and a value that
      fits in 32 bits; anything else is a NumberFormatException. */
  function ParseInt(s: string): (r: Result<int>)
    ensures r.Ok? ==> InInt32(r.value)
    ensures r.Ok? ==> |s| >= 1 && DigitsOnly(if s[0] == '-' || s[0] == '+' then s[1..] else s)
  {
    if |s| == 0 then Err(NumberFormat)
    else
      var signed := s[0] == '-' || s[0] == '+';
      var digits := if signed then s[1..] else s;
      if |digits| == 0 || !DigitsOnly(digits) then Err(NumberFormat)
      else
        DigitsOnlyMeaning(digits);
        var v: int := if s[0] == '-' then -(DigitsValue(digits) as int) else DigitsValue(digits);
        if InInt32(v) then Ok(v) else Err(NumberFormat)
  }

  lemma {:induction false} DigitsValueOfNatToString(n: nat)
    ensures DigitsValue(NatToString(n)) == n
    decreases n
  {
    var s := NatToString(n);
    if n >= 10 {
      DigitsValueOfNatToString(n / 10);
      assert s[..|s| - 1] == NatToString(n / 10);
    }
  }

  /** Rendering a 32-bit integer and parsing it back gives the same integer. */
  lemma ParseIntOfIntToString(i: int)
    requires InInt32(i)
    ensures ParseInt(IntToString(i)) == Ok(i)
  {
    var s := IntToString(i);
    if i < 0 {
      var t := NatToString(-i);
      assert s == "-" + t && s[0] == '-' && s[1..] == t;
      DigitsOnlyMeaning(t);
      DigitsValueOfNatToString(-i);
    } else {
      var t := NatToString(i);
      assert s == t && IsDigit(s[0]);
      DigitsOnlyMeaning(t);
      DigitsValueOfNatToString(i);
    }
  }
}
