/** Counter ranges: the `[lowerBound, upperBound]` bound of a `{m,n}` repetition,
    identified by the counter id drawn from the scanner's counter-id sequence. */
module Counters {
  import opened Util

  /** `lowerBound` may be relaxed to 0 by the set builder (the builder keeps the
      current value in a table keyed by `id`); `upperBound` and `id` never change. */
  datatype CounterRange = CounterRange(lowerBound: int, upperBound: int, id: int) {

    /** isOutOfRange: the count lies outside the closed interval. */
    predicate IsOutOfRange(count: int) {
      lowerBound > count || count > upperBound
    }

    /** isBelowUpperBound: one more iteration is still allowed. */
    predicate IsBelowUpperBound(count: int) {
      count < upperBound
    }
  }

  /** CounterRange.equals compares ids only. */
  predicate SameCounter(a: CounterRange, b: CounterRange) {
    a.id == b.id
  }

  /** The `{l}` / `{l, u}` part of CounterRange.toString. */
  function RangeText(r: CounterRange): (s: string)
    ensures |s| >= 3 && s[0] == '{' && s[|s| - 1] == '}'
    ensures (r.lowerBound == r.upperBound) == (',' !in s)
  {
    var l := IntToString(r.lowerBound);
    if r.lowerBound == r.upperBound then
      assert ',' !in "{" + l + "}" by { NoCommaInIntText(r.lowerBound); }
      "{" + l + "}"
    else
      var s := "{" + l + ", " + IntToString(r.upperBound) + "}";
      assert s[|l| + 1] == ',';
      s
  }

  lemma NoCommaInIntText(i: int)
    ensures ',' !in "{" + IntToString(i) + "}"
  {
    IntToStringChars(i);
  }
}
