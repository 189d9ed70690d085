/** The text side of the approximate analysis (mightBeAmbiguous): the
    counters of a regex are the matches of the pattern
    `\{(\d+|\d+,\d+|\d+,)}`; each occurrence of a counter gives one
    approximate regex, in which every other counter is replaced by `*`. */
module Approximations {
  import opened Util

  // ---------------------------------------------------------------------------
  // getIndices

  /** s.substring(i).startsWith(p). */
  predicate StartsAt(s: string, p: string, i: int)
    requires 0 <= i <= |s|
  {
    p <= s[i..]
  }

  /** The indices below `n` at which `p` starts in `s`, ascending. */
  function Occurrences(s: string, p: string, n: int): seq<int>
    requires 0 <= n <= |s|
    decreases n
  {
    if n == 0 then [] else Occurrences(s, p, n - 1) + (if StartsAt(s, p, n - 1) then [n - 1] else [])
  }

  /** getIndices: every index of `s` at which `p` starts. */
  method GetIndices(s: string, p: string) returns (indices: seq<int>)
    ensures indices == Occurrences(s, p, |s|)
  {
    indices := [];
    for i := 0 to |s|
      invariant indices == Occurrences(s, p, i)
    {
      if p <= s[i..] {
        indices := indices + [i];
      }
    }
  }

  /** Where `p` does not start, no occurrence is added. */
  lemma {:induction false} NoOccurrences(s: string, p: string, m: int, n: int)
    requires 0 <= m <= n <= |s|
    requires forall i :: m <= i < n ==> !StartsAt(s, p, i)
    ensures Occurrences(s, p, n) == Occurrences(s, p, m)
    decreases n
  {
    if m < n {
      NoOccurrences(s, p, m, n - 1);
    }
  }

  /** The occurrences are ascending, and they are exactly the indices below
      `n` at which `p` starts. */
  lemma {:induction false} OccurrencesMeaning(s: string, p: string, n: int)
    requires 0 <= n <= |s|
    ensures forall j, k :: 0 <= j < k < |Occurrences(s, p, n)| ==> Occurrences(s, p, n)[j] < Occurrences(s, p, n)[k]
    ensures forall i :: i in Occurrences(s, p, n) <==> 0 <= i < n && StartsAt(s, p, i)
    decreases n
  {
    if n > 0 {
      OccurrencesMeaning(s, p, n - 1);
      var o := Occurrences(s, p, n - 1);
      forall j | 0 <= j < |o|
        ensures o[j] < n - 1
      {
        assert o[j] in o;
      }
    }
  }

  // ---------------------------------------------------------------------------
  // The counter pattern

  /** The end of the run of digits (what `\d` matches: 0 to 9) from `j`. */
  function DigitsEnd(s: string, j: int): (e: int)
    requires 0 <= j <= |s|
    ensures j <= e <= |s|
    ensures forall k :: j <= k < e ==> IsDigit(s[k])
    ensures e < |s| ==> !IsDigit(s[e])
    decreases |s| - j
  {
    if j < |s| && IsDigit(s[j]) then DigitsEnd(s, j + 1) else j
  }

  /** The length of the match of `\{(\d+|\d+,\d+|\d+,)}` that starts at `i`,
      or 0 if none does: a brace, one or more digits, then either the closing
      brace or a comma, any digits and the closing brace. */
  function CounterLength(s: string, i: int): (n: nat)
    requires 0 <= i <= |s|
    ensures n > 0 ==> i + n <= |s| && n >= 3 && s[i] == '{' && s[i + n - 1] == '}'
    ensures n > 0 ==> forall k :: i < k < i + n ==> s[k] != '{'
  {
    if i < |s| && s[i] == '{' then
      var e1 := DigitsEnd(s, i + 1);
      if e1 == i + 1 || e1 == |s| then 0
      else if s[e1] == '}' then e1 + 1 - i
      else if s[e1] == ',' then
        var e2 := DigitsEnd(s, e1 + 1);
        if e2 < |s| && s[e2] == '}' then e2 + 1 - i else 0
      else 0
    else 0
  }

  /** The counters found from `pos` on: the text of each match. Matches do
      not overlap (only their first character is a brace), so every match
      the scan could find is one that starts somewhere. */
  function CountersBelow(s: string, pos: int): set<string>
    requires 0 <= pos <= |s|
  {
    set i | 0 <= i < pos && CounterLength(s, i) > 0 :: s[i..i + CounterLength(s, i)]
  }

  /** The set of counters of a regex. */
  function CounterSet(s: string): set<string> {
    CountersBelow(s, |s|)
  }

  /** The loop `while (matcher.find()) counters.add(matcher.group())`: the
      scan resumes after each match. */
  method FindCounters(s: string) returns (counters: set<string>)
    ensures counters == CounterSet(s)
  {
    counters := {};
    var pos := 0;
    while pos < |s|
      invariant 0 <= pos <= |s|
      invariant counters == CountersBelow(s, pos)
      decreases |s| - pos
    {
      var n := CounterLength(s, pos);
      if n > 0 {
        SkipMatch(s, pos, n);
        counters := counters + {s[pos..pos + n]};
        pos := pos + n;
      } else {
        SkipChar(s, pos);
        pos := pos + 1;
      }
    }
  }

  lemma SkipChar(s: string, pos: int)
    requires 0 <= pos < |s| && CounterLength(s, pos) == 0
    ensures CountersBelow(s, pos + 1) == CountersBelow(s, pos)
  {
  }

  /** Positions at which no match starts add nothing. */
  lemma {:induction false} SkipChars(s: string, a: int, b: int)
    requires 0 <= a <= b <= |s|
    requires forall i :: a <= i < b ==> CounterLength(s, i) == 0
    ensures CountersBelow(s, b) == CountersBelow(s, a)
    decreases b - a
  {
    if a < b {
      SkipChar(s, a);
      SkipChars(s, a + 1, b);
    }
  }

  /** Jumping over a match passes no other match. */
  lemma SkipMatch(s: string, pos: int, n: int)
    requires 0 <= pos < |s| && n == CounterLength(s, pos) > 0
    ensures pos + n <= |s| && CountersBelow(s, pos + n) == CountersBelow(s, pos) + {s[pos..pos + n]}
  {
    assert CountersBelow(s, pos + 1) == CountersBelow(s, pos) + {s[pos..pos + n]};
    forall i | pos + 1 <= i < pos + n
      ensures CounterLength(s, i) == 0
    {
      assert s[i] != '{';
    }
    SkipChars(s, pos + 1, pos + n);
  }

  // ---------------------------------------------------------------------------
  // replaceAll

  /** s.replaceAll(COUNTER_MATCHING_REGEX, "*") from `i` on: each match
      becomes a star, every other character stays. */
  function StarredFrom(s: string, i: int): string
    requires 0 <= i <= |s|
    decreases |s| - i
  {
    if i == |s| then ""
    else if CounterLength(s, i) > 0 then "*" + StarredFrom(s, i + CounterLength(s, i))
    else [s[i]] + StarredFrom(s, i + 1)
  }

  function Starred(s: string): string {
    StarredFrom(s, 0)
  }

  /** A text with no match is left as it is. */
  lemma {:induction false} NoCounterUnchanged(s: string, i: int)
    requires 0 <= i <= |s|
    requires forall k :: i <= k < |s| ==> CounterLength(s, k) == 0
    ensures StarredFrom(s, i) == s[i..]
    decreases |s| - i
  {
    if i < |s| {
      NoCounterUnchanged(s, i + 1);
      assert s[i..] == [s[i]] + s[i + 1..];
    }
  }

  /** A digit run inside a prefix is the run of the whole text, cut at the
      prefix's end. */
  lemma {:induction false} DigitsEndPrefix(s: string, m: int, j: int)
    requires 0 <= j <= m <= |s|
    ensures DigitsEnd(s[..m], j) == if DigitsEnd(s, j) <= m then DigitsEnd(s, j) else m
    decreases m - j
  {
    if j < m && IsDigit(s[j]) {
      DigitsEndPrefix(s, m, j + 1);
    }
  }

  /** A digit run inside a suffix is the run of the whole text. */
  lemma {:induction false} DigitsEndSuffix(s: string, d: int, j: int)
    requires 0 <= d <= |s| && 0 <= j <= |s| - d
    ensures DigitsEnd(s[d..], j) == DigitsEnd(s, d + j) - d
    decreases |s| - d - j
  {
    if j < |s| - d && IsDigit(s[d + j]) {
      DigitsEndSuffix(s, d, j + 1);
    }
  }

  /** A match inside a prefix is a match of the whole text. */
  lemma CounterInPrefix(s: string, m: int, k: int)
    requires 0 <= k <= m <= |s| && CounterLength(s[..m], k) > 0
    ensures CounterLength(s, k) == CounterLength(s[..m], k)
  {
    var t := s[..m];
    DigitsEndPrefix(s, m, k + 1);
    var e1 := DigitsEnd(t, k + 1);
    if t[e1] == ',' {
      DigitsEndPrefix(s, m, e1 + 1);
    }
  }

  /** A match inside a suffix is a match of the whole text. */
  lemma CounterInSuffix(s: string, d: int, k: int)
    requires 0 <= d <= |s| && 0 <= k <= |s| - d
    ensures CounterLength(s[d..], k) == CounterLength(s, d + k)
  {
    var t := s[d..];
    if k < |t| && t[k] == '{' {
      DigitsEndSuffix(s, d, k + 1);
      var e1 := DigitsEnd(t, k + 1);
      if e1 < |t| && t[e1] == ',' {
        DigitsEndSuffix(s, d, e1 + 1);
      }
    }
  }

  // ---------------------------------------------------------------------------
  // The approximate regexes

  /** The approximate regex of the occurrence of `counter` at `index`: the
      counters before and after it starred. */
  function Approximation(regex: string, counter: string, index: int): string
    requires 0 <= index && index + |counter| <= |regex|
  {
    Starred(regex[..index]) + counter + Starred(regex[index + |counter|..])
  }

  /** The occurrences checked for the counters `cs`: each counter with each
      index it starts at. */
  function ChecksOf(regex: string, cs: set<string>): set<(string, int)> {
    set c, i | c in cs && i in Occurrences(regex, c, |regex|) :: (c, i)
  }

  /** Every occurrence of every counter of the regex. */
  function Checks(regex: string): set<(string, int)> {
    ChecksOf(regex, CounterSet(regex))
  }

  lemma CheckFits(regex: string, c: string, i: int)
    requires i in Occurrences(regex, c, |regex|)
    ensures 0 <= i < |regex| && i + |c| <= |regex| && regex[i..i + |c|] == c
  {
    assert 0 <= i < |regex| && StartsAt(regex, c, i) by { OccurrencesMeaning(regex, c, |regex|); }
    PrefixOfSuffix(regex, c, i);
  }

  lemma PrefixOfSuffix(s: string, p: string, i: int)
    requires 0 <= i <= |s| && p <= s[i..]
    ensures i + |p| <= |s| && s[i..i + |p|] == p
  {
    assert forall k :: 0 <= k < |p| ==> s[i..][k] == s[i + k];
  }

  /** The approximate regex of the occurrence of `c` at `i` is one the exact
      analysis finds ambiguous. */
  ghost predicate ExactAt(regex: string, exact: string -> bool, c: string, i: int) {
    0 <= i && i + |c| <= |regex| && exact(Approximation(regex, c, i))
  }

  /** Some approximate regex is exactly ambiguous. */
  ghost predicate SomeExact(regex: string, exact: string -> bool) {
    exists c, i :: (c, i) in Checks(regex) && ExactAt(regex, exact, c, i)
  }

  /** The verdict of mightBeAmbiguous: some approximate regex is exactly
      ambiguous, or more than one was checked. */
  ghost predicate Verdict(regex: string, exact: string -> bool) {
    SomeExact(regex, exact) || |Checks(regex)| > 1
  }

  /** No approximate regex of the counters `cs` is exactly ambiguous. */
  ghost predicate NoneExactIn(regex: string, exact: string -> bool, cs: set<string>) {
    forall c, i :: (c, i) in ChecksOf(regex, cs) ==> !ExactAt(regex, exact, c, i)
  }

  /** An exactly ambiguous approximate regex settles the verdict. */
  lemma FoundExact(regex: string, exact: string -> bool, c: string)
    requires c in CounterSet(regex)
    requires exists i :: i in Occurrences(regex, c, |regex|) && ExactAt(regex, exact, c, i)
    ensures Verdict(regex, exact)
  {
    var i :| i in Occurrences(regex, c, |regex|) && ExactAt(regex, exact, c, i);
    assert (c, i) in Checks(regex);
  }

  /** The exact analysis as the program runs it: `Ok(b)` when glushkov, the
      NFA and the product finish and isAmbiguous answers b, `Err` when one of
      them throws. It counts an approximate regex as ambiguous exactly when it
      finishes with true. */
  function FindsAmbiguous(analyse: string -> Result<bool>): string -> bool {
    s => analyse(s) == Ok(true)
  }

  /** The analysis of the approximate regex of the occurrence of `c` at `i`
      throws. */
  ghost predicate FailsAt(regex: string, analyse: string -> Result<bool>, c: string, i: int) {
    0 <= i && i + |c| <= |regex| && analyse(Approximation(regex, c, i)).Err?
  }

  /** The analysis of some approximate regex throws. */
  ghost predicate SomeFails(regex: string, analyse: string -> Result<bool>) {
    exists c, i :: (c, i) in Checks(regex) && FailsAt(regex, analyse, c, i)
  }

  /** A throwing analysis of one of a counter's approximate regexes is one of
      the regex's. */
  lemma FoundFailure(regex: string, analyse: string -> Result<bool>, c: string)
    requires c in CounterSet(regex)
    requires exists i :: i in Occurrences(regex, c, |regex|) && FailsAt(regex, analyse, c, i)
    ensures SomeFails(regex, analyse)
  {
    var i :| i in Occurrences(regex, c, |regex|) && FailsAt(regex, analyse, c, i);
    assert (c, i) in Checks(regex);
  }

  /** With no exactly ambiguous approximate regex, the verdict is whether
      more than one was checked. */
  lemma NoneExact(regex: string, exact: string -> bool)
    requires NoneExactIn(regex, exact, CounterSet(regex))
    ensures Verdict(regex, exact) <==> |Checks(regex)| > 1
  {
  }

  /** One more counter none of whose approximate regexes is exactly
      ambiguous. */
  lemma NoneExactAdd(regex: string, exact: string -> bool, cs: set<string>, c: string)
    requires c !in cs && NoneExactIn(regex, exact, cs)
    requires !exists i :: i in Occurrences(regex, c, |regex|) && ExactAt(regex, exact, c, i)
    ensures NoneExactIn(regex, exact, cs + {c})
    ensures |ChecksOf(regex, cs + {c})| == |ChecksOf(regex, cs)| + |Occurrences(regex, c, |regex|)|
  {
    ChecksAdd(regex, cs, c);
  }

  /** The checks of one counter are as many as its occurrences. */
  lemma {:induction false} TaggedCount(c: string, xs: seq<int>)
    requires forall j, k :: 0 <= j < k < |xs| ==> xs[j] < xs[k]
    ensures |set i | i in xs :: (c, i)| == |xs|
    decreases |xs|
  {
    if xs != [] {
      var init := xs[..|xs| - 1];
      var last := xs[|xs| - 1];
      TaggedCount(c, init);
      assert (set i | i in xs :: (c, i)) == (set i | i in init :: (c, i)) + {(c, last)};
      assert (c, last) !in (set i | i in init :: (c, i));
    }
  }

  /** Checking one more counter adds its occurrences. */
  lemma ChecksAdd(regex: string, cs: set<string>, c: string)
    requires c !in cs
    ensures ChecksOf(regex, cs + {c}) == ChecksOf(regex, cs) + set i | i in Occurrences(regex, c, |regex|) :: (c, i)
    ensures |ChecksOf(regex, cs + {c})| == |ChecksOf(regex, cs)| + |Occurrences(regex, c, |regex|)|
  {
    var xs := Occurrences(regex, c, |regex|);
    var tagged := set i | i in xs :: (c, i);
    assert ChecksOf(regex, cs + {c}) == ChecksOf(regex, cs) + tagged;
    assert ChecksOf(regex, cs) !! tagged;
    OccurrencesMeaning(regex, c, |regex|);
    TaggedCount(c, xs);
  }

  // ---------------------------------------------------------------------------
  // Soundness of the approximation

  /** A counter of the regex is checked at the index where it is found. */
  lemma CounterChecked(regex: string, c: string) returns (i: int)
    requires c in CounterSet(regex)
    ensures (c, i) in Checks(regex) && i in Occurrences(regex, c, |regex|)
  {
    i :| 0 <= i < |regex| && CounterLength(regex, i) > 0 && regex[i..i + CounterLength(regex, i)] == c;
    OccurrencesMeaning(regex, c, |regex|);
    assert StartsAt(regex, c, i);
  }

  /** The only check of a regex with a single counter occurrence is the
      regex itself. */
  lemma SingleCheck(regex: string, c: string, i0: int)
    requires Checks(regex) == {(c, i0)} && i0 in Occurrences(regex, c, |regex|)
    ensures 0 <= i0 && i0 + |c| <= |regex| && Approximation(regex, c, i0) == regex
  {
    CheckFits(regex, c, i0);
    var pref := regex[..i0];
    var d := i0 + |c|;
    var suff := regex[d..];
    assert StarredFrom(pref, 0) == pref by {
      NoMatchBefore(regex, c, i0);
      NoCounterUnchanged(pref, 0);
      assert pref[0..] == pref;
    }
    assert StarredFrom(suff, 0) == suff by {
      NoMatchAfter(regex, c, i0, d);
      NoCounterUnchanged(suff, 0);
      assert suff[0..] == suff;
    }
    SplitAround(regex, i0, d);
  }

  /** With one check in all, no match starts before its index. */
  lemma NoMatchBefore(regex: string, c: string, i0: int)
    requires Checks(regex) == {(c, i0)} && 0 <= i0 <= |regex|
    ensures forall k :: 0 <= k < i0 ==> CounterLength(regex[..i0], k) == 0
  {
    forall k | 0 <= k < i0
      ensures CounterLength(regex[..i0], k) == 0
    {
      if CounterLength(regex[..i0], k) > 0 {
        CounterInPrefix(regex, i0, k);
        OtherMatch(regex, c, i0, k);
      }
    }
  }

  /** With one check in all, no match starts after its occurrence. */
  lemma NoMatchAfter(regex: string, c: string, i0: int, d: int)
    requires Checks(regex) == {(c, i0)} && 0 <= i0 < d <= |regex|
    ensures forall k :: 0 <= k < |regex| - d ==> CounterLength(regex[d..], k) == 0
  {
    forall k | 0 <= k < |regex| - d
      ensures CounterLength(regex[d..], k) == 0
    {
      CounterInSuffix(regex, d, k);
      if CounterLength(regex, d + k) > 0 {
        OtherMatch(regex, c, i0, d + k);
      }
    }
  }

  lemma SplitAround(s: string, i: int, j: int)
    requires 0 <= i <= j <= |s|
    ensures s == s[..i] + s[i..j] + s[j..]
  {
  }

  /** With one check in all, no match starts anywhere but at its index. */
  lemma OtherMatch(regex: string, c: string, i0: int, k: int)
    requires Checks(regex) == {(c, i0)}
    requires 0 <= k < |regex| && CounterLength(regex, k) > 0
    ensures k == i0
  {
    var c' := regex[k..k + CounterLength(regex, k)];
    assert c' in CounterSet(regex);
    OccurrencesMeaning(regex, c', |regex|);
    assert StartsAt(regex, c', k);
    assert (c', k) in Checks(regex);
  }

  /** The tests' claim: a regex the exact analysis finds ambiguous is never
      judged definitely unambiguous by the approximate one. */
  lemma ExactImpliesVerdict(regex: string, exact: string -> bool)
    requires CounterSet(regex) != {} && exact(regex)
    ensures Verdict(regex, exact)
  {
    var c :| c in CounterSet(regex);
    var i0 := CounterChecked(regex, c);
    if |Checks(regex)| <= 1 {
      assert Checks(regex) == {(c, i0)} by {
        var rest := Checks(regex) - {(c, i0)};
        assert Checks(regex) == rest + {(c, i0)};
        assert |Checks(regex)| == |rest| + 1;
        assert rest == {};
      }
      SingleCheck(regex, c, i0);
      CheckFits(regex, c, i0);
    }
  }
  // ---------------------------------------------------------------------------
  // The regexes of the tests

  /** A regex whose matches all have the text `c`, starting exactly at the
      indices `ks`, has the one counter `c`. */
  lemma OnlyCounter(s: string, ks: set<int>, c: string, k: int)
    requires k in ks
    requires forall i :: 0 <= i < |s| ==> (CounterLength(s, i) > 0 <==> i in ks)
    requires forall i :: i in ks ==> 0 <= i < |s| && s[i..i + CounterLength(s, i)] == c
    ensures CounterSet(s) == {c}
  {
    assert c in CounterSet(s) by {
      assert CounterLength(s, k) > 0;
    }
  }

  /** A regex whose one counter occurs once has one check. */
  lemma OneCounterOnce(regex: string, c: string, a: int)
    requires CounterSet(regex) == {c} && Occurrences(regex, c, |regex|) == [a]
    ensures Checks(regex) == {(c, a)}
  {
    ChecksAdd(regex, {}, c);
    assert {} + {c} == {c};
    assert ChecksOf(regex, {}) == {};
  }

  /** Where matches of the counter pattern start in `.*a{2}`. */
  lemma OneCounterLengths()
    ensures forall i :: 0 <= i < 6 ==> (CounterLength(".*a{2}", i) > 0 <==> i in {3})
    ensures CounterLength(".*a{2}", 3) == 3 && ".*a{2}"[3..6] == "{2}"
  {
    var s := ".*a{2}";
    forall i | 0 <= i < |s| && i != 3
      ensures CounterLength(s, i) == 0
    {
      assert s[i] != '{';
    }
    assert CounterLength(s, 3) == 3;
  }

  /** `.*a{2}` has the one counter `{2}`, found once. */
  lemma OneCounterChecks()
    ensures CounterSet(".*a{2}") == {"{2}"}
    ensures Checks(".*a{2}") == {("{2}", 3)}
  {
    var s := ".*a{2}";
    OneCounterLengths();
    OnlyCounter(s, {3}, "{2}", 3);
    assert Occurrences(s, "{2}", |s|) == [3] by {
      OneCounterStarts();
      NoOccurrences(s, "{2}", 0, 3);
      assert Occurrences(s, "{2}", 4) == [3];
      NoOccurrences(s, "{2}", 4, |s|);
    }
    OneCounterOnce(s, "{2}", 3);
  }

  /** The indices of `.*a{2}` at which `{2}` starts. */
  lemma OneCounterStarts()
    ensures forall i :: 0 <= i < 6 ==> (StartsAt(".*a{2}", "{2}", i) <==> i == 3)
  {
    var s := ".*a{2}";
    forall i | 0 <= i < |s| && i != 3
      ensures !StartsAt(s, "{2}", i)
    {
      assert s[i..][0] == s[i] != '{';
    }
    assert s[3..][..3] == "{2}";
  }

  /** The approximate regex of `.*a{2}` is itself. */
  lemma OneCounterApproximation()
    ensures Approximation(".*a{2}", "{2}", 3) == ".*a{2}"
  {
    var s := ".*a{2}";
    var p := ".*a";
    assert s[..3] == p && s[6..] == "";
    assert StarredFrom(p, 3) == "";
    assert CounterLength(p, 2) == 0 && StarredFrom(p, 2) == "a";
    assert CounterLength(p, 1) == 0 && StarredFrom(p, 1) == "*a";
    assert CounterLength(p, 0) == 0 && StarredFrom(p, 0) == ".*a";
  }

  /** On `.*a{2}` the approximate analysis agrees with the exact one: it
      says "might be ambiguous" exactly when the regex is. */
  lemma OneCounterRegex(exact: string -> bool)
    ensures Verdict(".*a{2}", exact) <==> exact(".*a{2}")
  {
    OneCounterChecks();
    OneCounterApproximation();
    assert |Checks(".*a{2}")| == 1;
    if exact(".*a{2}") {
      assert ExactAt(".*a{2}", exact, "{2}", 3);
    }
  }

  /** `.*(ab{3}|cd{3})` has the one counter `{3}`. */
  lemma TwoOccurrenceCounters()
    ensures CounterSet(".*(ab{3}|cd{3})") == {"{3}"}
  {
    var s := ".*(ab{3}|cd{3})";
    TwoOccurrenceLengths();
    OnlyCounter(s, {5, 11}, "{3}", 5);
  }

  /** Where matches of the counter pattern start in `.*(ab{3}|cd{3})`. */
  lemma TwoOccurrenceLengths()
    ensures forall i :: 0 <= i < 15 ==> (CounterLength(".*(ab{3}|cd{3})", i) > 0 <==> i in {5, 11})
    ensures CounterLength(".*(ab{3}|cd{3})", 5) == 3 && ".*(ab{3}|cd{3})"[5..8] == "{3}"
    ensures CounterLength(".*(ab{3}|cd{3})", 11) == 3 && ".*(ab{3}|cd{3})"[11..14] == "{3}"
  {
    var s := ".*(ab{3}|cd{3})";
    forall i | 0 <= i < |s| && i != 5 && i != 11
      ensures CounterLength(s, i) == 0
    {
      assert s[i] != '{';
    }
    assert CounterLength(s, 5) == 3 && CounterLength(s, 11) == 3;
  }

  /** `{3}` starts at indices 5 and 11 of `.*(ab{3}|cd{3})`. */
  lemma TwoOccurrenceIndices()
    ensures Occurrences(".*(ab{3}|cd{3})", "{3}", 15) == [5, 11]
  {
    var s := ".*(ab{3}|cd{3})";
    var p := "{3}";
    TwoOccurrenceStarts();
    NoOccurrences(s, p, 0, 5);
    assert Occurrences(s, p, 6) == [5];
    NoOccurrences(s, p, 6, 11);
    assert Occurrences(s, p, 12) == [5, 11];
    NoOccurrences(s, p, 12, |s|);
  }

  /** The indices of `.*(ab{3}|cd{3})` at which `{3}` starts. */
  lemma TwoOccurrenceStarts()
    ensures forall i :: 0 <= i < 15 ==> (StartsAt(".*(ab{3}|cd{3})", "{3}", i) <==> i == 5 || i == 11)
  {
    var s := ".*(ab{3}|cd{3})";
    forall i | 0 <= i < |s| && i != 5 && i != 11
      ensures !StartsAt(s, "{3}", i)
    {
      assert s[i..][0] == s[i] != '{';
    }
    assert s[5..][..3] == "{3}" && s[11..][..3] == "{3}";
  }

  /** So two approximate regexes are checked. */
  lemma TwoOccurrenceChecks()
    ensures Checks(".*(ab{3}|cd{3})") == {("{3}", 5), ("{3}", 11)}
  {
    TwoOccurrenceCounters();
    TwoOccurrenceIndices();
    OneCounterTwice(".*(ab{3}|cd{3})", "{3}", 5, 11);
  }

  /** A regex whose one counter occurs twice has two checks. */
  lemma OneCounterTwice(regex: string, c: string, a: int, b: int)
    requires CounterSet(regex) == {c} && Occurrences(regex, c, |regex|) == [a, b]
    ensures Checks(regex) == {(c, a), (c, b)}
  {
    ChecksAdd(regex, {}, c);
    assert {} + {c} == {c};
    assert ChecksOf(regex, {}) == {};
  }

  /** On `.*(ab{3}|cd{3})` two approximate regexes are checked, so the
      approximate analysis says "might be ambiguous" whatever the exact one
      finds. */
  lemma TwoOccurrenceRegex(exact: string -> bool)
    ensures Verdict(".*(ab{3}|cd{3})", exact)
  {
    TwoOccurrenceChecks();
    assert |Checks(".*(ab{3}|cd{3})")| == 2;
  }
}
