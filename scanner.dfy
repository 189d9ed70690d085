/** The regex scanner: reads a normalised regex character by character and hands out
    one token per call. Positions (characters, `[...]` classes, `.`, `\x` classes)
    are numbered 1, 2, 3, ... in scan order; `*`, `+` and `{...}` draw from a second,
    shared counter-id sequence. */
module Scanner {
  import opened Util
  import opened Counters
  import opened Tokens

  /** Character.MIN_VALUE: what nextChar hands out past the end of the input. */
  const Sentinel: char := 0 as char

  /** The escapes that denote a predefined character class. */
  const PredefinedClasses: string := "dDsSvVwW"

  /** The scanner's mutable state apart from the input: read position, next
      position id and next counter id. */
  datatype ScanState = ScanState(pos: nat, id: int, counterId: int)

  const InitialState: ScanState := ScanState(0, 1, 1)

  /** The character nextChar reads at `pos`: the sentinel past the end. */
  function CharAt(s: string, pos: nat): char {
    if pos < |s| then s[pos] else Sentinel
  }

  /** The position after a nextChar call at `pos`: it never moves beyond the end. */
  function Advance(s: string, pos: nat): (p: nat)
    requires pos <= |s|
    ensures p <= |s| && (p == pos + 1 || (p == pos && pos == |s|))
  {
    if pos < |s| then pos + 1 else pos
  }

  /** The index of the first `c` at or after `from`; the class and counter loops
      read up to and including it. */
  function FirstFrom(s: string, from: nat, c: char): (r: Option<nat>)
    requires from <= |s|
    ensures r.Some? ==> from <= r.value < |s| && s[r.value] == c
    ensures r.Some? ==> forall j :: from <= j < r.value ==> s[j] != c
    ensures r.None? ==> forall j :: from <= j < |s| ==> s[j] != c
    decreases |s| - from
  {
    if from == |s| then None
    else if s[from] == c then Some(from)
    else FirstFrom(s, from + 1, c)
  }

  /** The first index of `c` in `s` (String.indexOf), which must occur. */
  function IndexOf(s: string, c: char): (k: nat)
    requires c in s
    ensures k < |s| && s[k] == c && forall j :: 0 <= j < k ==> s[j] != c
  {
    FirstFrom(s, 0, c).value
  }

  /** The bounds scanCounter reads from the text `{...}`: with a comma, the lower
      bound before it and the upper bound after it (-1 when empty); without one,
      the same number for both. Integer.parseInt errors pass through. */
  function ParseCounter(text: string): (r: Result<(int, int)>)
    requires |text| >= 2 && text[0] == '{' && text[|text| - 1] == '}'
    requires '}' !in text[..|text| - 1]
    ensures r.Ok? ==> InInt32(r.value.0) && (r.value.1 == -1 || InInt32(r.value.1))
    ensures r.Ok? && ',' !in text ==> r.value.1 == r.value.0
  {
    if ',' in text then
      var comma := IndexOf(text, ',');
      var close := IndexOf(text, '}');
      assert close == |text| - 1;
      var lower :- ParseInt(text[1..comma]);
      var upperText := text[comma + 1..close];
      if upperText == "" then Ok((lower, -1))
      else
        var upper :- ParseInt(upperText);
        Ok((lower, upper))
    else
      var lower :- ParseInt(text[1..|text| - 1]);
      Ok((lower, lower))
  }

  /** What one getToken call does. `Diverges` is a `[` or `{` with no closing `]`
      or `}` later in the input: the source's loop then appends the sentinel to its
      buffer on every pass and never returns normally (the buffer grows until memory
      runs out). The model idealises that end as a call that does not return. */
  datatype Scan =
    | End(after: ScanState)
    | Next(token: Token, after: ScanState)
    | Failed(error: Error)
    | Diverges

  predicate IsQuantifier(t: Token) { t.kind == Star || t.kind == Plus || t.kind == Counter }

  /** The id a quantifier token draws from the counter-id sequence. */
  function QuantifierId(t: Token): int
    requires IsQuantifier(t)
  {
    if t.kind == Counter && t.range.Some? then t.range.value.id else t.id
  }

  /** The kinds the scanner produces, and how each kind draws its ids. */
  predicate NumberedAs(t: Token, st: ScanState, after: ScanState) {
    && t.kind !in {Concat, StartToken}
    && (t.IsPosition() ==> t.id == st.id && t.range.None?)
    && (t.kind in {Star, Plus} ==> t.id == st.counterId && t.range.None?)
    && (t.kind == Counter ==> t.id == -1 && t.range.Some? && t.range.value.id == st.counterId)
    && (t.kind in {LPar, RPar, Bar} ==> t.id == -1 && t.range.None?)
    && after.id == st.id + (if t.IsPosition() then 1 else 0)
    && after.counterId == st.counterId + (if IsQuantifier(t) then 1 else 0)
  }

  /** getToken, as a function of the input and the scanner state. */
  function ScanToken(s: string, st: ScanState): (r: Scan)
    requires st.pos <= |s|
    ensures r.End? <==> CharAt(s, st.pos) == Sentinel
    ensures r.End? ==> r.after == ScanState(Advance(s, st.pos), st.id, st.counterId)
    ensures r.Next? ==> st.pos < r.after.pos <= |s| && NumberedAs(r.token, st, r.after)
  {
    var c := CharAt(s, st.pos);
    var p := Advance(s, st.pos);
    if c == Sentinel then End(ScanState(p, st.id, st.counterId))
    else if c == '*' then
      Next(NumberedToken([c], st.counterId, Star), ScanState(p, st.id, st.counterId + 1))
    else if c == '+' then
      Next(NumberedToken([c], st.counterId, Plus), ScanState(p, st.id, st.counterId + 1))
    else if c == '|' then Next(OperatorToken([c], Bar), st.(pos := p))
    else if c == '(' then Next(OperatorToken([c], LPar), st.(pos := p))
    else if c == ')' then Next(OperatorToken([c], RPar), st.(pos := p))
    else if c == '[' then ScanClassAt(s, p, st)
    else if c == '.' then
      Next(NumberedToken(".", st.id, CharClass), st.(pos := p, id := st.id + 1))
    else if c == '{' then ScanCounterAt(s, p, st)
    else if c == '\\' then ScanEscapeAt(s, p, st)
    else
      Next(NumberedToken([c], st.id, Char), st.(pos := p, id := st.id + 1))
  }

  /** scanCharClass, entered with the `[` already read and `p` just after it. */
  function ScanClassAt(s: string, p: nat, st: ScanState): (r: Scan)
    requires 0 < p <= |s|
    ensures r.Diverges? || r.Next?
    ensures r.Next? ==> p <= r.after.pos <= |s| && r.after == ScanState(r.after.pos, st.id + 1, st.counterId)
    ensures r.Next? ==> r.token.kind == CharClass && r.token.id == st.id && r.token.range.None?
  {
    match FirstFrom(s, p, ']')
    case None => Diverges
    case Some(k) =>
      Next(NumberedToken("[" + s[p..k + 1], st.id, CharClass), ScanState(k + 1, st.id + 1, st.counterId))
  }

  /** scanCounter, entered with the `{` already read and `p` just after it. */
  function ScanCounterAt(s: string, p: nat, st: ScanState): (r: Scan)
    requires 0 < p <= |s|
    ensures !r.End?
    ensures r.Next? ==> p <= r.after.pos <= |s| && r.after == ScanState(r.after.pos, st.id, st.counterId + 1)
    ensures r.Next? ==> r.token.kind == Counter && r.token.id == -1
                        && r.token.range.Some? && r.token.range.value.id == st.counterId
  {
    match FirstFrom(s, p, '}')
    case None => Diverges
    case Some(k) =>
      CounterTextShape(s, p, k);
      CounterText("{" + s[p..k + 1], k + 1, st)
  }

  /** A complete counter text: `{`, then anything but `}`, then `}`. */
  predicate Braced(text: string) {
    |text| >= 2 && text[0] == '{' && text[|text| - 1] == '}' && '}' !in text[..|text| - 1]
  }

  /** The counter token a complete `{...}` text denotes, the read position then
      being `after`. */
  function CounterText(text: string, after: nat, st: ScanState): (r: Scan)
    requires Braced(text)
    ensures r.Next? || r.Failed?
    ensures r.Next? ==> r.after == ScanState(after, st.id, st.counterId + 1) && r.token.symbol == text
    ensures r.Next? ==> r.token.kind == Counter && r.token.id == -1
                        && r.token.range.Some? && r.token.range.value.id == st.counterId
  {
    match ParseCounter(text)
    case Err(e) => Failed(e)
    case Ok(bounds) =>
      Next(RangeToken(text, Counter, CounterRange(bounds.0, bounds.1, st.counterId)),
           ScanState(after, st.id, st.counterId + 1))
  }

  /** Once the closing `}` is found at `k`, the scan is decided by the text
      read. */
  lemma CounterTextAt(s: string, p: nat, k: nat, st: ScanState)
    requires 0 < p <= |s| && FirstFrom(s, p, '}') == Some(k)
    ensures Braced("{" + s[p..k + 1]) && ScanCounterAt(s, p, st) == CounterText("{" + s[p..k + 1], k + 1, st)
  {
    CounterTextShape(s, p, k);
  }

  /** The text from `{` through the first `}` has the shape parseCounter expects. */
  lemma CounterTextShape(s: string, p: nat, k: nat)
    requires p <= k < |s| && s[k] == '}' && forall j :: p <= j < k ==> s[j] != '}'
    ensures Braced("{" + s[p..k + 1])
  {
    var text := "{" + s[p..k + 1];
    assert text[..|text| - 1] == "{" + s[p..k];
    var inner := s[p..k];
    forall i | 0 <= i < |inner| ensures inner[i] != '}' {
      assert inner[i] == s[p + i];
    }
  }

  /** The escape case of getToken, entered with the backslash already read: a
      predefined class `\x`, or the escaped character itself (the sentinel when
      the input ends after the backslash). */
  function ScanEscapeAt(s: string, p: nat, st: ScanState): (r: Scan)
    requires 0 < p <= |s|
    ensures r.Next? && p <= r.after.pos <= |s| && r.after == ScanState(r.after.pos, st.id + 1, st.counterId)
    ensures r.token.IsPosition() && r.token.id == st.id && r.token.range.None?
    ensures r.token.kind == CharClass <==> CharAt(s, p) in PredefinedClasses
  {
    var next := CharAt(s, p);
    var p2 := Advance(s, p);
    if next in PredefinedClasses then
      Next(NumberedToken("\\" + [next], st.id, CharClass), ScanState(p2, st.id + 1, st.counterId))
    else
      Next(NumberedToken([next], st.id, Char), ScanState(p2, st.id + 1, st.counterId))
  }

  /** A class token is the verbatim text from `[` through the first `]`; the scan
      diverges exactly when no `]` follows. */
  lemma ScanClassVerbatim(s: string, p: nat, st: ScanState)
    requires 0 < p <= |s|
    ensures ScanClassAt(s, p, st).Diverges? <==> ']' !in s[p..]
    ensures var r := ScanClassAt(s, p, st);
            r.Next? ==> p < r.after.pos && r.token.symbol == "[" + s[p..r.after.pos]
                        && s[r.after.pos - 1] == ']' && ']' !in s[p..r.after.pos - 1]
  {
    var a := FirstFrom(s, p, ']');
    if a.None? {
      assert ']' !in s[p..];
    } else {
      assert s[p..][a.value - p] == ']';
    }
  }

  /** The same holds of counters and `}`. */
  lemma ScanCounterVerbatim(s: string, p: nat, st: ScanState)
    requires 0 < p <= |s|
    ensures ScanCounterAt(s, p, st).Diverges? <==> '}' !in s[p..]
    ensures var r := ScanCounterAt(s, p, st);
            r.Next? ==> p < r.after.pos && r.token.symbol == "{" + s[p..r.after.pos]
                        && s[r.after.pos - 1] == '}' && '}' !in s[p..r.after.pos - 1]
  {
    if FirstFrom(s, p, '}').None? {
      CounterUnclosed(s, p, st);
    } else {
      CounterClosed(s, p, st);
      CounterVerbatim(s, p, st);
    }
  }

  /** Without a `}` after the `{`, the scan never returns normally. */
  lemma CounterUnclosed(s: string, p: nat, st: ScanState)
    requires 0 < p <= |s| && FirstFrom(s, p, '}').None?
    ensures ScanCounterAt(s, p, st).Diverges? && '}' !in s[p..]
  {
    forall i | 0 <= i < |s| - p ensures s[p..][i] != '}' {
      assert s[p..][i] == s[p + i];
    }
  }

  /** With a `}` after the `{`, the scan ends. */
  lemma CounterClosed(s: string, p: nat, st: ScanState)
    requires 0 < p <= |s| && FirstFrom(s, p, '}').Some?
    ensures !ScanCounterAt(s, p, st).Diverges? && '}' in s[p..]
  {
    var k := FirstFrom(s, p, '}').value;
    CounterTextAt(s, p, k, st);
    assert s[p..][k - p] == '}';
  }

  /** The counter token read ends at the first `}`. */
  lemma CounterVerbatim(s: string, p: nat, st: ScanState)
    requires 0 < p <= |s| && FirstFrom(s, p, '}').Some?
    ensures var r := ScanCounterAt(s, p, st);
            r.Next? ==> p < r.after.pos && r.token.symbol == "{" + s[p..r.after.pos]
                        && s[r.after.pos - 1] == '}' && '}' !in s[p..r.after.pos - 1]
  {
    var k := FirstFrom(s, p, '}').value;
    var text := "{" + s[p..k + 1];
    CounterTextShape(s, p, k);
    var r := CounterText(text, k + 1, st);
    assert ScanCounterAt(s, p, st) == r;
    if r.Next? {
      assert '}' !in s[p..k] by {
        var inner := s[p..k];
        forall i | 0 <= i < |inner| ensures inner[i] != '}' {
          assert inner[i] == s[p + i];
        }
      }
    }
  }

  /** How a run of getToken calls ends: with null, with an exception, or in one
      of the loops that never return normally (idealised as not returning). */
  datatype Ending = Finished | Failing(error: Error) | Hanging

  /** The tokens getToken hands out, in order, and how the next call ends. */
  datatype Lexed = Lexed(tokens: seq<Token>, ending: Ending)

  function LexFrom(s: string, st: ScanState): Lexed
    requires st.pos <= |s|
    decreases |s| - st.pos
  {
    match ScanToken(s, st)
    case End(_) => Lexed([], Finished)
    case Failed(e) => Lexed([], Failing(e))
    case Diverges => Lexed([], Hanging)
    case Next(t, after) =>
      var rest := LexFrom(s, after);
      Lexed([t] + rest.tokens, rest.ending)
  }

  /** The token stream of a regex, from a freshly initialised scanner. */
  function Lex(s: string): Lexed {
    LexFrom(s, InitialState)
  }

  /** The ids of the position tokens, in order. */
  function PositionIds(ts: seq<Token>): seq<int> {
    if ts == [] then []
    else (if ts[0].IsPosition() then [ts[0].id] else []) + PositionIds(ts[1..])
  }

  /** The counter-sequence ids drawn by the quantifier tokens, in order. */
  function QuantifierIds(ts: seq<Token>): seq<int> {
    if ts == [] then []
    else (if IsQuantifier(ts[0]) then [QuantifierId(ts[0])] else []) + QuantifierIds(ts[1..])
  }

  /** The consecutive integers from `lo`, `n` of them. */
  predicate Consecutive(ids: seq<int>, lo: int) {
    forall k :: 0 <= k < |ids| ==> ids[k] == lo + k
  }

  /** What every scanned token looks like, whatever its position in the stream. */
  predicate ScannedShape(t: Token) {
    && t.kind !in {Concat, StartToken}
    && (t.IsPosition() ==> t.id >= 1 && t.range.None?)
    && (t.kind in {Star, Plus} ==> t.id >= 1 && t.range.None?)
    && (t.kind == Counter ==> t.id == -1 && t.range.Some? && t.range.value.id >= 1)
    && (t.kind in {LPar, RPar, Bar} ==> t.id == -1 && t.range.None?)
  }

  /** Scanning from ids (i, c) numbers the positions i, i+1, ... and the quantifiers
      c, c+1, ... in scan order; every other token has id -1. */
  lemma {:induction false} LexFromNumbering(s: string, st: ScanState)
    requires st.pos <= |s| && st.id >= 1 && st.counterId >= 1
    ensures Consecutive(PositionIds(LexFrom(s, st).tokens), st.id)
    ensures Consecutive(QuantifierIds(LexFrom(s, st).tokens), st.counterId)
    ensures forall k :: 0 <= k < |LexFrom(s, st).tokens| ==> ScannedShape(LexFrom(s, st).tokens[k])
    decreases |s| - st.pos
  {
    match ScanToken(s, st)
    case End(_) =>
    case Failed(_) =>
    case Diverges =>
    case Next(t, after) =>
      LexFromNumbering(s, after);
      var ts := LexFrom(s, after).tokens;
      assert LexFrom(s, st).tokens == [t] + ts;
      assert ([t] + ts)[1..] == ts;
  }

  /** The whole stream of a regex: positions numbered from 1, quantifiers from 1. */
  lemma LexNumbering(s: string)
    ensures Consecutive(PositionIds(Lex(s).tokens), 1)
    ensures Consecutive(QuantifierIds(Lex(s).tokens), 1)
    ensures forall k :: 0 <= k < |Lex(s).tokens| ==> ScannedShape(Lex(s).tokens[k])
  {
    LexFromNumbering(s, InitialState);
  }

  /** The counter text `{m}` reads back as the range [m, m]. */
  lemma ParseExactCounter(m: int)
    requires InInt32(m)
    ensures var text := "{" + IntToString(m) + "}";
            |text| >= 2 && '}' !in text[..|text| - 1] && ParseCounter(text) == Ok((m, m))
  {
    var d := IntToString(m);
    var text := "{" + d + "}";
    IntToStringChars(m);
    assert ',' !in text;
    assert text[..|text| - 1] == "{" + d;
    assert text[1..|text| - 1] == d;
    ParseIntOfIntToString(m);
  }

  /** The counter text `{m,n}` reads back as the range [m, n]. */
  lemma ParseBoundedCounter(m: int, n: int)
    requires InInt32(m) && InInt32(n)
    ensures var text := "{" + IntToString(m) + "," + IntToString(n) + "}";
            |text| >= 2 && '}' !in text[..|text| - 1] && ParseCounter(text) == Ok((m, n))
  {
    var a, b := IntToString(m), IntToString(n);
    var text := "{" + a + "," + b + "}";
    IntToStringChars(m);
    IntToStringChars(n);
    assert text[..|text| - 1] == "{" + a + "," + b;
    assert IndexOf(text, ',') == |a| + 1 by {
      assert text[|a| + 1] == ',';
      assert ',' !in text[..|a| + 1];
    }
    assert IndexOf(text, '}') == |text| - 1;
    assert text[1..|a| + 1] == a;
    assert text[|a| + 2..|text| - 1] == b;
    ParseIntOfIntToString(m);
    ParseIntOfIntToString(n);
  }

  /** The counter text `{m,}` reads back as [m, -1]: -1 marks a missing upper bound. */
  lemma ParseUnboundedCounter(m: int)
    requires InInt32(m)
    ensures var text := "{" + IntToString(m) + ",}";
            |text| >= 2 && '}' !in text[..|text| - 1] && ParseCounter(text) == Ok((m, -1))
  {
    var a := IntToString(m);
    var text := "{" + a + ",}";
    IntToStringChars(m);
    assert text[..|text| - 1] == "{" + a + ",";
    assert IndexOf(text, ',') == |a| + 1 by {
      assert text[|a| + 1] == ',';
      assert ',' !in text[..|a| + 1];
    }
    assert IndexOf(text, '}') == |text| - 1;
    assert text[1..|a| + 1] == a;
    ParseIntOfIntToString(m);
  }

  /** The static scanner of the source as an object: the input, the read position
      and the two id sequences. */
  class MyScanner {
    var s: string
    var pos: nat
    var id: int
    var counterId: int

    ghost predicate Valid()
      reads this
    {
      pos <= |s|
    }

    function State(): ScanState
      reads this
    {
      ScanState(pos, id, counterId)
    }

    /** The static fields' initial values before any initScanner call. */
    constructor ()
      ensures Valid() && s == [] && State() == InitialState
    {
      s, pos, id, counterId := [], 0, 1, 1;
    }

    /** initScanner: a new input, read position 0, both id sequences back at 1. */
    method InitScanner(line: string)
      modifies this
      ensures Valid() && s == line && State() == InitialState
    {
      s := line;
      pos := 0;
      id := 1;
      counterId := 1;
    }

    /** nextChar: the character at the read position (the sentinel past the end),
        moving the position forward but never beyond the end of the input. */
    method NextChar() returns (c: char)
      requires Valid()
      modifies this`pos
      ensures Valid()
      ensures c == CharAt(s, old(pos)) && pos == Advance(s, old(pos))
    {
      if pos < |s| {
        c := s[pos];
        pos := pos + 1;
      } else {
        c := Sentinel;
      }
    }

    /** isPredefinedCharacterClass: a linear search of the eight class letters. */
    static method IsPredefinedCharacterClass(c: char) returns (b: bool)
      ensures b <==> c in PredefinedClasses
    {
      var classes := PredefinedClasses;
      var i := 0;
      while i < |classes|
        invariant 0 <= i <= |classes|
        invariant c !in classes[..i]
      {
        if classes[i] == c {
          return true;
        }
        i := i + 1;
      }
      assert classes[..i] == classes;
      return false;
    }

    /** The loop shared by scanCharClass and scanCounter: append characters to
        `text` until the closing character has been appended. */
    method ReadThrough(text0: string, close: char) returns (text: string)
      requires Valid() && close != Sentinel && FirstFrom(s, pos, close).Some?
      modifies this`pos
      ensures Valid()
      ensures pos == FirstFrom(s, old(pos), close).value + 1
      ensures text == text0 + s[old(pos)..pos]
    {
      ghost var start := pos;
      ghost var k := FirstFrom(s, pos, close).value;
      text := text0;
      var c := Sentinel;
      while c != close
        invariant Valid() && start <= pos <= k + 1
        invariant text == text0 + s[start..pos]
        invariant c == close <==> pos == k + 1
        decreases k + 1 - pos
      {
        c := NextChar();
        text := text + [c];
        assert s[start..pos] == s[start..pos - 1] + [c];
      }
    }

    /** scanCharClass, with the `[` already read: the verbatim text from `[`
        through the first `]`, numbered with the next position id. */
    method ScanCharClass() returns (t: Token)
      requires Valid() && 0 < pos && ScanClassAt(s, pos, State()).Next?
      modifies this`pos, this`id
      ensures Valid()
      ensures ScanClassAt(s, old(pos), old(State())) == Next(t, State())
    {
      var text := ReadThrough("[", ']');
      t := NumberedToken(text, id, CharClass);
      id := id + 1;
    }

    /** scanCounter, with the `{` already read: the text from `{` through the
        first `}` and the range it denotes, with the next counter id. */
    method ScanCounter() returns (r: Result<Token>)
      requires Valid() && 0 < pos && !ScanCounterAt(s, pos, State()).Diverges?
      modifies this`pos, this`counterId
      ensures Valid()
      ensures match ScanCounterAt(s, old(pos), old(State()))
              case Next(t, after) => r == Ok(t) && State() == after
              case Failed(e) => r == Err(e)
              case _ => false
    {
      ghost var str, p, st0 := s, pos, State();
      ghost var k := FirstFrom(str, p, '}').value;
      var text := ReadThrough("{", '}');
      assert text == "{" + str[p..k + 1];
      CounterTextAt(str, p, k, st0);
      ghost var sc := CounterText(text, k + 1, st0);
      assert ScanCounterAt(str, p, st0) == sc;
      var bounds := ParseCounter(text);
      if bounds.Err? {
        assert sc == Failed(bounds.error);
        return Err(bounds.error);
      }
      var t := RangeToken(text, Counter, CounterRange(bounds.value.0, bounds.value.1, counterId));
      r := Ok(t);
      counterId := counterId + 1;
      assert sc == Next(t, State());
    }

    /** getToken: the next token, `None` (null) at the sentinel. Requires that a
        `[` or `{` at the read position is closed later on: otherwise the source
        never returns normally. */
    method GetToken() returns (r: Result<Option<Token>>)
      requires Valid() && !ScanToken(s, State()).Diverges?
      modifies this
      ensures Valid() && s == old(s)
      ensures match ScanToken(s, old(State()))
              case End(after) => r == Ok(None) && State() == after
              case Next(t, after) => r == Ok(Some(t)) && State() == after
              case Failed(e) => r == Err(e)
              case Diverges => false
    {
      ghost var st0 := State();
      ghost var sc := ScanToken(s, st0);
      var c := NextChar();
      if c == Sentinel {
        return Ok(None);
      }
      if c == '*' || c == '+' {
        var kind := if c == '*' then Star else Plus;
        r := Ok(Some(NumberedToken([c], counterId, kind)));
        counterId := counterId + 1;
        assert sc == Next(r.value.value, State());
      } else if c == '|' || c == '(' || c == ')' {
        var kind := if c == '|' then Bar else if c == '(' then LPar else RPar;
        r := Ok(Some(OperatorToken([c], kind)));
        assert sc == Next(r.value.value, State());
      } else if c == '[' {
        assert sc == ScanClassAt(s, pos, st0);
        var t := ScanCharClass();
        r := Ok(Some(t));
      } else if c == '.' {
        r := Ok(Some(NumberedToken(".", id, CharClass)));
        id := id + 1;
        assert sc == Next(r.value.value, State());
      } else if c == '{' {
        assert sc == ScanCounterAt(s, pos, st0);
        var t := ScanCounter();
        if t.Err? {
          return Err(t.error);
        }
        r := Ok(Some(t.value));
      } else if c == '\\' {
        var next := NextChar();
        var isClass := IsPredefinedCharacterClass(next);
        if isClass {
          r := Ok(Some(NumberedToken("\\" + [next], id, CharClass)));
        } else {
          r := Ok(Some(NumberedToken([next], id, Char)));
        }
        id := id + 1;
        assert sc == Next(r.value.value, State());
      } else {
        r := Ok(Some(NumberedToken([c], id, Char)));
        id := id + 1;
        assert sc == Next(r.value.value, State());
      }
    }
  }
}
