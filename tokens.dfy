/** Tokens produced by the scanner: the numbered positions (characters and character
    classes) and the operator symbols, plus the counter/star bookkeeping that the set
    builder attaches to position tokens. */
module Tokens {
  import opened Util
  import opened Counters

  datatype TokenType =
    | LPar | RPar | Counter | Star | Plus | Concat | Bar | Char | CharClass | StartToken

  /** The immutable part of a token. `range` is the counter range of a `{m,n}` token
      and `None` for every other kind (the field is left null in the source). */
  datatype Token = Token(symbol: string, id: int, kind: TokenType, range: Option<CounterRange>)
  {
    /** Characters and character classes are the positions of the regex. */
    predicate IsPosition() { kind == Char || kind == CharClass }
  }

  /** Token(String, TokenType, CounterRange): a counter token, without an id. */
  function RangeToken(symbol: string, kind: TokenType, range: CounterRange): (t: Token)
    ensures t.id == -1 && t.range == Some(range)
    ensures t.symbol == symbol && t.kind == kind
  {
    Token(symbol, -1, kind, Some(range))
  }

  /** Token(String, TokenType): an operator token, without an id or a range. */
  function OperatorToken(symbol: string, kind: TokenType): (t: Token)
    ensures t.id == -1 && t.range == None
    ensures t.symbol == symbol && t.kind == kind
  {
    Token(symbol, -1, kind, None)
  }

  /** Token(String, int, TokenType): a numbered token (positions, stars, the start token). */
  function NumberedToken(symbol: string, id: int, kind: TokenType): (t: Token)
    ensures t.id == id && t.range == None
    ensures t.symbol == symbol && t.kind == kind
  {
    Token(symbol, id, kind, None)
  }

  /** The four annotation lists of a position token. Counter lists hold the ranges
      (with the lower bound the builder settled on); `stars` holds the star tokens. */
  datatype Notes = Notes(
    incremented: seq<CounterRange>,   // countersIncrementedHere
    initialized: seq<CounterRange>,   // countersInitializedHere
    associated: seq<CounterRange>,    // associatedCounterRanges
    stars: seq<Token>)                // starsEndingHere

  /** Every token starts with four empty lists. */
  const NoNotes: Notes := Notes([], [], [], [])

  /** The annotations of a position token, kept in a table keyed by the token
      (empty when none were made). */
  function NotesOf(notes: map<Token, Notes>, t: Token): Notes {
    if t in notes then notes[t] else NoNotes
  }

  /** The lists of `b` extend those of `a`: each list of `a` is a prefix of `b`'s. */
  predicate Extends(a: Notes, b: Notes) {
    a.incremented <= b.incremented && a.initialized <= b.initialized
    && a.associated <= b.associated && a.stars <= b.stars
  }

  /** Every token's lists in `after` extend its lists in `before`. */
  predicate NotesGrow(before: map<Token, Notes>, after: map<Token, Notes>) {
    forall t :: t in before ==> Extends(before[t], NotesOf(after, t))
  }

  lemma NotesGrowTransitive(a: map<Token, Notes>, b: map<Token, Notes>, c: map<Token, Notes>)
    requires NotesGrow(a, b) && NotesGrow(b, c)
    ensures NotesGrow(a, c)
  {
    forall t | t in a ensures Extends(a[t], NotesOf(c, t)) {
      if t !in b {
        assert a[t].incremented == a[t].initialized == a[t].associated == [] && a[t].stars == [];
      }
    }
  }

  /** lastQuantifierIsCounter: the last quantifier applied to this position was a counter. */
  predicate LastQuantifierIsCounter(n: Notes) {
    if |n.incremented| < 1 then false
    else if |n.stars| < 1 then true
    else Last(n.incremented).id > Last(n.stars).id
  }

  /** lastQuantifierIsStar: the mirror image of LastQuantifierIsCounter. */
  predicate LastQuantifierIsStar(n: Notes) {
    if |n.stars| < 1 then false
    else if |n.incremented| < 1 then true
    else Last(n.incremented).id < Last(n.stars).id
  }

  /** Both comparisons are strict, so at most one of the two predicates holds; and
      when the last counter and the last star have different ids (they are drawn
      from one id sequence), a position with any quantifier has exactly one. */
  lemma LastQuantifierExclusive(n: Notes)
    ensures !(LastQuantifierIsCounter(n) && LastQuantifierIsStar(n))
    ensures (|n.incremented| > 0 && |n.stars| > 0 && Last(n.incremented).id != Last(n.stars).id)
            ==> (LastQuantifierIsCounter(n) || LastQuantifierIsStar(n))
    ensures (!LastQuantifierIsCounter(n) && !LastQuantifierIsStar(n))
            <==> ((|n.incremented| == 0 && |n.stars| == 0)
                  || (|n.incremented| > 0 && |n.stars| > 0 && Last(n.incremented).id == Last(n.stars).id))
  {
  }

  /** Token.equals. It dereferences the receiver's counter range, so it is only
      defined when the receiver has one; it then compares symbol, id, kind and the
      range by id (the argument's missing range compares unequal). */
  predicate TokenEquals(a: Token, b: Token)
    requires a.range.Some?
  {
    a.symbol == b.symbol && a.id == b.id && a.kind == b.kind
    && b.range.Some? && SameCounter(a.range.value, b.range.value)
  }

  /** Token.equals is symmetric where both sides are defined, and coincides with
      value equality for tokens whose range is determined by its id. */
  lemma TokenEqualsSymmetric(a: Token, b: Token)
    requires a.range.Some? && b.range.Some?
    ensures TokenEquals(a, b) == TokenEquals(b, a)
    ensures a == b ==> TokenEquals(a, b)
    ensures TokenEquals(a, b) && a.range.value == b.range.value ==> a == b
  {
  }

  /** Token.toString: `(symbol, id)`. */
  function TokenToString(t: Token): (s: string)
    ensures |s| == |t.symbol| + |IntToString(t.id)| + 4
    ensures s[0] == '(' && s[|s| - 1] == ')' && s[|t.symbol| + 1] == ','
  {
    "(" + t.symbol + ", " + IntToString(t.id) + ")"
  }
}
