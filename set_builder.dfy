/** The Glushkov set builder: one left-to-right pass over the token stream with an
    operand stack of Sets, an operator stack and one token of lookahead. On the way
    it writes the counter and star bookkeeping onto the position tokens.

    The annotation lists of a token live, in the source, inside the token object.
    Here they are a table from token to `Notes`. */
module SetBuilder {
  import opened Util
  import opened Counters
  import opened Tokens
  import opened TokenStrings
  import opened GlushkovSets
  import opened Scanner

  /** The two copies of the builder (packages `nca` and `automata`) differ only in
      what they do with a token kind their first switch does not handle. */
  datatype Generation = NcaGeneration | AutomataGeneration

  /** SetsAndTokens, together with the annotations made on the position tokens. */
  datatype SetsAndTokens = SetsAndTokens(sets: Sets, stateTokens: seq<Token>, notes: map<Token, Notes>)

  /** The builder's working state: operand stack and operator stack (tops last),
      the position tokens seen so far and the annotation table. */
  datatype Stacks = Stacks(operands: seq<Sets>, ops: seq<Token>, stateTokens: seq<Token>, notes: map<Token, Notes>)

  const EmptyStacks: Stacks := Stacks([], [], [], map[])

  /** The implicit concatenation operator. */
  const ConcatToken: Token := OperatorToken("", Concat)

  const AllKinds: set<TokenType> :=
    {LPar, RPar, Counter, Star, Plus, Concat, Bar, Char, CharClass, StartToken}

  // ---------------------------------------------------------------------------
  // Shape of the sets

  /** A P or D element: one position token, untagged. */
  predicate IsPositionString(x: TokenString) {
    |x.tokens| == 1 && x.tokens[0].IsPosition() && x.tag.None?
  }

  /** An F element: two position tokens and the operator that joined them. */
  predicate IsPairString(x: TokenString) {
    |x.tokens| == 2 && x.tokens[0].IsPosition() && x.tokens[1].IsPosition() && x.tag.Some?
  }

  predicate PositionStrings(xs: set<TokenString>) {
    forall x :: x in xs ==> IsPositionString(x)
  }

  /** The shape every Sets on the operand stack has: P and D hold single positions,
      L holds at most the empty string, F holds tagged pairs. */
  predicate WellFormed(e: Sets) {
    && PositionStrings(e.p)
    && PositionStrings(e.d)
    && e.l <= {Epsilon}
    && (forall x :: x in e.f ==> IsPairString(x))
  }

  predicate StackWellFormed(stack: seq<Sets>) {
    forall k :: 0 <= k < |stack| ==> WellFormed(stack[k])
  }

  /** L holds the empty string: the sub-expression matches the empty input. */
  predicate Nullable(e: Sets) {
    Epsilon in e.l
  }

  /** The ids of the (first) tokens of the strings in `xs`. */
  function FirstIds(xs: set<TokenString>): set<int>
    requires PositionStrings(xs)
  {
    set x | x in xs :: x.tokens[0].id
  }

  // ---------------------------------------------------------------------------
  // concat and concatAndSaveTransitionToken

  /** concat: every prefix followed by every suffix, untagged. */
  function ConcatAll(prefixes: set<TokenString>, suffixes: set<TokenString>): set<TokenString> {
    set x, y | x in prefixes && y in suffixes :: Concatenate(x, y)
  }

  /** concatAndSaveTransitionToken: the same, tagged with the operator. */
  function ConcatAllTagged(prefixes: set<TokenString>, suffixes: set<TokenString>, t: Token): set<TokenString> {
    set x, y | x in prefixes && y in suffixes :: ConcatenateTagged(x, y, t)
  }

  /** Since L is empty or {ε}, concatenating with it on either side gives back the
      (untagged) operand or nothing. */
  lemma ConcatWithLambda(l: set<TokenString>, xs: set<TokenString>)
    requires l <= {Epsilon} && forall x :: x in xs ==> x.tag.None?
    ensures ConcatAll(l, xs) == (if Epsilon in l then xs else {})
    ensures ConcatAll(xs, l) == (if Epsilon in l then xs else {})
  {
    if Epsilon in l {
      assert l == {Epsilon};
      ConcatEpsilonLeft(xs);
      ConcatEpsilonRight(xs);
    } else {
      assert l == {};
    }
  }

  lemma ConcatEpsilonLeft(xs: set<TokenString>)
    requires forall x :: x in xs ==> x.tag.None?
    ensures ConcatAll({Epsilon}, xs) == xs
  {
    forall x | x in xs ensures x in ConcatAll({Epsilon}, xs) {
      assert [] + x.tokens == x.tokens;
      assert Concatenate(Epsilon, x) == x;
    }
    forall z | z in ConcatAll({Epsilon}, xs) ensures z in xs {
      var e, y :| e in {Epsilon} && y in xs && z == Concatenate(e, y);
      assert [] + y.tokens == y.tokens;
    }
  }

  lemma ConcatEpsilonRight(xs: set<TokenString>)
    requires forall x :: x in xs ==> x.tag.None?
    ensures ConcatAll(xs, {Epsilon}) == xs
  {
    forall x | x in xs ensures x in ConcatAll(xs, {Epsilon}) {
      assert x.tokens + [] == x.tokens;
      assert Concatenate(x, Epsilon) == x;
    }
    forall z | z in ConcatAll(xs, {Epsilon}) ensures z in xs {
      var y, e :| y in xs && e in {Epsilon} && z == Concatenate(y, e);
      assert y.tokens + [] == y.tokens;
    }
  }

  /** Tagged concatenation of single positions yields exactly the tagged pairs
      (d, p) with d from the prefixes and p from the suffixes. */
  lemma PairsOfPositions(ds: set<TokenString>, ps: set<TokenString>, t: Token)
    requires PositionStrings(ds) && PositionStrings(ps)
    ensures forall x :: x in ConcatAllTagged(ds, ps, t) ==> IsPairString(x) && x.tag == Some(t)
    ensures forall x :: x in ConcatAllTagged(ds, ps, t) <==>
              |x.tokens| == 2 && x.tag == Some(t) && Single(x.tokens[0]) in ds && Single(x.tokens[1]) in ps
  {
    forall x | x in ConcatAllTagged(ds, ps, t)
      ensures IsPairString(x) && x.tag == Some(t) && Single(x.tokens[0]) in ds && Single(x.tokens[1]) in ps
    {
      var d, p :| d in ds && p in ps && x == ConcatenateTagged(d, p, t);
      assert Single(d.tokens[0]) == d && Single(p.tokens[0]) == p;
    }
    forall x: TokenString | |x.tokens| == 2 && x.tag == Some(t) && Single(x.tokens[0]) in ds && Single(x.tokens[1]) in ps
      ensures x in ConcatAllTagged(ds, ps, t)
    {
      assert x == ConcatenateTagged(Single(x.tokens[0]), Single(x.tokens[1]), t);
    }
  }

  // ---------------------------------------------------------------------------
  // The rules for each operator

  /** computeSetsForChar: P = D = {t}, L = F = {}. */
  function CharRule(t: Token): Sets {
    Sets({Single(t)}, {}, {Single(t)}, {})
  }

  /** computeSetsForStar: the operand made nullable, with every (d, p) pair of
      the operand added to F, tagged with the star. */
  function StarRule(e: Sets, star: Token): Sets {
    Sets(e.p, {Epsilon}, e.d, e.f + ConcatAllTagged(e.d, e.p, star))
  }

  /** The range a counter ends up with: a positive lower bound drops to 0 when the
      operand is nullable (the empty string pads the missing iterations). */
  function RelaxedRange(e: Sets, r: CounterRange): CounterRange {
    if r.lowerBound > 0 && Nullable(e) then r.(lowerBound := 0) else r
  }

  /** The counter token as it reads after the relaxation (the range object is
      shared, so every reference sees the relaxed bound). */
  function RelaxedToken(e: Sets, counter: Token): Token
    requires counter.range.Some?
  {
    counter.(range := Some(RelaxedRange(e, counter.range.value)))
  }

  /** computeSetsForCounter, on the sets: L is {ε} when the lower bound is at most
      0 and the operand's L otherwise; P and D are the operand's; the looping pairs
      (d, p), tagged with the counter, join F only when the upper bound is at
      least 2. */
  function CounterRule(e: Sets, counter: Token): Sets
    requires counter.range.Some?
  {
    var r := counter.range.value;
    Sets(e.p,
         if r.lowerBound <= 0 then {Epsilon} else e.l,
         e.d,
         if r.upperBound >= 2 then e.f + ConcatAllTagged(e.d, e.p, RelaxedToken(e, counter)) else e.f)
  }

  /** applyOperation on BAR: the elementwise union. */
  function AltRule(e: Sets, f: Sets): Sets {
    Sets(e.p + f.p, e.l + f.l, e.d + f.d, e.f + f.f)
  }

  /** applyOperation on CONCAT, as the source writes it with concat. */
  function ConcatRule(e: Sets, f: Sets, op: Token): Sets {
    Sets(e.p + ConcatAll(e.l, f.p),
         ConcatAll(e.l, f.l),
         f.d + ConcatAll(e.d, f.l),
         e.f + f.f + ConcatAllTagged(e.d, f.p, op))
  }

  // ---------------------------------------------------------------------------
  // Glushkov's equations, stated with nullability

  lemma CharRuleMeaning(t: Token)
    requires t.IsPosition()
    ensures var r := CharRule(t);
            WellFormed(r) && !Nullable(r) && r.p == r.d == {TokenString([t], None)} && r.f == {}
  {
  }

  lemma StarRuleMeaning(e: Sets, star: Token)
    requires WellFormed(e)
    ensures var r := StarRule(e, star);
            && WellFormed(r) && Nullable(r) && r.p == e.p && r.d == e.d
            && (forall x :: x in r.f <==>
                 (x in e.f || (|x.tokens| == 2 && x.tag == Some(star) && Single(x.tokens[0]) in e.d && Single(x.tokens[1]) in e.p)))
  {
    PairsOfPositions(e.d, e.p, star);
  }

  /** The counter is nullable exactly when its lower bound is at most 0 or its
      operand is nullable; the relaxed lower bound is 0 in the second case; F
      loops back only when more than one iteration is allowed. */
  lemma CounterRuleMeaning(e: Sets, counter: Token)
    requires WellFormed(e) && counter.range.Some?
    ensures var r := CounterRule(e, counter);
            var range := counter.range.value;
            && WellFormed(r)
            && (Nullable(r) <==> range.lowerBound <= 0 || Nullable(e))
            && r.p == e.p && r.d == e.d
            && (RelaxedRange(e, range).lowerBound == if Nullable(e) && range.lowerBound > 0 then 0 else range.lowerBound)
            && RelaxedRange(e, range).upperBound == range.upperBound && RelaxedRange(e, range).id == range.id
            && (forall x :: x in r.f <==>
                 (x in e.f || (range.upperBound >= 2 && |x.tokens| == 2 && x.tag == Some(RelaxedToken(e, counter))
                               && Single(x.tokens[0]) in e.d && Single(x.tokens[1]) in e.p)))
  {
    PairsOfPositions(e.d, e.p, RelaxedToken(e, counter));
  }

  lemma AltRuleMeaning(e: Sets, f: Sets)
    requires WellFormed(e) && WellFormed(f)
    ensures var r := AltRule(e, f);
            WellFormed(r) && (Nullable(r) <==> Nullable(e) || Nullable(f))
  {
  }

  /** The textbook equations: first(ef) = first(e) plus first(f) when e is
      nullable; last(ef) = last(f) plus last(e) when f is nullable; ef is nullable
      when both are; the new follow pairs are last(e) x first(f). */
  lemma ConcatRuleMeaning(e: Sets, f: Sets, op: Token)
    requires WellFormed(e) && WellFormed(f)
    ensures var r := ConcatRule(e, f, op);
            && WellFormed(r)
            && r.p == e.p + (if Nullable(e) then f.p else {})
            && r.d == f.d + (if Nullable(f) then e.d else {})
            && (Nullable(r) <==> Nullable(e) && Nullable(f))
            && (forall x :: x in r.f <==>
                 (x in e.f || x in f.f
                  || (|x.tokens| == 2 && x.tag == Some(op) && Single(x.tokens[0]) in e.d && Single(x.tokens[1]) in f.p)))
  {
    ConcatRuleParts(e, f, op);
    var r := ConcatRule(e, f, op);
    assert WellFormed(r) by {
      assert PositionStrings(r.p) && PositionStrings(r.d);
      assert r.l <= {Epsilon};
      PairsOfPositions(e.d, f.p, op);
    }
    ConcatRuleFollow(e, f, op);
  }

  lemma ConcatRuleParts(e: Sets, f: Sets, op: Token)
    requires WellFormed(e) && WellFormed(f)
    ensures ConcatRule(e, f, op).p == e.p + (if Nullable(e) then f.p else {})
    ensures ConcatRule(e, f, op).d == f.d + (if Nullable(f) then e.d else {})
    ensures ConcatRule(e, f, op).l == (if Nullable(e) then f.l else {})
  {
    ConcatLambdaFirst(e.l, f.p);
    ConcatLambdaLast(e.d, f.l);
    ConcatLambdaFirst(e.l, f.l);
  }

  lemma ConcatLambdaFirst(l: set<TokenString>, xs: set<TokenString>)
    requires l <= {Epsilon} && forall x :: x in xs ==> x.tag.None?
    ensures ConcatAll(l, xs) == (if Epsilon in l then xs else {})
  {
    ConcatWithLambda(l, xs);
  }

  lemma ConcatLambdaLast(xs: set<TokenString>, l: set<TokenString>)
    requires l <= {Epsilon} && forall x :: x in xs ==> x.tag.None?
    ensures ConcatAll(xs, l) == (if Epsilon in l then xs else {})
  {
    ConcatWithLambda(l, xs);
  }

  lemma ConcatRuleFollow(e: Sets, f: Sets, op: Token)
    requires WellFormed(e) && WellFormed(f)
    ensures forall x :: x in ConcatRule(e, f, op).f <==>
              (x in e.f || x in f.f
               || (|x.tokens| == 2 && x.tag == Some(op) && Single(x.tokens[0]) in e.d && Single(x.tokens[1]) in f.p))
  {
    PairsOfPositions(e.d, f.p, op);
  }

  // ---------------------------------------------------------------------------
  // Annotations

  /** One append to one of a token's four lists. */
  datatype Note =
    | Incremented(range: CounterRange)
    | Initialized(range: CounterRange)
    | Associated(range: CounterRange)
    | StarEnding(star: Token)

  function AddNote(n: Notes, note: Note): Notes {
    match note
    case Incremented(r) => n.(incremented := n.incremented + [r])
    case Initialized(r) => n.(initialized := n.initialized + [r])
    case Associated(r) => n.(associated := n.associated + [r])
    case StarEnding(t) => n.(stars := n.stars + [t])
  }

  /** The same append made on every token in `keys`. */
  function Annotate(notes: map<Token, Notes>, keys: set<Token>, note: Note): (r: map<Token, Notes>)
    ensures forall t :: NotesOf(r, t) == if t in keys then AddNote(NotesOf(notes, t), note) else NotesOf(notes, t)
    ensures NotesGrow(notes, r)
  {
    map t | t in notes.Keys + keys :: if t in keys then AddNote(NotesOf(notes, t), note) else notes[t]
  }

  /** The tokens of the strings in a set of single positions. */
  function FirstTokens(xs: set<TokenString>): set<Token>
    requires PositionStrings(xs)
  {
    set x | x in xs :: x.tokens[0]
  }

  /** `minID <= id && id <= maxID`, where minID is the least P id (starting from
      Integer.MAX_VALUE) and maxID the largest D id (starting from -3). */
  predicate InCounterSpan(id: int, pIds: set<int>, dIds: set<int>) {
    && (Int32Max <= id || exists p :: p in pIds && p <= id)
    && (id <= -3 || exists d :: d in dIds && id <= d)
  }

  /** The loop over stateTokens: in list order, each token whose id lies in the
      span gets the append. */
  function AnnotateSpan(notes: map<Token, Notes>, ts: seq<Token>, pIds: set<int>, dIds: set<int>, note: Note)
    : (r: map<Token, Notes>)
    ensures NotesGrow(notes, r)
    ensures forall t :: t !in ts ==> NotesOf(r, t) == NotesOf(notes, t)
    decreases |ts|
  {
    if ts == [] then notes
    else
      var n := AnnotateSpan(notes, ts[..|ts| - 1], pIds, dIds, note);
      var t := Last(ts);
      if InCounterSpan(t.id, pIds, dIds) then
        var r := n[t := AddNote(NotesOf(n, t), note)];
        assert NotesGrow(n, r);
        NotesGrowTransitive(notes, n, r);
        r
      else n
  }

  /** computeSetsForCounter, on the annotations: the range is appended to the
      incremented list of every D token, the initialised list of every P token and
      the associated list of every state token in the span. */
  function CounterNotes(notes: map<Token, Notes>, e: Sets, range: CounterRange, stateTokens: seq<Token>)
    : (r: map<Token, Notes>)
    requires WellFormed(e)
    ensures NotesGrow(notes, r)
  {
    var n1 := Annotate(notes, FirstTokens(e.d), Incremented(range));
    var n2 := Annotate(n1, FirstTokens(e.p), Initialized(range));
    var n3 := AnnotateSpan(n2, stateTokens, FirstIds(e.p), FirstIds(e.d), Associated(range));
    NotesGrowTransitive(notes, n1, n2);
    NotesGrowTransitive(notes, n2, n3);
    n3
  }

  /** computeSetsForStar, on the annotations: every D token records the star. */
  function StarNotes(notes: map<Token, Notes>, e: Sets, star: Token): (r: map<Token, Notes>)
    requires WellFormed(e)
    ensures NotesGrow(notes, r)
  {
    Annotate(notes, FirstTokens(e.d), StarEnding(star))
  }

  // ---------------------------------------------------------------------------
  // The stack machine

  /** applyOperation: pop an operator and two operands, push their combination
      (an empty Sets for an operator that is neither BAR nor CONCAT). */
  function Applied(s: Stacks): (r: Result<Stacks>)
    requires |s.ops| > 0 && StackWellFormed(s.operands)
    ensures r.Ok? <==> |s.operands| >= 2
    ensures r.Err? ==> r.error == EmptyStack
    ensures r.Ok? ==> && StackWellFormed(r.value.operands)
                      && |r.value.operands| == |s.operands| - 1
                      && r.value.operands[..|s.operands| - 2] == s.operands[..|s.operands| - 2]
                      && r.value.ops == s.ops[..|s.ops| - 1]
                      && r.value.stateTokens == s.stateTokens && r.value.notes == s.notes
  {
    var n := |s.operands|;
    if n < 2 then Err(EmptyStack)
    else
      var op, f, e := Last(s.ops), s.operands[n - 1], s.operands[n - 2];
      var combined :=
        if op.kind == Bar then AltRule(e, f)
        else if op.kind == Concat then ConcatRule(e, f, op)
        else NoSets;
      AltRuleMeaning(e, f);
      ConcatRuleMeaning(e, f, op);
      Ok(s.(operands := s.operands[..n - 2] + [combined], ops := s.ops[..|s.ops| - 1]))
  }

  /** The `while (!ops.isEmpty() && ops.peek().type is one of kinds)` reductions. */
  function Reduced(s: Stacks, kinds: set<TokenType>): (r: Result<Stacks>)
    requires StackWellFormed(s.operands)
    ensures r.Err? ==> r.error == EmptyStack
    ensures r.Ok? ==> && StackWellFormed(r.value.operands)
                      && r.value.stateTokens == s.stateTokens && r.value.notes == s.notes
                      && r.value.ops <= s.ops
                      && (|r.value.ops| == 0 || Last(r.value.ops).kind !in kinds)
                      && (forall k :: |r.value.ops| <= k < |s.ops| ==> s.ops[k].kind in kinds)
                      && |s.operands| - |r.value.operands| == |s.ops| - |r.value.ops|
    decreases |s.ops|
  {
    if |s.ops| > 0 && Last(s.ops).kind in kinds then
      var s' :- Applied(s);
      Reduced(s', kinds)
    else Ok(s)
  }

  /** The R_PAR case: reduce down to the nearest `(` and pop it; peek on an empty
      operator stack throws. */
  function Closed(s: Stacks): (r: Result<Stacks>)
    requires StackWellFormed(s.operands)
    ensures r.Err? ==> r.error == EmptyStack
    ensures r.Ok? ==> && StackWellFormed(r.value.operands)
                      && r.value.stateTokens == s.stateTokens && r.value.notes == s.notes
                      && |r.value.ops| < |s.ops| && r.value.ops == s.ops[..|r.value.ops|]
                      && s.ops[|r.value.ops|].kind == LPar
                      && (forall k :: |r.value.ops| < k < |s.ops| ==> s.ops[k].kind != LPar)
                      && |s.operands| - |r.value.operands| == |s.ops| - |r.value.ops| - 1
    decreases |s.ops|
  {
    if |s.ops| == 0 then Err(EmptyStack)
    else if Last(s.ops).kind == LPar then Ok(s.(ops := s.ops[..|s.ops| - 1]))
    else
      var s' :- Applied(s);
      Closed(s')
  }

  /** The COUNTER case: pop the operand, push the counter's sets, annotate. */
  function CounterStep(s: Stacks, t: Token): (r: Result<Stacks>)
    requires StackWellFormed(s.operands)
    ensures r.Ok? ==> StackWellFormed(r.value.operands)
  {
    if |s.operands| == 0 then Err(EmptyStack)
    else if t.range.None? then Err(NullValue)
    else
      var e := Last(s.operands);
      CounterRuleMeaning(e, t);
      Ok(s.(operands := s.operands[..|s.operands| - 1] + [CounterRule(e, t)],
            notes := CounterNotes(s.notes, e, RelaxedRange(e, t.range.value), s.stateTokens)))
  }

  /** The STAR case: pop the operand, push the star's sets, annotate. */
  function StarStep(s: Stacks, t: Token): (r: Result<Stacks>)
    requires StackWellFormed(s.operands)
    ensures r.Ok? ==> StackWellFormed(r.value.operands)
  {
    if |s.operands| == 0 then Err(EmptyStack)
    else
      var e := Last(s.operands);
      StarRuleMeaning(e, t);
      Ok(s.(operands := s.operands[..|s.operands| - 1] + [StarRule(e, t)],
            notes := StarNotes(s.notes, e, t)))
  }

  /** Which token kinds a generation's builder is modelled for: the `automata`
      copy's PLUS branch is not part of this model. */
  predicate Handles(gen: Generation, t: Token) {
    gen == AutomataGeneration ==> t.kind != Plus
  }

  /** The first switch of the loop body. */
  function Operate(s: Stacks, t: Token, gen: Generation): (r: Result<Stacks>)
    requires StackWellFormed(s.operands) && Handles(gen, t)
    ensures r.Ok? ==> StackWellFormed(r.value.operands)
  {
    match t.kind
    case LPar => Ok(s.(ops := s.ops + [t]))
    case RPar => Closed(s)
    case Counter => CounterStep(s, t)
    case Star => StarStep(s, t)
    case Char => Ok(s.(operands := s.operands + [CharRule(t)]))
    case CharClass => Ok(s.(operands := s.operands + [CharRule(t)]))
    case Bar =>
      if |s.ops| > 0 && Last(s.ops).kind != LPar then Err(AssertionFailed)
      else
        var s' :- Reduced(s, AllKinds - {LPar});
        Ok(s'.(ops := s'.ops + [t]))
    case _ => if gen == AutomataGeneration then Err(UnsupportedToken) else Ok(s)
  }

  /** currentTokenIsLastInGroup: no quantifier follows. */
  predicate LastInGroup(next: Option<Token>) {
    next.None? || next.value.kind !in {Counter, Star}
  }

  /** canConcatWith: an operand starts next. */
  predicate CanConcatWith(next: Option<Token>) {
    next.Some? && next.value.kind in {Char, CharClass, LPar}
  }

  /** The second switch: once an operand is complete, finish pending
      concatenations, then either push an implicit CONCAT or finish pending
      alternations. */
  function AfterOperand(s: Stacks, next: Option<Token>): (r: Result<Stacks>)
    requires StackWellFormed(s.operands)
    ensures r.Ok? ==> StackWellFormed(r.value.operands)
  {
    if !LastInGroup(next) then Ok(s)
    else
      var s1 :- Reduced(s, {Concat});
      if CanConcatWith(next) then Ok(s1.(ops := s1.ops + [ConcatToken]))
      else Reduced(s1, {Bar})
  }

  /** One iteration of the main loop, for token `t` with lookahead `next`. */
  function Step(s: Stacks, t: Token, next: Option<Token>, gen: Generation): (r: Result<Stacks>)
    requires StackWellFormed(s.operands) && Handles(gen, t)
    ensures r.Ok? ==> StackWellFormed(r.value.operands)
  {
    var s1 :- Operate(s, t, gen);
    var s2 :- if t.kind == Bar || t.kind == LPar then Ok(s1) else AfterOperand(s1, next);
    Ok(if t.IsPosition() then s2.(stateTokens := s2.stateTokens + [t]) else s2)
  }

  /** How the main loop ends: with the final stacks, with an exception, or inside
      a getToken call that never returns normally. */
  datatype Outcome = Built(stacks: Stacks) | Threw(error: Error) | Hangs

  predicate HandlesAll(gen: Generation, ts: seq<Token>) {
    forall k :: 0 <= k < |ts| ==> Handles(gen, ts[k])
  }

  /** The main loop from token `i` on. The lookahead is read before token `i` is
      processed, so a scanner exception on token i + 1 comes first. */
  function RunFrom(ts: seq<Token>, ending: Ending, i: nat, s: Stacks, gen: Generation): Outcome
    requires i <= |ts| && StackWellFormed(s.operands) && HandlesAll(gen, ts)
    decreases |ts| - i
  {
    if i == |ts| then Built(s)
    else if i + 1 == |ts| && ending.Hanging? then Hangs
    else if i + 1 == |ts| && ending.Failing? then Threw(ending.error)
    else
      var next := if i + 1 < |ts| then Some(ts[i + 1]) else None;
      match Step(s, ts[i], next, gen)
      case Err(e) => Threw(e)
      case Ok(s') => RunFrom(ts, ending, i + 1, s', gen)
  }

  /** The builder never returns normally on this stream. */
  predicate BuildHangs(lx: Lexed, gen: Generation)
    requires HandlesAll(gen, lx.tokens)
  {
    if |lx.tokens| == 0 then lx.ending.Hanging?
    else RunFrom(lx.tokens, lx.ending, 0, EmptyStacks, gen).Hangs?
  }

  /** computeSetsAndGetStateTokens on a token stream: run the loop, then the
      closing `assert (stackedSets.size() == 1)`. */
  function Build(lx: Lexed, gen: Generation): Result<SetsAndTokens>
    requires HandlesAll(gen, lx.tokens) && !BuildHangs(lx, gen)
  {
    if |lx.tokens| == 0 then
      if lx.ending.Failing? then Err(lx.ending.error) else Err(AssertionFailed)
    else
      match RunFrom(lx.tokens, lx.ending, 0, EmptyStacks, gen)
      case Threw(e) => Err(e)
      case Built(s) =>
        if |s.operands| != 1 then Err(AssertionFailed)
        else Ok(SetsAndTokens(s.operands[0], s.stateTokens, s.notes))
  }

  // ---------------------------------------------------------------------------
  // Every token in the sets is a position token already seen

  /** The position tokens of a stream, in order: the stateTokens list. */
  function Positions(ts: seq<Token>): seq<Token> {
    if ts == [] then []
    else (if ts[0].IsPosition() then [ts[0]] else []) + Positions(ts[1..])
  }

  lemma {:induction false} PositionsAppend(a: seq<Token>, b: seq<Token>)
    ensures Positions(a + b) == Positions(a) + Positions(b)
    decreases |a|
  {
    if a == [] {
      assert a + b == b;
    } else {
      assert (a + b)[1..] == a[1..] + b;
      PositionsAppend(a[1..], b);
    }
  }

  /** The position tokens are those whose ids the scanner's position sequence
      lists. */
  lemma {:induction false} PositionsIds(ts: seq<Token>)
    ensures |Positions(ts)| == |PositionIds(ts)|
    ensures forall k :: 0 <= k < |Positions(ts)| ==> Positions(ts)[k].id == PositionIds(ts)[k] && Positions(ts)[k].IsPosition()
    decreases |ts|
  {
    if ts != [] {
      PositionsIds(ts[1..]);
    }
  }

  /** Every token of every string in `xs` is among `seen`. */
  predicate Among(xs: set<TokenString>, seen: seq<Token>) {
    forall x, j :: x in xs && 0 <= j < |x.tokens| ==> x.tokens[j] in seen
  }

  predicate SetsAmong(e: Sets, seen: seq<Token>) {
    Among(e.p, seen) && Among(e.l, seen) && Among(e.d, seen) && Among(e.f, seen)
  }

  predicate StackAmong(stack: seq<Sets>, seen: seq<Token>) {
    forall k :: 0 <= k < |stack| ==> SetsAmong(stack[k], seen)
  }

  /** Concatenation only rearranges the tokens of its operands. */
  lemma ConcatAmong(prefixes: set<TokenString>, suffixes: set<TokenString>, t: Token, seen: seq<Token>)
    requires Among(prefixes, seen) && Among(suffixes, seen)
    ensures Among(ConcatAll(prefixes, suffixes), seen)
    ensures Among(ConcatAllTagged(prefixes, suffixes, t), seen)
  {
    forall z, j | z in ConcatAll(prefixes, suffixes) + ConcatAllTagged(prefixes, suffixes, t) && 0 <= j < |z.tokens|
      ensures z.tokens[j] in seen
    {
      var x, y :| x in prefixes && y in suffixes && z.tokens == x.tokens + y.tokens;
      if j < |x.tokens| {
        assert z.tokens[j] == x.tokens[j];
      } else {
        assert z.tokens[j] == y.tokens[j - |x.tokens|];
      }
    }
  }

  /** The rules build their sets from the tokens of their operands. */
  lemma RulesAmong(e: Sets, f: Sets, t: Token, seen: seq<Token>)
    requires SetsAmong(e, seen) && SetsAmong(f, seen)
    ensures SetsAmong(AltRule(e, f), seen) && SetsAmong(ConcatRule(e, f, t), seen)
    ensures SetsAmong(StarRule(e, t), seen)
    ensures t.range.Some? ==> SetsAmong(CounterRule(e, t), seen)
  {
    ConcatAmong(e.l, f.p, t, seen);
    ConcatAmong(e.l, f.l, t, seen);
    ConcatAmong(e.d, f.l, t, seen);
    ConcatAmong(e.d, f.p, t, seen);
    ConcatAmong(e.d, e.p, t, seen);
    assert Among({Epsilon}, seen);
    if t.range.Some? {
      ConcatAmong(e.d, e.p, RelaxedToken(e, t), seen);
    }
  }

  /** Replacing the two top operands by sets among `seen` keeps the stack among it. */
  lemma PopTwoAmong(stack: seq<Sets>, e: Sets, seen: seq<Token>)
    requires |stack| >= 2 && StackAmong(stack, seen) && SetsAmong(e, seen)
    ensures StackAmong(stack[..|stack| - 2] + [e], seen)
  {
    var r := stack[..|stack| - 2] + [e];
    forall k | 0 <= k < |r| ensures SetsAmong(r[k], seen) {
      if k < |stack| - 2 {
        assert r[k] == stack[k];
      }
    }
  }

  lemma AppliedAmong(s: Stacks, seen: seq<Token>)
    requires |s.ops| > 0 && StackWellFormed(s.operands) && StackAmong(s.operands, seen) && Applied(s).Ok?
    ensures StackAmong(Applied(s).value.operands, seen)
  {
    var n := |s.operands|;
    var op, f, e := Last(s.ops), s.operands[n - 1], s.operands[n - 2];
    var combined :=
      if op.kind == Bar then AltRule(e, f)
      else if op.kind == Concat then ConcatRule(e, f, op)
      else NoSets;
    assert SetsAmong(combined, seen) by {
      assert SetsAmong(e, seen) && SetsAmong(f, seen);
      RulesAmong(e, f, op, seen);
    }
    PopTwoAmong(s.operands, combined, seen);
    assert Applied(s).value.operands == s.operands[..n - 2] + [combined];
  }

  lemma ReducedAmong(s: Stacks, kinds: set<TokenType>, seen: seq<Token>)
    requires StackWellFormed(s.operands) && StackAmong(s.operands, seen) && Reduced(s, kinds).Ok?
    ensures StackAmong(Reduced(s, kinds).value.operands, seen)
    decreases |s.ops|
  {
    if |s.ops| > 0 && Last(s.ops).kind in kinds {
      AppliedAmong(s, seen);
      ReducedAmong(Applied(s).value, kinds, seen);
    }
  }

  lemma ClosedAmong(s: Stacks, seen: seq<Token>)
    requires StackWellFormed(s.operands) && StackAmong(s.operands, seen) && Closed(s).Ok?
    ensures StackAmong(Closed(s).value.operands, seen)
    decreases |s.ops|
  {
    if |s.ops| > 0 && Last(s.ops).kind != LPar {
      AppliedAmong(s, seen);
      ClosedAmong(Applied(s).value, seen);
    }
  }

  /** The first switch keeps the position tokens and, once the current token is
      counted as seen, keeps every set among them. */
  lemma OperateAmong(s: Stacks, t: Token, gen: Generation, seen: seq<Token>)
    requires StackWellFormed(s.operands) && Handles(gen, t) && Operate(s, t, gen).Ok?
    requires StackAmong(s.operands, seen) && (t.IsPosition() ==> t in seen)
    ensures StackAmong(Operate(s, t, gen).value.operands, seen)
    ensures Operate(s, t, gen).value.stateTokens == s.stateTokens
  {
    match t.kind
    case RPar => ClosedAmong(s, seen);
    case Counter => QuantifierAmong(s, t, seen);
    case Star => QuantifierAmong(s, t, seen);
    case Char =>
      assert SetsAmong(CharRule(t), seen);
    case CharClass =>
      assert SetsAmong(CharRule(t), seen);
    case Bar =>
      ReducedAmong(s, AllKinds - {LPar}, seen);
    case _ =>
  }

  /** Replacing the top operand by sets among `seen` keeps the stack among it. */
  lemma ReplaceTopAmong(stack: seq<Sets>, e: Sets, seen: seq<Token>)
    requires |stack| > 0 && StackAmong(stack, seen) && SetsAmong(e, seen)
    ensures StackAmong(stack[..|stack| - 1] + [e], seen)
  {
    var r := stack[..|stack| - 1] + [e];
    forall k | 0 <= k < |r| ensures SetsAmong(r[k], seen) {
      if k < |stack| - 1 {
        assert r[k] == stack[k];
      }
    }
  }

  /** The COUNTER and STAR cases replace the top operand by sets of its tokens. */
  lemma QuantifierAmong(s: Stacks, t: Token, seen: seq<Token>)
    requires StackWellFormed(s.operands) && StackAmong(s.operands, seen)
    ensures CounterStep(s, t).Ok? ==> StackAmong(CounterStep(s, t).value.operands, seen)
    ensures StarStep(s, t).Ok? ==> StackAmong(StarStep(s, t).value.operands, seen)
  {
    if |s.operands| > 0 {
      var e := Last(s.operands);
      assert SetsAmong(e, seen);
      RulesAmong(e, e, t, seen);
      ReplaceTopAmong(s.operands, StarRule(e, t), seen);
      if t.range.Some? {
        ReplaceTopAmong(s.operands, CounterRule(e, t), seen);
      }
    }
  }

  lemma AfterOperandAmong(s: Stacks, next: Option<Token>, seen: seq<Token>)
    requires StackWellFormed(s.operands) && StackAmong(s.operands, seen) && AfterOperand(s, next).Ok?
    ensures StackAmong(AfterOperand(s, next).value.operands, seen)
    ensures AfterOperand(s, next).value.stateTokens == s.stateTokens
  {
    if LastInGroup(next) {
      ReducedAmong(s, {Concat}, seen);
      var s1 := Reduced(s, {Concat}).value;
      if !CanConcatWith(next) {
        ReducedAmong(s1, {Bar}, seen);
      }
    }
  }

  /** A loop pass records its token when it is a position, and keeps every set
      among the positions recorded. */
  lemma StepAmong(s: Stacks, t: Token, next: Option<Token>, gen: Generation)
    requires StackWellFormed(s.operands) && Handles(gen, t) && Step(s, t, next, gen).Ok?
    requires StackAmong(s.operands, s.stateTokens)
    ensures Step(s, t, next, gen).value.stateTokens == s.stateTokens + Positions([t])
    ensures StackAmong(Step(s, t, next, gen).value.operands, Step(s, t, next, gen).value.stateTokens)
  {
    var seen := s.stateTokens + Positions([t]);
    assert Positions([t]) == if t.IsPosition() then [t] else [];
    assert StackAmong(s.operands, seen);
    OperateAmong(s, t, gen, seen);
    var s1 := Operate(s, t, gen).value;
    if !(t.kind == Bar || t.kind == LPar) {
      AfterOperandAmong(s1, next, seen);
    }
  }

  /** From token `i` on, the loop ends with the position tokens of the whole
      stream recorded and every set made of them. */
  lemma {:induction false} RunAmong(ts: seq<Token>, ending: Ending, i: nat, s: Stacks, gen: Generation)
    requires i <= |ts| && StackWellFormed(s.operands) && HandlesAll(gen, ts)
    requires StackAmong(s.operands, s.stateTokens) && s.stateTokens == Positions(ts[..i])
    requires RunFrom(ts, ending, i, s, gen).Built?
    ensures var r := RunFrom(ts, ending, i, s, gen).stacks;
            StackWellFormed(r.operands) && StackAmong(r.operands, r.stateTokens) && r.stateTokens == Positions(ts)
    decreases |ts| - i
  {
    if i == |ts| {
      assert ts[..i] == ts;
    } else {
      var next := if i + 1 < |ts| then Some(ts[i + 1]) else None;
      var r := Step(s, ts[i], next, gen);
      assert r.Ok? && RunFrom(ts, ending, i, s, gen) == RunFrom(ts, ending, i + 1, r.value, gen);
      StepAmong(s, ts[i], next, gen);
      assert ts[..i + 1] == ts[..i] + [ts[i]];
      PositionsAppend(ts[..i], [ts[i]]);
      RunAmong(ts, ending, i + 1, r.value, gen);
    }
  }

  /** What a successful build hands to the NCA constructor: position tokens
      numbered 1, 2, 3, ... in order, and sets of the Glushkov shape made of
      those tokens. */
  lemma BuildPlaced(regex: string, gen: Generation)
    requires HandlesAll(gen, Lex(regex).tokens) && !BuildHangs(Lex(regex), gen)
    requires Build(Lex(regex), gen).Ok?
    ensures var sat := Build(Lex(regex), gen).value;
            && (forall k :: 0 <= k < |sat.stateTokens| ==> sat.stateTokens[k].id == k + 1 && sat.stateTokens[k].IsPosition())
            && WellFormed(sat.sets) && SetsAmong(sat.sets, sat.stateTokens)
  {
    var ts := Lex(regex).tokens;
    assert ts[..0] == [];
    RunAmong(ts, Lex(regex).ending, 0, EmptyStacks, gen);
    LexNumbering(regex);
    PositionsIds(ts);
  }
}
