/** The set builder as the source runs it: a stack-based loop over the scanner's
    tokens that updates an operand stack, an operator stack, the list of position
    tokens and the tokens' annotation lists in place. Each method is proved to do
    exactly what the matching function of SetBuilder computes. */
module App {
  import opened Util
  import opened Tokens
  import opened TokenStrings
  import opened GlushkovSets
  import opened Scanner
  import opened SetBuilder

  /** A method's status and new state agree with what a step function returns
      (on an exception, the state left behind is never looked at again). */
  predicate Follows(status: Result<()>, after: Stacks, expected: Result<Stacks>) {
    match expected
    case Ok(s) => status == Ok(()) && after == s
    case Err(e) => status == Err(e)
  }

  // ---------------------------------------------------------------------------
  // concat and concatAndSaveTransitionToken as nested loops

  /** concat: for each prefix, for each suffix, add their concatenation. */
  method ConcatSets(prefixes: set<TokenString>, suffixes: set<TokenString>) returns (newSet: set<TokenString>)
    ensures newSet == ConcatAll(prefixes, suffixes)
  {
    newSet := {};
    var outer := prefixes;
    while outer != {}
      invariant outer <= prefixes
      invariant newSet == ConcatAll(prefixes - outer, suffixes)
      decreases |outer|
    {
      var p :| p in outer;
      newSet := ConcatOne(newSet, p, suffixes);
      ConcatAllAddPrefix(prefixes - outer, p, suffixes);
      assert prefixes - (outer - {p}) == (prefixes - outer) + {p};
      outer := outer - {p};
    }
    assert prefixes - outer == prefixes;
  }

  /** The inner loop of concat: one prefix against every suffix. */
  method ConcatOne(newSet0: set<TokenString>, p: TokenString, suffixes: set<TokenString>) returns (newSet: set<TokenString>)
    ensures newSet == newSet0 + ConcatAll({p}, suffixes)
  {
    newSet := newSet0;
    var inner := suffixes;
    while inner != {}
      invariant inner <= suffixes
      invariant newSet == newSet0 + ConcatAll({p}, suffixes - inner)
      decreases |inner|
    {
      var s :| s in inner;
      ConcatAllAddSuffix(p, suffixes - inner, s);
      assert suffixes - (inner - {s}) == (suffixes - inner) + {s};
      newSet := newSet + {Concatenate(p, s)};
      inner := inner - {s};
    }
    assert suffixes - inner == suffixes;
  }

  /** concatAndSaveTransitionToken: the same loops, each pair tagged. */
  method ConcatAndSaveTransitionToken(prefixes: set<TokenString>, suffixes: set<TokenString>, transitionToken: Token)
    returns (newSet: set<TokenString>)
    ensures newSet == ConcatAllTagged(prefixes, suffixes, transitionToken)
  {
    newSet := {};
    var outer := prefixes;
    while outer != {}
      invariant outer <= prefixes
      invariant newSet == ConcatAllTagged(prefixes - outer, suffixes, transitionToken)
      decreases |outer|
    {
      var p :| p in outer;
      newSet := TagOne(newSet, p, suffixes, transitionToken);
      TaggedAddPrefix(prefixes - outer, p, suffixes, transitionToken);
      assert prefixes - (outer - {p}) == (prefixes - outer) + {p};
      outer := outer - {p};
    }
    assert prefixes - outer == prefixes;
  }

  /** The inner loop of concatAndSaveTransitionToken. */
  method TagOne(newSet0: set<TokenString>, p: TokenString, suffixes: set<TokenString>, transitionToken: Token)
    returns (newSet: set<TokenString>)
    ensures newSet == newSet0 + ConcatAllTagged({p}, suffixes, transitionToken)
  {
    newSet := newSet0;
    var inner := suffixes;
    while inner != {}
      invariant inner <= suffixes
      invariant newSet == newSet0 + ConcatAllTagged({p}, suffixes - inner, transitionToken)
      decreases |inner|
    {
      var s :| s in inner;
      TaggedAddSuffix(p, suffixes - inner, s, transitionToken);
      assert suffixes - (inner - {s}) == (suffixes - inner) + {s};
      newSet := newSet + {ConcatenateTagged(p, s, transitionToken)};
      inner := inner - {s};
    }
    assert suffixes - inner == suffixes;
  }

  lemma ConcatAllAddPrefix(done: set<TokenString>, p: TokenString, suffixes: set<TokenString>)
    ensures ConcatAll(done + {p}, suffixes) == ConcatAll(done, suffixes) + ConcatAll({p}, suffixes)
  {
  }

  lemma ConcatAllAddSuffix(p: TokenString, done: set<TokenString>, s: TokenString)
    ensures ConcatAll({p}, done + {s}) == ConcatAll({p}, done) + {Concatenate(p, s)}
  {
  }

  lemma TaggedAddPrefix(done: set<TokenString>, p: TokenString, suffixes: set<TokenString>, t: Token)
    ensures ConcatAllTagged(done + {p}, suffixes, t) == ConcatAllTagged(done, suffixes, t) + ConcatAllTagged({p}, suffixes, t)
  {
  }

  lemma TaggedAddSuffix(p: TokenString, done: set<TokenString>, s: TokenString, t: Token)
    ensures ConcatAllTagged({p}, done + {s}, t) == ConcatAllTagged({p}, done, t) + {ConcatenateTagged(p, s, t)}
  {
  }

  // ---------------------------------------------------------------------------
  // The annotation loops

  /** `minID` after `int minID = Integer.MAX_VALUE` and a loop lowering it to
      every id of `ids`. */
  predicate IsMinFrom(minID: int, ids: set<int>) {
    (minID == Int32Max || minID in ids) && minID <= Int32Max && forall i :: i in ids ==> minID <= i
  }

  /** `maxID` after `int maxID = -3` and a loop raising it to every id of `ids`. */
  predicate IsMaxFrom(maxID: int, ids: set<int>) {
    (maxID == -3 || maxID in ids) && -3 <= maxID && forall i :: i in ids ==> i <= maxID
  }

  /** One more id taken into the running minimum and maximum. */
  lemma ExtremesOneMore(minID: int, maxID: int, ids: set<int>, id: int)
    requires IsMinFrom(minID, ids) && IsMaxFrom(maxID, ids)
    ensures IsMinFrom(if minID > id then id else minID, ids + {id})
    ensures IsMaxFrom(if maxID < id then id else maxID, ids + {id})
  {
  }

  /** The test `minID <= t.id && t.id <= maxID` of the loop over stateTokens is the
      span predicate of the specification. */
  lemma SpanTest(minID: int, maxID: int, pIds: set<int>, dIds: set<int>, id: int)
    requires IsMinFrom(minID, pIds) && IsMaxFrom(maxID, dIds)
    ensures (minID <= id && id <= maxID) == InCounterSpan(id, pIds, dIds)
  {
    if minID <= id && minID != Int32Max {
      assert minID in pIds && minID <= id;
    }
    if id <= maxID && maxID != -3 {
      assert maxID in dIds && id <= maxID;
    }
  }

  /** Taking one more single position out of the unvisited part of a set adds its
      token (and id) to those visited, and that token was not visited before. */
  lemma VisitOneMore(xs: set<TokenString>, rest: set<TokenString>, x: TokenString)
    requires PositionStrings(xs) && rest <= xs && x in rest
    ensures FirstTokens(xs - (rest - {x})) == FirstTokens(xs - rest) + {x.tokens[0]}
    ensures FirstIds(xs - (rest - {x})) == FirstIds(xs - rest) + {x.tokens[0].id}
    ensures x.tokens[0] !in FirstTokens(xs - rest)
  {
    assert xs - (rest - {x}) == (xs - rest) + {x};
    forall y | y in xs - rest ensures y.tokens[0] != x.tokens[0] {
      assert y.tokens == [y.tokens[0]] && x.tokens == [x.tokens[0]];
      assert y != x;
    }
  }

  /** Annotating one more key is one more map update. */
  lemma AnnotateOneMore(notes: map<Token, Notes>, keys: set<Token>, t: Token, note: Note)
    requires t !in keys
    ensures Annotate(notes, keys + {t}, note)
            == Annotate(notes, keys, note)[t := AddNote(NotesOf(Annotate(notes, keys, note), t), note)]
  {
    var n := Annotate(notes, keys, note);
    assert NotesOf(n, t) == NotesOf(notes, t);
    var a := Annotate(notes, keys + {t}, note);
    var b := n[t := AddNote(NotesOf(n, t), note)];
    assert a.Keys == b.Keys;
    forall u | u in a.Keys ensures a[u] == b[u] {
      assert NotesOf(a, u) == a[u] && NotesOf(b, u) == b[u];
    }
  }

  /** The annotation step of the span loop, one state token at a time. */
  lemma AnnotateSpanOneMore(notes: map<Token, Notes>, ts: seq<Token>, k: nat, pIds: set<int>, dIds: set<int>, note: Note)
    requires k < |ts|
    ensures var n := AnnotateSpan(notes, ts[..k], pIds, dIds, note);
            AnnotateSpan(notes, ts[..k + 1], pIds, dIds, note)
            == if InCounterSpan(ts[k].id, pIds, dIds) then n[ts[k] := AddNote(NotesOf(n, ts[k]), note)] else n
  {
    assert ts[..k + 1][..k] == ts[..k];
  }

  // ---------------------------------------------------------------------------
  // The builder's state and the loop body

  /** The locals of computeSetsAndGetStateTokens, together with the annotation
      lists the source keeps inside the tokens. */
  class Builder {
    var stackedSets: seq<Sets>
    var ops: seq<Token>
    var stateTokens: seq<Token>
    var notes: map<Token, Notes>

    function Value(): Stacks
      reads this
    {
      Stacks(stackedSets, ops, stateTokens, notes)
    }

    /** Every Sets on the operand stack has the Glushkov shape. */
    ghost predicate Valid()
      reads this
    {
      StackWellFormed(stackedSets)
    }

    /** Empty stacks, no state tokens, no annotations. */
    constructor ()
      ensures Valid() && Value() == EmptyStacks
    {
      stackedSets, ops, stateTokens, notes := [], [], [], map[];
    }

    /** The loops over D and P in computeSetsForCounter and computeSetsForStar:
        append the note to each position token, tracking the least and the
        largest id. */
    method AnnotateEach(xs: set<TokenString>, note: Note) returns (minID: int, maxID: int)
      requires PositionStrings(xs)
      modifies this`notes
      ensures notes == Annotate(old(notes), FirstTokens(xs), note)
      ensures IsMinFrom(minID, FirstIds(xs)) && IsMaxFrom(maxID, FirstIds(xs))
    {
      ghost var notes0 := notes;
      minID, maxID := Int32Max, -3;
      var rest := xs;
      assert xs - rest == {};
      while rest != {}
        invariant rest <= xs
        invariant notes == Annotate(notes0, FirstTokens(xs - rest), note)
        invariant IsMinFrom(minID, FirstIds(xs - rest)) && IsMaxFrom(maxID, FirstIds(xs - rest))
        decreases |rest|
      {
        var ts :| ts in rest;
        // the source's `break` on an empty string never fires: xs holds single positions
        var t := ts.tokens[0];
        VisitOneMore(xs, rest, ts);
        AnnotateOneMore(notes0, FirstTokens(xs - rest), t, note);
        ExtremesOneMore(minID, maxID, FirstIds(xs - rest), t.id);
        notes := notes[t := AddNote(NotesOf(notes, t), note)];
        if minID > t.id {
          minID := t.id;
        }
        if maxID < t.id {
          maxID := t.id;
        }
        rest := rest - {ts};
      }
      assert xs - rest == xs;
    }

    /** The loop over stateTokens: every state token whose id lies between minID
        and maxID gets the note. */
    method AnnotateSpanLoop(minID: int, maxID: int, ghost pIds: set<int>, ghost dIds: set<int>, note: Note)
      requires IsMinFrom(minID, pIds) && IsMaxFrom(maxID, dIds)
      modifies this`notes
      ensures notes == AnnotateSpan(old(notes), stateTokens, pIds, dIds, note)
    {
      ghost var notes0 := notes;
      var k := 0;
      while k < |stateTokens|
        invariant 0 <= k <= |stateTokens|
        invariant notes == AnnotateSpan(notes0, stateTokens[..k], pIds, dIds, note)
      {
        var t := stateTokens[k];
        AnnotateSpanOneMore(notes0, stateTokens, k, pIds, dIds, note);
        SpanTest(minID, maxID, pIds, dIds, t.id);
        if minID <= t.id && t.id <= maxID {
          notes := notes[t := AddNote(NotesOf(notes, t), note)];
        }
        k := k + 1;
      }
      assert stateTokens[..k] == stateTokens;
    }

    /** computeSetsForCounter. The source appends the shared range object before it
        may relax its lower bound; here the relaxed value is settled first and
        appended everywhere, which is what every list ends up referring to. */
    method ComputeSetsForCounter(token: Token) returns (r: Result<()>)
      requires Valid()
      modifies this
      ensures Valid() && Follows(r, Value(), CounterStep(old(Value()), token))
    {
      ghost var notes0 := notes;
      if |stackedSets| == 0 {
        return Err(EmptyStack);
      }
      var oldSets := Last(stackedSets);
      stackedSets := stackedSets[..|stackedSets| - 1];
      if token.range.None? {
        return Err(NullValue);
      }
      var range := token.range.value;
      var l: set<TokenString>;
      if range.lowerBound <= 0 {
        l := {Epsilon};
      } else {
        l := oldSets.l;
        if Epsilon in l {
          range := range.(lowerBound := 0);
        }
      }
      var counterToken := token.(range := Some(range));
      var _, maxID := AnnotateEach(oldSets.d, Incremented(range));
      var f := oldSets.f;
      if range.upperBound >= 2 {
        var loops := ConcatAndSaveTransitionToken(oldSets.d, oldSets.p, counterToken);
        f := f + loops;
      }
      var minID, _ := AnnotateEach(oldSets.p, Initialized(range));
      AnnotateSpanLoop(minID, maxID, FirstIds(oldSets.p), FirstIds(oldSets.d), Associated(range));
      CounterRuleMeaning(oldSets, token);
      assert range == RelaxedRange(oldSets, token.range.value);
      assert Sets(oldSets.p, l, oldSets.d, f) == CounterRule(oldSets, token);
      assert notes == CounterNotes(notes0, oldSets, range, stateTokens);
      stackedSets := stackedSets + [Sets(oldSets.p, l, oldSets.d, f)];
      r := Ok(());
    }

    /** computeSetsForStar. */
    method ComputeSetsForStar(token: Token) returns (r: Result<()>)
      requires Valid()
      modifies this
      ensures Valid() && Follows(r, Value(), StarStep(old(Value()), token))
    {
      if |stackedSets| == 0 {
        return Err(EmptyStack);
      }
      var oldSets := Last(stackedSets);
      stackedSets := stackedSets[..|stackedSets| - 1];
      var _, _ := AnnotateEach(oldSets.d, StarEnding(token));
      var loops := ConcatAndSaveTransitionToken(oldSets.d, oldSets.p, token);
      StarRuleMeaning(oldSets, token);
      stackedSets := stackedSets + [Sets(oldSets.p, {Epsilon}, oldSets.d, oldSets.f + loops)];
      r := Ok(());
    }

    /** computeSetsForChar. */
    method ComputeSetsForChar(token: Token)
      requires Valid() && token.IsPosition()
      modifies this`stackedSets
      ensures Valid() && Value() == old(Value()).(operands := old(stackedSets) + [CharRule(token)])
    {
      var letter := Single(token);
      stackedSets := stackedSets + [Sets({letter}, {}, {letter}, {})];
    }

    /** applyOperation. */
    method ApplyOperation() returns (r: Result<()>)
      requires Valid() && |ops| > 0
      modifies this
      ensures Valid() && Follows(r, Value(), Applied(old(Value())))
    {
      var op := Last(ops);
      ops := ops[..|ops| - 1];
      if |stackedSets| < 2 {
        return Err(EmptyStack);
      }
      var f := Last(stackedSets);
      var e := stackedSets[|stackedSets| - 2];
      stackedSets := stackedSets[..|stackedSets| - 2];
      var newSets := NoSets;
      if op.kind == Bar {
        newSets := Sets(e.p + f.p, e.l + f.l, e.d + f.d, e.f + f.f);
      } else if op.kind == Concat {
        var l := ConcatSets(e.l, f.l);
        var p := ConcatSets(e.l, f.p);
        var d := ConcatSets(e.d, f.l);
        var pairs := ConcatAndSaveTransitionToken(e.d, f.p, op);
        newSets := Sets(e.p + p, l, f.d + d, e.f + f.f + pairs);
      }
      stackedSets := stackedSets + [newSets];
      r := Ok(());
    }

    /** `while (!ops.isEmpty() && ops.peek().type is one of kinds) applyOperation`. */
    method ReduceWhile(kinds: set<TokenType>) returns (r: Result<()>)
      requires Valid()
      modifies this
      ensures Valid() && Follows(r, Value(), Reduced(old(Value()), kinds))
    {
      while |ops| > 0 && Last(ops).kind in kinds
        invariant Valid() && Reduced(Value(), kinds) == Reduced(old(Value()), kinds)
        decreases |ops|
      {
        r := ApplyOperation();
        if r.Err? {
          return;
        }
      }
      r := Ok(());
    }

    /** The R_PAR case: apply operators until `(` is on top (peek throws on an
        empty stack), then pop it. */
    method CloseGroup() returns (r: Result<()>)
      requires Valid()
      modifies this
      ensures Valid() && Follows(r, Value(), Closed(old(Value())))
    {
      while |ops| == 0 || Last(ops).kind != LPar
        invariant Valid() && Closed(Value()) == Closed(old(Value()))
        decreases |ops|
      {
        if |ops| == 0 {
          return Err(EmptyStack);
        }
        r := ApplyOperation();
        if r.Err? {
          return;
        }
      }
      ops := ops[..|ops| - 1];
      r := Ok(());
    }

    /** The first switch of the loop body. */
    method Dispatch(token: Token, gen: Generation) returns (r: Result<()>)
      requires Valid() && Handles(gen, token)
      modifies this
      ensures Valid() && Follows(r, Value(), Operate(old(Value()), token, gen))
    {
      r := Ok(());
      match token.kind
      case LPar =>
        ops := ops + [token];
      case RPar =>
        r := CloseGroup();
      case Counter =>
        r := ComputeSetsForCounter(token);
      case Star =>
        r := ComputeSetsForStar(token);
      case Char =>
        ComputeSetsForChar(token);
      case CharClass =>
        ComputeSetsForChar(token);
      case Bar =>
        if |ops| > 0 && Last(ops).kind != LPar {
          return Err(AssertionFailed);
        }
        r := ReduceWhile(AllKinds - {LPar});
        if r.Err? {
          return;
        }
        ops := ops + [token];
      case _ =>
        if gen == AutomataGeneration {
          r := Err(UnsupportedToken);
        }
        // the `nca` copy prints a diagnostic and goes on
    }

    /** The second switch, for a token other than BAR and L_PAR. */
    method FinishOperand(next: Option<Token>) returns (r: Result<()>)
      requires Valid()
      modifies this
      ensures Valid() && Follows(r, Value(), AfterOperand(old(Value()), next))
    {
      r := Ok(());
      if LastInGroup(next) {
        r := ReduceWhile({Concat});
        if r.Err? {
          return;
        }
        if CanConcatWith(next) {
          ops := ops + [ConcatToken];
        } else {
          r := ReduceWhile({Bar});
        }
      }
    }

    /** One iteration of the main loop for `token`, with `next` the token read
        ahead (None for null). */
    method Process(token: Token, next: Option<Token>, gen: Generation) returns (r: Result<()>)
      requires Valid() && Handles(gen, token)
      modifies this
      ensures Valid() && Follows(r, Value(), Step(old(Value()), token, next, gen))
    {
      r := Dispatch(token, gen);
      if r.Err? {
        return;
      }
      if token.kind != Bar && token.kind != LPar {
        r := FinishOperand(next);
        if r.Err? {
          return;
        }
      }
      if token.IsPosition() {
        stateTokens := stateTokens + [token];
      }
    }
  }

  // ---------------------------------------------------------------------------
  // computeSetsAndGetStateTokens

  /** What one getToken call tells about the rest of the token stream. */
  lemma LexedSuffix(s: string, st: ScanState, rest: seq<Token>, ending: Ending)
    requires st.pos <= |s| && LexFrom(s, st) == Lexed(rest, ending)
    ensures ScanToken(s, st).End? ==> rest == [] && ending == Finished
    ensures ScanToken(s, st).Failed? ==> rest == [] && ending == Failing(ScanToken(s, st).error)
    ensures ScanToken(s, st).Diverges? ==> rest == [] && ending == Hanging
    ensures ScanToken(s, st).Next? ==>
              && |rest| > 0 && rest[0] == ScanToken(s, st).token
              && LexFrom(s, ScanToken(s, st).after) == Lexed(rest[1..], ending)
  {
    var sc := ScanToken(s, st);
    if sc.Next? {
      assert rest == [sc.token] + LexFrom(s, sc.after).tokens;
      assert rest[1..] == LexFrom(s, sc.after).tokens;
    }
  }

  /** One step of the main loop, in terms of RunFrom: the lookahead read and the
      step agree with RunFrom's unfolding. */
  lemma RunFromStep(ts: seq<Token>, ending: Ending, i: nat, s: Stacks, gen: Generation, next: Option<Token>)
    requires i < |ts| && StackWellFormed(s.operands) && HandlesAll(gen, ts)
    requires next == (if i + 1 < |ts| then Some(ts[i + 1]) else None)
    requires i + 1 == |ts| ==> ending == Finished
    ensures Step(s, ts[i], next, gen).Err? ==> RunFrom(ts, ending, i, s, gen) == Threw(Step(s, ts[i], next, gen).error)
    ensures Step(s, ts[i], next, gen).Ok? ==>
              RunFrom(ts, ending, i, s, gen) == RunFrom(ts, ending, i + 1, Step(s, ts[i], next, gen).value, gen)
  {
    assert !(i + 1 == |ts| && (ending.Hanging? || ending.Failing?));
  }

  /** computeSetsAndGetStateTokens: scan the regex token by token with one token of
      lookahead, run the loop body on each, and check that exactly one Sets is
      left. Its outcome is the Build function on the scanner's token stream,
      exceptions included. The precondition excludes the streams on which the
      source never returns normally. */
  method ComputeSetsAndGetStateTokens(regex: string, gen: Generation) returns (r: Result<SetsAndTokens>)
    requires HandlesAll(gen, Lex(regex).tokens) && !BuildHangs(Lex(regex), gen)
    ensures r == Build(Lex(regex), gen)
  {
    ghost var ts := Lex(regex).tokens;
    ghost var ending := Lex(regex).ending;
    var scanner := new MyScanner();
    scanner.InitScanner(regex);
    var first := scanner.GetToken();
    if first.Err? {
      return Err(first.error);
    }
    var token := first.value;
    var b := new Builder();
    ghost var i := 0;
    ghost var goal := RunFrom(ts, ending, 0, EmptyStacks, gen);
    LexedSuffix(regex, InitialState, ts, ending);
    while token.Some?
      invariant scanner.Valid() && scanner.s == regex && b.Valid()
      invariant 0 <= i <= |ts|
      invariant token.Some? ==> i < |ts| && token.value == ts[i]
                                && LexFrom(regex, scanner.State()) == Lexed(ts[i + 1..], ending)
      invariant token.None? ==> i == |ts| && ending == Finished
      invariant RunFrom(ts, ending, i, b.Value(), gen) == goal
      decreases |ts| - i
    {
      var next := Pass(scanner, b, regex, gen, ts, ending, i, token.value, goal);
      if next.Err? {
        return Err(next.error);
      }
      token := next.value;
      i := i + 1;
    }
    if |b.stackedSets| != 1 {
      return Err(AssertionFailed);
    }
    r := Ok(SetsAndTokens(b.stackedSets[0], b.stateTokens, b.notes));
  }

  /** One pass of the loop of computeSetsAndGetStateTokens: read the lookahead
      token, then run the loop body on `token`. The run of the whole stream
      still ends in `goal`. */
  method Pass(scanner: MyScanner, b: Builder, ghost regex: string, gen: Generation, ghost ts: seq<Token>,
              ghost ending: Ending, ghost i: nat, token: Token, ghost goal: Outcome)
    returns (r: Result<Option<Token>>)
    requires scanner.Valid() && scanner.s == regex && b.Valid() && HandlesAll(gen, ts)
    requires i < |ts| && token == ts[i] && LexFrom(regex, scanner.State()) == Lexed(ts[i + 1..], ending)
    requires RunFrom(ts, ending, i, b.Value(), gen) == goal && !goal.Hangs?
    modifies scanner, b
    ensures scanner.Valid() && scanner.s == regex && b.Valid()
    ensures r.Err? ==> goal == Threw(r.error)
    ensures r.Ok? && r.value.Some? ==> i + 1 < |ts| && r.value.value == ts[i + 1]
                                       && LexFrom(regex, scanner.State()) == Lexed(ts[i + 2..], ending)
    ensures r.Ok? && r.value.None? ==> i + 1 == |ts| && ending == Finished
    ensures r.Ok? ==> RunFrom(ts, ending, i + 1, b.Value(), gen) == goal
  {
    LexedSuffix(regex, scanner.State(), ts[i + 1..], ending);
    var lookahead := scanner.GetToken();
    if lookahead.Err? {
      return Err(lookahead.error);
    }
    var next := lookahead.value;
    assert i + 1 < |ts| ==> ts[i + 1..][1..] == ts[i + 2..];
    RunFromStep(ts, ending, i, b.Value(), gen, next);
    var status := b.Process(token, next, gen);
    if status.Err? {
      return Err(status.error);
    }
    r := Ok(next);
  }
}
