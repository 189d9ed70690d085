/** The NCA built from the Glushkov sets: one state per position token (at the
    index equal to the token's id) and a start state at index 0; an unconditional
    edge from the start state into every first position; and one typed edge for
    every F pair, its type and guard chosen by the operator that produced the
    pair. The two packages build it the same way. */
module Ncas {
  import opened Util
  import opened Counters
  import opened Tokens
  import opened TokenStrings
  import opened GlushkovSets
  import opened SetBuilder
  import opened NcaTransitions
  import opened NcaStates
  import opened Configurations
  import Scanner

  /** The token of the start state: empty symbol, id 0. */
  const StartTok: Token := NumberedToken("", 0, StartToken)

  /** Position tokens numbered 1, 2, 3, ... in order. */
  predicate Numbered(tokens: seq<Token>) {
    forall k :: 0 <= k < |tokens| ==> tokens[k].id == k + 1 && tokens[k].IsPosition()
  }

  /** Every element of `xs` is a single position among `tokens`. */
  predicate PlacedPositions(xs: set<TokenString>, tokens: seq<Token>) {
    forall x {:trigger IsPositionString(x)} :: x in xs ==> IsPositionString(x) && x.tokens[0] in tokens
  }

  /** Every element of `xs` is a tagged pair of positions among `tokens`. */
  predicate PlacedPairs(xs: set<TokenString>, tokens: seq<Token>) {
    forall x {:trigger IsPairString(x)} :: x in xs ==> IsPairString(x) && x.tokens[0] in tokens && x.tokens[1] in tokens
  }

  /** What the constructor takes from the set builder: the position tokens
      numbered 1, 2, 3, ... in order, P and D made of single positions and F of
      tagged pairs, every token in them among the position tokens. */
  predicate NcaInput(sat: SetsAndTokens) {
    && Numbered(sat.stateTokens)
    && PlacedPositions(sat.sets.p, sat.stateTokens)
    && PlacedPositions(sat.sets.d, sat.stateTokens)
    && PlacedPairs(sat.sets.f, sat.stateTokens)
  }

  /** A successful computeSetsAndGetStateTokens meets the constructor's asserts
      on the shape of P, D and F and the array indexing by token id: the
      asserts of the F loop's addForwardTransition and addBackwardTransition
      (AssertsHold) are not covered. */
  lemma BuildMeetsNcaInput(regex: string, gen: Generation)
    requires HandlesAll(gen, Scanner.Lex(regex).tokens) && !BuildHangs(Scanner.Lex(regex), gen)
    requires Build(Scanner.Lex(regex), gen).Ok?
    ensures NcaInput(Build(Scanner.Lex(regex), gen).value)
  {
    var sat := Build(Scanner.Lex(regex), gen).value;
    BuildPlaced(regex, gen);
    forall x | x in sat.sets.p + sat.sets.d ensures IsPositionString(x) && x.tokens[0] in sat.stateTokens {
      assert x.tokens[0] in sat.stateTokens;
    }
    forall x | x in sat.sets.f ensures IsPairString(x) && x.tokens[0] in sat.stateTokens && x.tokens[1] in sat.stateTokens {
      assert x.tokens[1] in sat.stateTokens;
    }
  }

  /** A state token sits at the index equal to its id. */
  lemma SlotOf(sat: SetsAndTokens, t: Token)
    requires Numbered(sat.stateTokens) && t in sat.stateTokens
    ensures 1 <= t.id <= |sat.stateTokens| && sat.stateTokens[t.id - 1] == t
  {
    var j :| 0 <= j < |sat.stateTokens| && sat.stateTokens[j] == t;
  }

  /** The token of the state at index k. */
  function SlotToken(sat: SetsAndTokens, k: int): Token
    requires 0 <= k <= |sat.stateTokens|
  {
    if k == 0 then StartTok else sat.stateTokens[k - 1]
  }

  /** The annotation lists of that token (the start token has none). */
  function SlotNotes(sat: SetsAndTokens, k: int): Notes
    requires 0 <= k <= |sat.stateTokens|
  {
    if k == 0 then NoNotes else NotesOf(sat.notes, sat.stateTokens[k - 1])
  }

  /** The start state is final when the whole expression is nullable; another
      state when its token is a last position. */
  predicate SlotFinal(sat: SetsAndTokens, k: int)
    requires 0 <= k <= |sat.stateTokens|
  {
    if k == 0 then |sat.sets.l| > 0 else Single(sat.stateTokens[k - 1]) in sat.sets.d
  }

  /** Slot k is final exactly when k is the id of a last position: the array
      slot the D loop fills is the one the stateTokens loop then skips. */
  lemma SlotFinalMeaning(sat: SetsAndTokens, k: int)
    requires NcaInput(sat) && 1 <= k <= |sat.stateTokens|
    ensures SlotFinal(sat, k) <==> exists x :: x in sat.sets.d && |x.tokens| >= 1 && x.tokens[0].id == k
  {
    if x :| x in sat.sets.d && |x.tokens| >= 1 && x.tokens[0].id == k {
      assert IsPositionString(x);
      SlotOf(sat, x.tokens[0]);
      assert x == Single(x.tokens[0]);
    }
    if SlotFinal(sat, k) {
      var x := Single(sat.stateTokens[k - 1]);
      assert x in sat.sets.d && x.tokens[0].id == k;
    }
  }

  // ---------------------------------------------------------------------------
  // The transitions the constructor adds

  /** List.contains with CounterRange.equals, which compares ids. */
  predicate HasId(rs: seq<CounterRange>, id: int) {
    exists k :: 0 <= k < |rs| && rs[k].id == id
  }

  /** List.indexOf with CounterRange.equals: the first index with that id. */
  function IndexOfId(rs: seq<CounterRange>, id: int): (k: nat)
    requires HasId(rs, id)
    ensures k < |rs| && rs[k].id == id
    ensures forall j :: 0 <= j < k ==> rs[j].id != id
    decreases |rs|
  {
    if rs[0].id == id then 0
    else
      assert HasId(rs[1..], id) by {
        var k :| 0 <= k < |rs| && rs[k].id == id;
        assert rs[1..][k - 1].id == id;
      }
      1 + IndexOfId(rs[1..], id)
  }

  /** Where the loop of a backward star transition stops: at the first counter
      whose id exceeds the star's, or at the end of the list. */
  function FirstAbove(rs: seq<CounterRange>, id: int): (k: nat)
    ensures k <= |rs|
    ensures forall j :: 0 <= j < k ==> rs[j].id <= id
    ensures k < |rs| ==> rs[k].id > id
    decreases |rs|
  {
    if rs == [] || rs[0].id > id then 0 else 1 + FirstAbove(rs[1..], id)
  }

  /** addForwardTransition: a forward edge out of a position whose last
      quantifier is a counter or a star is guarded by all the counters it
      increments; otherwise the position must have no counters and no stars and
      the edge is unconditional. */
  function ForwardTransition(srcNotes: Notes, dest: int): Result<NcaTransition> {
    if LastQuantifierIsCounter(srcNotes) || LastQuantifierIsStar(srcNotes) then
      Ok(NcaTransition(srcNotes.incremented, ConditionalForward, dest, None))
    else if srcNotes.incremented != [] || srcNotes.stars != [] then Err(AssertionFailed)
    else Ok(NcaTransition([], Unconditional, dest, None))
  }

  /** addBackwardTransition: a counter's loop is guarded by the source's
      incremented counters up to and including that counter (which both ends
      must know); a star's loop by those up to the first counter opened after
      the star. A tag with neither gives no edge. */
  function BackwardTransition(srcNotes: Notes, destInit: seq<CounterRange>, dest: int, tag: Token)
    : Result<Option<NcaTransition>>
  {
    if tag.range.Some? then
      var c := tag.range.value;
      if !HasId(srcNotes.incremented, c.id) || !HasId(destInit, c.id) then Err(AssertionFailed)
      else
        var deps := srcNotes.incremented[..IndexOfId(srcNotes.incremented, c.id) + 1];
        Ok(Some(NcaTransition(deps, ConditionalBackwardCounter, dest, Some(tag))))
    else if tag.kind == Star then
      var deps := srcNotes.incremented[..FirstAbove(srcNotes.incremented, tag.id)];
      Ok(Some(NcaTransition(deps, ConditionalBackwardStar, dest, Some(tag))))
    else Ok(None)
  }

  /** The switch over an F pair's tag. */
  function FollowTransition(notes: map<Token, Notes>, x: TokenString): Result<Option<NcaTransition>>
    requires IsPairString(x)
  {
    var tag := x.tag.value;
    if tag.kind == Concat then
      var t :- ForwardTransition(NotesOf(notes, x.tokens[0]), x.tokens[1].id);
      Ok(Some(t))
    else if tag.kind == Star || tag.kind == Counter then
      BackwardTransition(NotesOf(notes, x.tokens[0]), NotesOf(notes, x.tokens[1]).initialized, x.tokens[1].id, tag)
    else Ok(None)
  }

  /** An edge of the NCA: a transition added to state `src` under `symbol`. */
  datatype Edge = Edge(src: int, symbol: string, transition: NcaTransition)

  /** addTransition(states[0], states[destID]) for a P element. */
  function StartEdge(x: TokenString): Edge
    requires |x.tokens| >= 1
  {
    Edge(0, x.tokens[0].symbol, NcaTransition([], Unconditional, x.tokens[0].id, None))
  }

  function StartEdges(ps: set<TokenString>): set<Edge> {
    set x | x in ps && |x.tokens| >= 1 :: StartEdge(x)
  }

  /** The edge an F pair adds, if any. */
  function FollowEdge(notes: map<Token, Notes>, x: TokenString): Option<Edge>
    requires IsPairString(x)
  {
    match FollowTransition(notes, x)
    case Ok(Some(t)) => Some(Edge(x.tokens[0].id, x.tokens[1].symbol, t))
    case _ => None
  }

  function FollowEdges(notes: map<Token, Notes>, fs: set<TokenString>): set<Edge> {
    set x | x in fs && IsPairString(x) && FollowEdge(notes, x).Some? :: FollowEdge(notes, x).value
  }

  /** None of the constructor's asserts about F pairs fails. */
  predicate AssertsHold(sat: SetsAndTokens) {
    forall x {:trigger IsPairString(x)} :: x in sat.sets.f && IsPairString(x) ==> FollowTransition(sat.notes, x).Ok?
  }

  /** All the edges of the NCA, or the AssertionError the F loop throws. */
  function NcaEdges(sat: SetsAndTokens): Result<set<Edge>> {
    if AssertsHold(sat) then Ok(StartEdges(sat.sets.p) + FollowEdges(sat.notes, sat.sets.f))
    else Err(AssertionFailed)
  }

  /** The transition table of state k, given the edges added so far. */
  function Table(edges: set<Edge>, k: int): TransitionTable {
    map s | s in Symbols(edges, k) :: Filed(edges, k, s)
  }

  /** The symbols under which state k has edges. */
  function Symbols(edges: set<Edge>, k: int): set<string> {
    set e | e in edges && e.src == k :: e.symbol
  }

  /** The transitions of state k under `symbol`. */
  function Filed(edges: set<Edge>, k: int, symbol: string): set<NcaTransition> {
    set e | e in edges && e.src == k && e.symbol == symbol :: e.transition
  }

  /** Adding an edge changes only its source's table, as addTransition does. */
  lemma TableAdd(edges: set<Edge>, e: Edge, k: int)
    ensures Table(edges + {e}, k) == if k == e.src then WithTransition(Table(edges, k), e.symbol, e.transition) else Table(edges, k)
  {
    var a := Table(edges + {e}, k);
    var b := if k == e.src then WithTransition(Table(edges, k), e.symbol, e.transition) else Table(edges, k);
    if k == e.src {
      assert Symbols(edges + {e}, k) == Symbols(edges, k) + {e.symbol};
      forall s | s in a ensures a[s] == b[s] {
        if s == e.symbol {
          assert Filed(edges + {e}, k, s) == Filed(edges, k, s) + {e.transition};
        } else {
          assert Filed(edges + {e}, k, s) == Filed(edges, k, s);
        }
      }
    } else {
      assert Symbols(edges + {e}, k) == Symbols(edges, k);
      forall s | s in a ensures a[s] == b[s] {
        assert Filed(edges + {e}, k, s) == Filed(edges, k, s);
      }
    }
  }

  /** Every transition in a table comes from an edge. */
  lemma TableEdge(edges: set<Edge>, k: int, symbol: string, t: NcaTransition)
    requires symbol in Table(edges, k) && t in Table(edges, k)[symbol]
    ensures Edge(k, symbol, t) in edges
  {
  }

  // ---------------------------------------------------------------------------
  // The automaton as a value

  /** What a state holds: its token, the token's lists, finality and the table. */
  datatype StateView = StateView(token: Token, notes: Notes, isFinal: bool, transitions: TransitionTable)

  /** The NCA the constructor builds from `sat`, as a sequence indexed by id. */
  function SpecView(sat: SetsAndTokens, edges: set<Edge>): (v: seq<StateView>)
    ensures |v| == |sat.stateTokens| + 1
  {
    seq(|sat.stateTokens| + 1, k requires 0 <= k <= |sat.stateTokens| =>
      StateView(SlotToken(sat, k), SlotNotes(sat, k), SlotFinal(sat, k), Table(edges, k)))
  }

  /** Every transition leads to a state of the automaton. */
  predicate ViewWellFormed(v: seq<StateView>) {
    && |v| >= 1
    && forall k, sym, t :: 0 <= k < |v| && sym in v[k].transitions && t in v[k].transitions[sym] ==> 0 <= t.dest < |v|
  }

  /** evaluateFinalizationFunction: a final state whose incremented counters are
      all in range (a counter without a value makes the unboxing throw). */
  function Finalization(v: seq<StateView>, c: Configuration): Result<bool>
    requires 0 <= c.state < |v|
  {
    if v[c.state].isFinal then AllInRange(v[c.state].notes.incremented, c.counterValues) else Ok(false)
  }

  /** A transition whose guard or update throws. */
  predicate Fails(v: seq<StateView>, t: NcaTransition, m: CounterValues)
    requires 0 <= t.dest < |v|
  {
    Allowed(t, m).Err? || (Allowed(t, m) == Ok(true) && Updated(t, v[t.dest].notes.initialized, m).Err?)
  }

  function AllowedAmong(ts: set<NcaTransition>, m: CounterValues): set<NcaTransition> {
    set t | t in ts && Allowed(t, m) == Ok(true)
  }

  /** The configurations the allowed transitions among `ts` lead to. */
  function Reached(v: seq<StateView>, ts: set<NcaTransition>, m: CounterValues): set<Configuration>
    requires forall t :: t in ts ==> 0 <= t.dest < |v| && !Fails(v, t, m)
  {
    set t | t in ts && Allowed(t, m) == Ok(true) :: (assert !Fails(v, t, m); Follow(v, t, m))
  }

  /** The configuration an allowed transition leads to. */
  function Follow(v: seq<StateView>, t: NcaTransition, m: CounterValues): Configuration
    requires 0 <= t.dest < |v| && Updated(t, v[t.dest].notes.initialized, m).Ok?
  {
    Configuration(t.dest, Updated(t, v[t.dest].notes.initialized, m).value)
  }

  /** `d` is at one of the `n` states. */
  predicate StateIn(d: Configuration, n: int) {
    0 <= d.state < n
  }

  /** evaluateTransitionFunction on a symbol the state has: the configurations
      of its allowed transitions, or None when one of the transitions throws. */
  function Moves(v: seq<StateView>, c: Configuration, symbol: string): (r: Option<set<Configuration>>)
    requires ViewWellFormed(v) && 0 <= c.state < |v| && symbol in v[c.state].transitions
    ensures r.Some? ==> forall d :: d in r.value ==> StateIn(d, |v|)
  {
    var ts := v[c.state].transitions[symbol];
    if exists t :: t in ts && Fails(v, t, c.counterValues) then None
    else Some(Reached(v, ts, c.counterValues))
  }

  /** getRootConfig: the start state with no counter values. */
  const RootConfig: Configuration := Configuration(0, map[])

  // ---------------------------------------------------------------------------
  // Filling the array of states

  /** `st` is the state the constructor makes for slot k (the fields compared
      are constants, so this reads nothing). */
  predicate MadeFor(sat: SetsAndTokens, st: NcaState?, k: int)
    requires 0 <= k <= |sat.stateTokens|
  {
    && st != null && st.token == SlotToken(sat, k) && st.notes == SlotNotes(sat, k)
    && st.isFinal == SlotFinal(sat, k) && st.id == k && st.isStart == (k == 0)
  }

  /** Slot k of `a` holds the state the constructor makes for it. */
  ghost predicate SlotHolds(sat: SetsAndTokens, a: array<NcaState?>, k: int)
    requires a.Length == |sat.stateTokens| + 1 && 0 <= k < a.Length
    reads a
  {
    MadeFor(sat, a[k], k)
  }

  ghost predicate FilledSlots(sat: SetsAndTokens, a: array<NcaState?>)
    reads a
  {
    a.Length == |sat.stateTokens| + 1 && forall k :: 0 <= k < a.Length ==> SlotHolds(sat, a, k)
  }

  /** The first half of the constructor: the start state, then one state per
      last position (final), then one per remaining position. */
  method MakeStates(sat: SetsAndTokens) returns (a: array<NcaState?>)
    requires NcaInput(sat)
    ensures fresh(a) && FilledSlots(sat, a)
    ensures forall k :: 0 <= k < a.Length ==> fresh(a[k]) && a[k].transitions == map[]
  {
    var n := |sat.stateTokens| + 1;
    var id := 0;
    var isFinal := |sat.sets.l| > 0;
    a := new NcaState?[n](_ => null);
    var startToken := StartTok;
    a[id] := new NcaState(startToken, NoNotes, isFinal, startToken.id);
    AddFinalStates(sat, a);
    AddOtherStates(sat, a);
  }

  /** The D loop: a final state for every last position, at the index of its id. */
  method AddFinalStates(sat: SetsAndTokens, a: array<NcaState?>)
    requires Numbered(sat.stateTokens) && PlacedPositions(sat.sets.d, sat.stateTokens)
    requires a.Length == |sat.stateTokens| + 1
    requires forall k :: 1 <= k < a.Length ==> a[k] == null
    modifies a
    ensures a[0] == old(a[0])
    ensures forall k :: 1 <= k < a.Length ==> (a[k] != null <==> SlotFinal(sat, k))
    ensures forall k :: 1 <= k < a.Length && a[k] != null ==> fresh(a[k]) && MadeFor(sat, a[k], k) && a[k].transitions == map[]
  {
    var ds := sat.sets.d;
    ghost var done: set<TokenString> := {};
    while ds != {}
      invariant done == sat.sets.d - ds && ds <= sat.sets.d && a[0] == old(a[0])
      invariant forall k :: 1 <= k < a.Length ==> (a[k] != null <==> Single(sat.stateTokens[k - 1]) in done)
      invariant forall k :: 1 <= k < a.Length && a[k] != null ==> fresh(a[k]) && MadeFor(sat, a[k], k) && a[k].transitions == map[]
      decreases |ds|
    {
      var tokenString :| tokenString in ds;
      assert IsPositionString(tokenString) && Single(tokenString.tokens[0]) == tokenString;
      var token := tokenString.tokens[0];
      SlotOf(sat, token);
      a[token.id] := new NcaState(token, NotesOf(sat.notes, token), true, token.id);
      Take(sat.sets.d, ds, done, tokenString);
      ds := ds - {tokenString};
      done := done + {tokenString};
    }
  }

  /** The stateTokens loop: a non-final state for every position whose slot is
      still empty. */
  method AddOtherStates(sat: SetsAndTokens, a: array<NcaState?>)
    requires Numbered(sat.stateTokens) && a.Length == |sat.stateTokens| + 1
    requires a[0] != null && SlotHolds(sat, a, 0)
    requires forall k :: 1 <= k < a.Length ==> (a[k] != null <==> SlotFinal(sat, k))
    requires forall k :: 0 <= k < a.Length && a[k] != null ==> SlotHolds(sat, a, k)
    modifies a
    ensures FilledSlots(sat, a)
    ensures forall k :: 0 <= k < a.Length ==> (fresh(a[k]) || a[k] == old(a[k])) && a[k] != null
    ensures forall k :: 0 <= k < a.Length ==> a[k].transitions == (if old(a[k]) == null then map[] else old(a[k].transitions))
  {
    var id := 1;
    var i := 0;
    while i < |sat.stateTokens|
      invariant 0 <= i <= |sat.stateTokens| && id == i + 1
      invariant forall k :: 0 <= k < a.Length ==> (a[k] != null <==> (k <= i || old(a[k]) != null))
      invariant forall k :: 0 <= k < a.Length && a[k] != null ==> SlotHolds(sat, a, k)
      invariant forall k :: 0 <= k < a.Length && a[k] != null ==>
                  (fresh(a[k]) && a[k].transitions == map[] && old(a[k]) == null) || a[k] == old(a[k])
    {
      var token := sat.stateTokens[i];
      if a[id] != null {
        id := id + 1;
      } else {
        a[id] := new NcaState(token, NotesOf(sat.notes, token), false, id);
        id := id + 1;
      }
      i := i + 1;
    }
  }

  class Nca {
    const states: array<NcaState?>
    const regex: string

    ghost function StateObjects(): set<NcaState?>
      reads this, states
    {
      set k | 0 <= k < states.Length :: states[k]
    }

    /** Every slot is filled with the state whose id is its index; state 0 is
        the start state; every transition leads to a state. */
    ghost predicate Valid()
      reads this, states, StateObjects()
    {
      && states.Length >= 1
      && (forall k :: 0 <= k < states.Length ==> states[k] != null && states[k].id == k)
      && states[0].isStart
      && (forall k, sym, t :: 0 <= k < states.Length && sym in states[k].transitions && t in states[k].transitions[sym]
            ==> 0 <= t.dest < states.Length)
    }

    ghost function View(): (v: seq<StateView>)
      requires Valid()
      reads this, states, StateObjects()
      ensures |v| == states.Length
      ensures ViewWellFormed(v)
    {
      seq(states.Length, k requires 0 <= k < states.Length && states[k] != null reads this, states, StateObjects() =>
        StateView(states[k].token, states[k].notes, states[k].isFinal, states[k].transitions))
    }

    /** The tables of the states are those of `edges`. */
    ghost predicate Tables(edges: set<Edge>)
      reads this, states, StateObjects()
    {
      forall k :: 0 <= k < states.Length && states[k] != null ==> states[k].transitions == Table(edges, k)
    }

    /** NCA(setsAndTokens, regex). The asserts on the shape of P, D and F are
        discharged by NcaInput; those of the F loop are the demand NcaEdges(sat).Ok?,
        whose failure NcaEdges describes. */
    constructor(sat: SetsAndTokens, regex: string)
      requires NcaInput(sat) && NcaEdges(sat).Ok?
      ensures Valid() && fresh(states) && this.regex == regex
      ensures View() == SpecView(sat, NcaEdges(sat).value)
    {
      this.regex := regex;
      var a := MakeStates(sat);
      states := a;
      new;
      assert Tables({});
      AddStartTransitions(sat);
      AddFollowTransitions(sat);
      EdgesInRange(sat);
      forall k | 0 <= k < states.Length ensures states[k] != null && states[k].id == k {
        assert SlotHolds(sat, states, k);
      }
      assert SlotHolds(sat, states, 0);
      forall k, sym, t | 0 <= k < states.Length && sym in states[k].transitions && t in states[k].transitions[sym]
        ensures 0 <= t.dest < states.Length
      {
        TableEdge(NcaEdges(sat).value, k, sym, t);
      }
      var v := View();
      var w := SpecView(sat, NcaEdges(sat).value);
      forall k | 0 <= k < |v| ensures v[k] == w[k] {
        assert SlotHolds(sat, states, k);
      }
    }

    /** The P loop: an unconditional edge from the start state into every
        first position. */
    method AddStartTransitions(sat: SetsAndTokens)
      requires NcaInput(sat) && FilledSlots(sat, states) && Tables({})
      modifies StateObjects()
      ensures FilledSlots(sat, states) && Tables(StartEdges(sat.sets.p))
    {
      var ps := sat.sets.p;
      ghost var done: set<TokenString> := {};
      assert StartEdges(done) == {};
      while ps != {}
        invariant done == sat.sets.p - ps && ps <= sat.sets.p
        invariant FilledSlots(sat, states) && Tables(StartEdges(done))
        decreases |ps|
      {
        var tokenString :| tokenString in ps;
        AddStartTransition(sat, done, tokenString);
        Take(sat.sets.p, ps, done, tokenString);
        ps := ps - {tokenString};
        done := done + {tokenString};
      }
      assert done == sat.sets.p;
    }

    /** One pass of the P loop. */
    method AddStartTransition(sat: SetsAndTokens, ghost done: set<TokenString>, tokenString: TokenString)
      requires NcaInput(sat) && tokenString in sat.sets.p
      requires FilledSlots(sat, states) && Tables(StartEdges(done))
      modifies StateObjects()
      ensures FilledSlots(sat, states) && Tables(StartEdges(done + {tokenString}))
    {
      assert IsPositionString(tokenString);
      var destID := tokenString.tokens[0].id;
      SlotOf(sat, tokenString.tokens[0]);
      assert SlotHolds(sat, states, 0) && SlotHolds(sat, states, destID);
      ghost var before := StartEdges(done);
      AddTransition(states[0], states[destID]);
      assert StartEdges(done + {tokenString}) == before + {StartEdge(tokenString)};
      forall k | 0 <= k < states.Length && states[k] != null
        ensures states[k].transitions == Table(before + {StartEdge(tokenString)}, k)
      {
        TableAdd(before, StartEdge(tokenString), k);
        assert old(states[k].transitions) == Table(before, k);
        if k != 0 {
          assert SlotHolds(sat, states, k);
          assert states[k] != states[0];
        }
      }
    }

    /** The F loop: one edge per pair, chosen by the pair's tag. */
    method AddFollowTransitions(sat: SetsAndTokens)
      requires NcaInput(sat) && AssertsHold(sat) && FilledSlots(sat, states) && Tables(StartEdges(sat.sets.p))
      modifies StateObjects()
      ensures FilledSlots(sat, states) && Tables(StartEdges(sat.sets.p) + FollowEdges(sat.notes, sat.sets.f))
    {
      var fs := sat.sets.f;
      ghost var done: set<TokenString> := {};
      assert FollowEdges(sat.notes, done) == {};
      assert StartEdges(sat.sets.p) + FollowEdges(sat.notes, done) == StartEdges(sat.sets.p);
      while fs != {}
        invariant done == sat.sets.f - fs && fs <= sat.sets.f
        invariant FilledSlots(sat, states) && Tables(StartEdges(sat.sets.p) + FollowEdges(sat.notes, done))
        decreases |fs|
      {
        var tokenString :| tokenString in fs;
        AddFollowTransition(sat, done, tokenString);
        Take(sat.sets.f, fs, done, tokenString);
        fs := fs - {tokenString};
        done := done + {tokenString};
      }
      assert done == sat.sets.f;
    }

    /** One pass of the F loop: the switch on the pair's tag. */
    method AddFollowTransition(sat: SetsAndTokens, ghost done: set<TokenString>, tokenString: TokenString)
      requires NcaInput(sat) && AssertsHold(sat) && tokenString in sat.sets.f
      requires FilledSlots(sat, states) && Tables(StartEdges(sat.sets.p) + FollowEdges(sat.notes, done))
      modifies StateObjects()
      ensures FilledSlots(sat, states) && Tables(StartEdges(sat.sets.p) + FollowEdges(sat.notes, done + {tokenString}))
    {
      assert IsPairString(tokenString);
      var src := tokenString.tokens[0];
      var dest := tokenString.tokens[1];
      var tag := tokenString.tag.value;
      SlotOf(sat, src);
      SlotOf(sat, dest);
      assert SlotHolds(sat, states, src.id) && SlotHolds(sat, states, dest.id);
      ghost var before := StartEdges(sat.sets.p) + FollowEdges(sat.notes, done);
      ghost var r := FollowTransition(sat.notes, tokenString).value;
      ghost var after := before + if r.Some? then {Edge(src.id, dest.symbol, r.value)} else {};
      assert FollowEdge(sat.notes, tokenString) == if r.Some? then Some(Edge(src.id, dest.symbol, r.value)) else None;
      assert after == StartEdges(sat.sets.p) + FollowEdges(sat.notes, done + {tokenString});
      if tag.kind == Concat {
        AddForwardTransition(src, NotesOf(sat.notes, src), dest);
      } else if tag.kind == Star || tag.kind == Counter {
        AddBackwardTransition(src, NotesOf(sat.notes, src), dest, NotesOf(sat.notes, dest).initialized, tag);
      }
      assert states[src.id].transitions
             == if r.Some? then WithTransition(old(states[src.id].transitions), dest.symbol, r.value) else old(states[src.id].transitions);
      forall k | 0 <= k < states.Length && states[k] != null
        ensures states[k].transitions == Table(after, k)
      {
        assert old(states[k].transitions) == Table(before, k);
        if r.Some? {
          TableAdd(before, Edge(src.id, dest.symbol, r.value), k);
        } else {
          assert after == before;
        }
        if k != src.id {
          assert SlotHolds(sat, states, k);
          assert states[k] != states[src.id];
        }
      }
    }

    /** addTransition(src, dest): an unconditional edge out of the start state,
        under the symbol of the destination's token. */
    method AddTransition(src: NcaState, dest: NcaState)
      requires src.isStart
      modifies src
      ensures src.transitions == WithTransition(old(src.transitions), dest.token.symbol, NcaTransition([], Unconditional, dest.id, None))
    {
      var transition := NcaTransition([], Unconditional, dest.id, None);
      src.AddTransition(dest.token.symbol, transition);
    }

    /** addForwardTransition(src, dest), given the lists of src. */
    method AddForwardTransition(src: Token, srcNotes: Notes, dest: Token)
      requires 0 <= src.id < states.Length && 0 <= dest.id < states.Length && states[src.id] != null
      requires ForwardTransition(srcNotes, dest.id).Ok?
      modifies states[src.id]
      ensures states[src.id].transitions
              == WithTransition(old(states[src.id].transitions), dest.symbol, ForwardTransition(srcNotes, dest.id).value)
    {
      var transition;
      if LastQuantifierIsCounter(srcNotes) || LastQuantifierIsStar(srcNotes) {
        transition := NcaTransition(srcNotes.incremented, ConditionalForward, dest.id, None);
      } else {
        assert |srcNotes.incremented| == 0 && |srcNotes.stars| == 0;
        transition := NcaTransition([], Unconditional, dest.id, None);
      }
      states[src.id].AddTransition(dest.symbol, transition);
    }

    /** addBackwardTransition(src, dest, transitionToken), given the lists of src
        and the initialised list of dest. */
    method AddBackwardTransition(src: Token, srcNotes: Notes, dest: Token, destInit: seq<CounterRange>, transitionToken: Token)
      requires 0 <= src.id < states.Length && 0 <= dest.id < states.Length && states[src.id] != null
      requires BackwardTransition(srcNotes, destInit, dest.id, transitionToken).Ok?
      modifies states[src.id]
      ensures var r := BackwardTransition(srcNotes, destInit, dest.id, transitionToken).value;
              states[src.id].transitions
              == if r.Some? then WithTransition(old(states[src.id].transitions), dest.symbol, r.value)
                 else old(states[src.id].transitions)
    {
      if transitionToken.range.Some? {
        var counterToIncrement := transitionToken.range.value;
        assert HasId(srcNotes.incremented, counterToIncrement.id);
        assert HasId(destInit, counterToIncrement.id);
        var end := IndexOfId(srcNotes.incremented, counterToIncrement.id);
        var transitionCounters := srcNotes.incremented[..end + 1];
        var transition := NcaTransition(transitionCounters, ConditionalBackwardCounter, dest.id, Some(transitionToken));
        states[src.id].AddTransition(dest.symbol, transition);
      } else if transitionToken.kind == Star {
        var i := 0;
        while i < |srcNotes.incremented|
          invariant 0 <= i <= |srcNotes.incremented|
          invariant forall j :: 0 <= j < i ==> srcNotes.incremented[j].id <= transitionToken.id
        {
          if srcNotes.incremented[i].id > transitionToken.id {
            break;
          }
          i := i + 1;
        }
        assert i == FirstAbove(srcNotes.incremented, transitionToken.id);
        var transitionCounters := srcNotes.incremented[..i];
        var transition := NcaTransition(transitionCounters, ConditionalBackwardStar, dest.id, Some(transitionToken));
        states[src.id].AddTransition(dest.symbol, transition);
      }
    }

    /** evaluateFinalizationFunction(config). */
    method EvaluateFinalizationFunction(config: Configuration) returns (r: Result<bool>)
      requires Valid() && 0 <= config.state < states.Length
      ensures r == Finalization(View(), config)
    {
      var state := states[config.state];
      if state.isFinal {
        var counters := state.notes.incremented;
        assert counters[..|counters|] == counters;
        r := CheckInRange(counters, |counters|, config.counterValues);
      } else {
        r := Ok(false);
      }
    }

    /** evaluateTransitionFunction(currentConfig, symbol): one configuration per
        allowed transition on the symbol, in the set's iteration order (left
        open here). A symbol the state has no transitions for makes `get`
        return null, and the loop throws. */
    method EvaluateTransitionFunction(currentConfig: Configuration, symbol: string) returns (r: Result<seq<Configuration>>)
      requires Valid() && 0 <= currentConfig.state < states.Length
      ensures symbol !in View()[currentConfig.state].transitions ==> r == Err(NullValue)
      ensures symbol in View()[currentConfig.state].transitions ==>
                && (r.Ok? <==> Moves(View(), currentConfig, symbol).Some?)
                && (r.Ok? ==> (set c | c in r.value) == Moves(View(), currentConfig, symbol).value)
                && (r.Ok? ==> |r.value| == |AllowedAmong(View()[currentConfig.state].transitions[symbol], currentConfig.counterValues)|)
    {
      var state := states[currentConfig.state];
      ghost var v := View();
      assert v[currentConfig.state].transitions == state.transitions;
      if symbol !in state.transitions {
        return Err(NullValue);
      }
      r := Collect(v, state.transitions[symbol], currentConfig.counterValues);
    }

    /** The loop of evaluateTransitionFunction over the transitions `all` of one
        symbol, under the counter values `m`. */
    method Collect(ghost v: seq<StateView>, all: set<NcaTransition>, m: CounterValues) returns (r: Result<seq<Configuration>>)
      requires |v| == states.Length
      requires forall k :: 0 <= k < |v| ==> states[k] != null && states[k].notes == v[k].notes
      requires forall t :: t in all ==> 0 <= t.dest < |v|
      ensures r.Ok? <==> !exists t :: t in all && Fails(v, t, m)
      ensures r.Ok? ==> (set c | c in r.value) == Reached(v, all, m)
      ensures r.Ok? ==> |r.value| == |AllowedAmong(all, m)|
    {
      var ts := all;
      var configs := [];
      ghost var done: set<NcaTransition> := {};
      while ts != {}
        invariant done == all - ts && ts <= all
        invariant forall t :: t in done ==> !Fails(v, t, m)
        invariant (set c | c in configs) == Reached(v, done, m)
        invariant |configs| == |AllowedAmong(done, m)|
        decreases |ts|
      {
        var t :| t in ts;
        var allowed := IsAllowed(t, m);
        if allowed.Err? {
          assert Fails(v, t, m);
          return Err(allowed.error);
        }
        if allowed.value {
          var updated := GetUpdatedCounterValues(t, states[t.dest].notes.initialized, m);
          if updated.Err? {
            assert Fails(v, t, m);
            return Err(updated.error);
          }
          CollectStep(v, done, t, m, configs, Configuration(t.dest, updated.value));
          configs := configs + [Configuration(t.dest, updated.value)];
        } else {
          CollectSkip(v, done, t, m);
        }
        assert !Fails(v, t, m);
        Take(all, ts, done, t);
        ts := ts - {t};
        done := done + {t};
      }
      assert done == all;
      r := Ok(configs);
    }

    /** getRootConfig. */
    method GetRootConfig() returns (config: Configuration)
      ensures config == RootConfig
    {
      config := Configuration(0, map[]);
    }

    /** size(): the number of states. */
    function Size(): int
      reads this
    {
      states.Length
    }
  }

  /** One allowed transition of the loop adds its configuration. */
  lemma CollectStep(v: seq<StateView>, done: set<NcaTransition>, t: NcaTransition, m: CounterValues,
                    configs: seq<Configuration>, c: Configuration)
    requires 0 <= t.dest < |v| && t !in done
    requires forall u :: u in done ==> 0 <= u.dest < |v| && !Fails(v, u, m)
    requires Allowed(t, m) == Ok(true) && Updated(t, v[t.dest].notes.initialized, m).Ok?
    requires c == Follow(v, t, m)
    requires (set x | x in configs) == Reached(v, done, m)
    requires |configs| == |AllowedAmong(done, m)|
    ensures AllowedAmong(done + {t}, m) == AllowedAmong(done, m) + {t}
    ensures (set x | x in configs + [c]) == Reached(v, done + {t}, m)
    ensures |configs + [c]| == |AllowedAmong(done + {t}, m)|
  {
    assert AllowedAmong(done + {t}, m) == AllowedAmong(done, m) + {t};
    assert (set x | x in configs + [c]) == (set x | x in configs) + {c};
  }

  /** A transition whose guard does not hold adds no configuration. */
  lemma CollectSkip(v: seq<StateView>, done: set<NcaTransition>, t: NcaTransition, m: CounterValues)
    requires 0 <= t.dest < |v|
    requires forall u :: u in done ==> 0 <= u.dest < |v| && !Fails(v, u, m)
    requires Allowed(t, m) == Ok(false)
    ensures AllowedAmong(done + {t}, m) == AllowedAmong(done, m)
    ensures !Fails(v, t, m) && Reached(v, done + {t}, m) == Reached(v, done, m)
  {
    assert AllowedAmong(done + {t}, m) == AllowedAmong(done, m);
  }

  /** The edges connect states of the automaton, and each edge is filed under
      the symbol of its destination's token. */
  lemma EdgesInRange(sat: SetsAndTokens)
    requires NcaInput(sat) && NcaEdges(sat).Ok?
    ensures forall e :: e in NcaEdges(sat).value ==>
              && 0 <= e.src <= |sat.stateTokens| && 0 <= e.transition.dest <= |sat.stateTokens|
              && e.symbol == SlotToken(sat, e.transition.dest).symbol
  {
    forall e | e in NcaEdges(sat).value
      ensures 0 <= e.src <= |sat.stateTokens| && 0 <= e.transition.dest <= |sat.stateTokens|
      ensures e.symbol == SlotToken(sat, e.transition.dest).symbol
    {
      if e in StartEdges(sat.sets.p) {
        var x :| x in sat.sets.p && |x.tokens| >= 1 && e == StartEdge(x);
        StartEdgeInRange(sat, x);
      } else {
        var x :| x in sat.sets.f && IsPairString(x) && FollowEdge(sat.notes, x).Some? && e == FollowEdge(sat.notes, x).value;
        FollowEdgeInRange(sat, x);
      }
    }
  }

  lemma StartEdgeInRange(sat: SetsAndTokens, x: TokenString)
    requires NcaInput(sat) && x in sat.sets.p
    ensures |x.tokens| >= 1
    ensures 1 <= StartEdge(x).transition.dest <= |sat.stateTokens|
    ensures StartEdge(x).symbol == SlotToken(sat, StartEdge(x).transition.dest).symbol
  {
    assert IsPositionString(x);
    SlotOf(sat, x.tokens[0]);
  }

  lemma FollowEdgeInRange(sat: SetsAndTokens, x: TokenString)
    requires NcaInput(sat) && x in sat.sets.f && IsPairString(x) && FollowEdge(sat.notes, x).Some?
    ensures var e := FollowEdge(sat.notes, x).value;
      && 1 <= e.src <= |sat.stateTokens| && 1 <= e.transition.dest <= |sat.stateTokens|
      && e.symbol == SlotToken(sat, e.transition.dest).symbol
  {
    SlotOf(sat, x.tokens[0]);
    SlotOf(sat, x.tokens[1]);
    var t := FollowTransition(sat.notes, x).value.value;
    assert t.dest == x.tokens[1].id;
  }

}
