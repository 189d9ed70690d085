/** Typed NCA edges: when an edge may fire (its guard) and how firing changes the
    counter values (its update). Counter values map a counter id to its count. A
    guard that looks up a missing id unboxes the `null` HashMap.get returns, so
    the guards and updates return a Result. */
module NcaTransitions {
  import opened Util
  import opened Counters
  import opened Tokens

  datatype TransitionType =
    | Unconditional
    | ConditionalForward
    | ConditionalBackwardCounter
    | ConditionalBackwardStar

  /** An edge to the state with id `dest`, the counters its guard depends on and,
      for the backward kinds, the quantifier token that produced it. */
  datatype NcaTransition = NcaTransition(
    deps: seq<CounterRange>,
    kind: TransitionType,
    dest: int,
    transitionToken: Option<Token>)

  type CounterValues = map<int, int>

  /** counterValues.get(id), unboxed: a missing id throws. */
  function Get(m: CounterValues, id: int): (r: Result<int>)
    ensures r.Ok? <==> id in m
    ensures r.Ok? ==> r.value == m[id]
    ensures r.Err? ==> r.error == NullValue
  {
    if id in m then Ok(m[id]) else Err(NullValue)
  }

  // ---------------------------------------------------------------------------
  // Guards

  /** The loop `for (counter : deps) if (counter.isOutOfRange(get(counter.id)))
      return false;` followed by `true`. */
  function AllInRange(deps: seq<CounterRange>, m: CounterValues): Result<bool>
    decreases |deps|
  {
    if deps == [] then Ok(true)
    else
      var v :- Get(m, deps[0].id);
      if deps[0].IsOutOfRange(v) then Ok(false) else AllInRange(deps[1..], m)
  }

  /** The first `k` dependencies have values, and those are in range. */
  predicate Passes(deps: seq<CounterRange>, m: CounterValues, k: nat)
    requires k <= |deps|
  {
    forall j :: 0 <= j < k ==> deps[j].id in m && !deps[j].IsOutOfRange(m[deps[j].id])
  }

  /** The range loop succeeds exactly when every dependency has an in-range value;
      it throws exactly when the first dependency it cannot pass has no value. */
  lemma {:induction false} AllInRangeMeaning(deps: seq<CounterRange>, m: CounterValues)
    ensures AllInRange(deps, m) == Ok(true) <==> Passes(deps, m, |deps|)
    ensures AllInRange(deps, m).Err? <==> exists k :: 0 <= k < |deps| && Passes(deps, m, k) && deps[k].id !in m
    ensures AllInRange(deps, m).Err? ==> AllInRange(deps, m).error == NullValue
    decreases |deps|
  {
    if deps != [] {
      AllInRangeMeaning(deps[1..], m);
      PassesShiftAt(deps, m, |deps| - 1);
      if deps[0].id in m && !deps[0].IsOutOfRange(m[deps[0].id]) {
        if AllInRange(deps, m).Err? {
          var k :| 0 <= k < |deps| - 1 && Passes(deps[1..], m, k) && deps[1..][k].id !in m;
          PassesShiftAt(deps, m, k);
          assert Passes(deps, m, k + 1) && deps[k + 1].id !in m;
        }
        if exists k :: 0 <= k < |deps| && Passes(deps, m, k) && deps[k].id !in m {
          var k :| 0 <= k < |deps| && Passes(deps, m, k) && deps[k].id !in m;
          assert k > 0;
          PassesShiftAt(deps, m, k - 1);
          assert Passes(deps[1..], m, k - 1) && deps[1..][k - 1].id !in m;
        }
      } else if deps[0].id in m {
        forall k | 1 <= k <= |deps| ensures !Passes(deps, m, k) {
          assert deps[0].IsOutOfRange(m[deps[0].id]);
        }
      } else {
        assert Passes(deps, m, 0);
      }
    }
  }

  /** Passing k + 1 dependencies is passing the first and then k of the rest. */
  lemma PassesShiftAt(deps: seq<CounterRange>, m: CounterValues, k: nat)
    requires k < |deps|
    ensures Passes(deps, m, k + 1) <==>
            (deps[0].id in m && !deps[0].IsOutOfRange(m[deps[0].id]) && Passes(deps[1..], m, k))
  {
    if Passes(deps, m, k + 1) {
      forall j | 0 <= j < k ensures deps[1..][j].id in m && !deps[1..][j].IsOutOfRange(m[deps[1..][j].id]) {
        assert deps[1..][j] == deps[j + 1];
      }
    }
    if deps[0].id in m && !deps[0].IsOutOfRange(m[deps[0].id]) && Passes(deps[1..], m, k) {
      forall j | 0 <= j < k + 1 ensures deps[j].id in m && !deps[j].IsOutOfRange(m[deps[j].id]) {
        if j > 0 {
          assert deps[j] == deps[1..][j - 1];
        }
      }
    }
  }

  /** The final `lastCounter.isBelowUpperBound(get(lastCounter.id))`, or `true`
      with no dependencies. */
  function LastBelowUpper(deps: seq<CounterRange>, m: CounterValues): Result<bool> {
    if |deps| == 0 then Ok(true)
    else
      var v :- Get(m, Last(deps).id);
      Ok(Last(deps).IsBelowUpperBound(v))
  }

  /** All dependencies but the last (none when there are none). */
  function Front(deps: seq<CounterRange>): seq<CounterRange> {
    if |deps| == 0 then [] else deps[..|deps| - 1]
  }

  /** checkForwardCondition. */
  function ForwardCondition(deps: seq<CounterRange>, m: CounterValues): Result<bool> {
    var inRange :- AllInRange(deps, m);
    if inRange then LastBelowUpper(deps, m) else Ok(false)
  }

  /** checkBackwardCounterCondition: only the first n - 1 dependencies are checked
      for range. */
  function BackwardCounterCondition(deps: seq<CounterRange>, m: CounterValues): Result<bool> {
    var inRange :- AllInRange(Front(deps), m);
    if inRange then LastBelowUpper(deps, m) else Ok(false)
  }

  /** checkBackwardStarCondition. */
  function BackwardStarCondition(deps: seq<CounterRange>, m: CounterValues): Result<bool> {
    AllInRange(deps, m)
  }

  /** isAllowed. */
  function Allowed(t: NcaTransition, m: CounterValues): Result<bool> {
    match t.kind
    case Unconditional => Ok(true)
    case ConditionalForward => ForwardCondition(t.deps, m)
    case ConditionalBackwardCounter => BackwardCounterCondition(t.deps, m)
    case ConditionalBackwardStar => BackwardStarCondition(t.deps, m)
  }

  /** A forward edge fires exactly when every dependency is in range and the last
      one is still below its upper bound: leaving at the upper bound is refused. */
  lemma ForwardGuard(deps: seq<CounterRange>, m: CounterValues)
    ensures ForwardCondition(deps, m) == Ok(true) <==>
            (Passes(deps, m, |deps|) && (|deps| > 0 ==> m[Last(deps).id] < Last(deps).upperBound))
  {
    AllInRangeMeaning(deps, m);
  }

  /** A backward counter edge fires exactly when all dependencies but the last are
      in range and the last is below its upper bound (its lower bound is not
      checked). */
  lemma BackwardCounterGuard(deps: seq<CounterRange>, m: CounterValues)
    ensures BackwardCounterCondition(deps, m) == Ok(true) <==>
            (Passes(Front(deps), m, |Front(deps)|)
             && (|deps| > 0 ==> Last(deps).id in m && m[Last(deps).id] < Last(deps).upperBound))
  {
    AllInRangeMeaning(Front(deps), m);
  }

  /** A backward star edge fires exactly when every dependency is in range; no
      strict bound applies. */
  lemma BackwardStarGuard(deps: seq<CounterRange>, m: CounterValues)
    ensures BackwardStarCondition(deps, m) == Ok(true) <==> Passes(deps, m, |deps|)
  {
    AllInRangeMeaning(deps, m);
  }

  /** The range loop shared by the three checks, as the source writes it (over
      the first `n` dependencies). */
  method CheckInRange(deps: seq<CounterRange>, n: nat, m: CounterValues) returns (r: Result<bool>)
    requires n <= |deps|
    ensures r == AllInRange(deps[..n], m)
  {
    var i := 0;
    while i < n
      invariant 0 <= i <= n
      invariant AllInRange(deps[..n], m) == AllInRange(deps[i..n], m)
    {
      assert deps[i..n][1..] == deps[i + 1..n];
      var counter := deps[i];
      if counter.id !in m {
        return Err(NullValue);
      }
      if counter.IsOutOfRange(m[counter.id]) {
        return Ok(false);
      }
      i := i + 1;
    }
    r := Ok(true);
  }

  /** checkForwardCondition. */
  method CheckForwardCondition(deps: seq<CounterRange>, m: CounterValues) returns (r: Result<bool>)
    ensures r == ForwardCondition(deps, m)
  {
    assert deps[..|deps|] == deps;
    r := CheckInRange(deps, |deps|, m);
    if r != Ok(true) {
      return;
    }
    if |deps| > 0 {
      var lastCounter := deps[|deps| - 1];
      if lastCounter.id !in m {
        return Err(NullValue);
      }
      r := Ok(lastCounter.IsBelowUpperBound(m[lastCounter.id]));
    }
  }

  /** checkBackwardCounterCondition. */
  method CheckBackwardCounterCondition(deps: seq<CounterRange>, m: CounterValues) returns (r: Result<bool>)
    ensures r == BackwardCounterCondition(deps, m)
  {
    var n := if |deps| == 0 then 0 else |deps| - 1;
    assert deps[..n] == Front(deps);
    r := CheckInRange(deps, n, m);
    if r != Ok(true) {
      return;
    }
    if |deps| > 0 {
      var lastCounter := deps[|deps| - 1];
      if lastCounter.id !in m {
        return Err(NullValue);
      }
      r := Ok(lastCounter.IsBelowUpperBound(m[lastCounter.id]));
    }
  }

  /** checkBackwardStarCondition. */
  method CheckBackwardStarCondition(deps: seq<CounterRange>, m: CounterValues) returns (r: Result<bool>)
    ensures r == BackwardStarCondition(deps, m)
  {
    assert deps[..|deps|] == deps;
    r := CheckInRange(deps, |deps|, m);
  }

  /** isAllowed. */
  method IsAllowed(t: NcaTransition, m: CounterValues) returns (r: Result<bool>)
    ensures r == Allowed(t, m)
  {
    match t.kind
    case Unconditional =>
      r := Ok(true);
    case ConditionalForward =>
      r := CheckForwardCondition(t.deps, m);
    case ConditionalBackwardCounter =>
      r := CheckBackwardCounterCondition(t.deps, m);
    case ConditionalBackwardStar =>
      r := CheckBackwardStarCondition(t.deps, m);
  }

  // ---------------------------------------------------------------------------
  // Updates

  /** The ids of a list of ranges. */
  function Ids(rs: seq<CounterRange>): set<int> {
    set k | 0 <= k < |rs| :: rs[k].id
  }

  /** `m` with every id of `rs` set to 1: the reference the update loops are
      measured against. */
  function Override(m: CounterValues, rs: seq<CounterRange>): CounterValues {
    map id | id in m.Keys + Ids(rs) :: if id in Ids(rs) then 1 else m[id]
  }

  /** The length of the longest prefix of `init` whose ids are below `bound`. */
  function LeadingBelow(init: seq<CounterRange>, bound: int): (n: nat)
    ensures n <= |init|
    ensures forall k :: 0 <= k < n ==> init[k].id < bound
    ensures n == |init| || init[n].id >= bound
    decreases |init|
  {
    if init == [] || init[0].id >= bound then 0 else 1 + LeadingBelow(init[1..], bound)
  }

  /** The loop that sets the destination's initialised counters to 1 in list
      order while their id is below `bound`, and stops at the first that is not. */
  function ResetBelow(init: seq<CounterRange>, bound: int, m: CounterValues): CounterValues
    decreases |init|
  {
    if init == [] || init[0].id >= bound then m
    else ResetBelow(init[1..], bound, m[init[0].id := 1])
  }

  /** The loop that sets every initialised counter to 1. */
  function ResetAll(init: seq<CounterRange>, m: CounterValues): CounterValues
    decreases |init|
  {
    if init == [] then m else ResetAll(init[1..], m[init[0].id := 1])
  }

  lemma OverrideStep(m: CounterValues, rs: seq<CounterRange>)
    requires rs != []
    ensures Override(m[rs[0].id := 1], rs[1..]) == Override(m, rs)
  {
    assert Ids(rs) == {rs[0].id} + Ids(rs[1..]) by {
      forall id | id in Ids(rs) ensures id in {rs[0].id} + Ids(rs[1..]) {
        var k :| 0 <= k < |rs| && rs[k].id == id;
        if k > 0 {
          assert rs[1..][k - 1].id == id;
        }
      }
      forall id | id in Ids(rs[1..]) ensures id in Ids(rs) {
        var k :| 0 <= k < |rs| - 1 && rs[1..][k].id == id;
        assert rs[k + 1].id == id;
      }
    }
  }

  /** The reset-while-below loop overrides exactly the leading counters below the
      bound with 1 and leaves every other entry as it was. */
  lemma {:induction false} ResetBelowMeaning(init: seq<CounterRange>, bound: int, m: CounterValues)
    ensures ResetBelow(init, bound, m) == Override(m, init[..LeadingBelow(init, bound)])
    decreases |init|
  {
    if init == [] || init[0].id >= bound {
      assert Ids(init[..0]) == {};
    } else {
      var n := LeadingBelow(init, bound);
      ResetBelowMeaning(init[1..], bound, m[init[0].id := 1]);
      assert init[1..][..n - 1] == init[..n][1..];
      OverrideStep(m, init[..n]);
    }
  }

  /** The unconditional loop overrides every initialised counter with 1. */
  lemma {:induction false} ResetAllMeaning(init: seq<CounterRange>, m: CounterValues)
    ensures ResetAll(init, m) == Override(m, init)
    decreases |init|
  {
    if init == [] {
      assert Ids(init) == {};
    } else {
      ResetAllMeaning(init[1..], m[init[0].id := 1]);
      OverrideStep(m, init);
    }
  }

  /** getUpdatedCounterValues, given the destination's countersInitializedHere.
      The map is a value: the argument is never changed. This is the corrected
      form (see UpdatedAsWritten): the loop does not assert that each visited
      initialised counter already has a value. */
  function Updated(t: NcaTransition, init: seq<CounterRange>, m: CounterValues): Result<CounterValues> {
    match t.kind
    case ConditionalBackwardCounter =>
      if |t.deps| == 0 then Err(IndexOutOfBounds)
      else
        var c := Last(t.deps);
        if c.id !in m then Err(AssertionFailed)
        else Ok(ResetBelow(init, c.id, m)[c.id := Wrap32(m[c.id] + 1)])
    case ConditionalBackwardStar =>
      if t.transitionToken.None? then Err(NullValue)
      else if t.transitionToken.value.kind != Star then Err(AssertionFailed)
      else Ok(ResetBelow(init, t.transitionToken.value.id, m))
    case _ => Ok(ResetAll(init, m))
  }

  /** The backward counter loop as the source writes it: before its test, each
      visited initialised counter is asserted to have a value in the original map. */
  function ResetBelowChecked(init: seq<CounterRange>, bound: int, m0: CounterValues, m: CounterValues)
    : Result<CounterValues>
    decreases |init|
  {
    if init == [] then Ok(m)
    else if init[0].id !in m0 then Err(AssertionFailed)
    else if init[0].id >= bound then Ok(m)
    else ResetBelowChecked(init[1..], bound, m0, m[init[0].id := 1])
  }

  /** getUpdatedCounterValues exactly as written, with both asserts of the
      backward counter case. */
  function UpdatedAsWritten(t: NcaTransition, init: seq<CounterRange>, m: CounterValues): Result<CounterValues> {
    match t.kind
    case ConditionalBackwardCounter =>
      if |t.deps| == 0 then Err(IndexOutOfBounds)
      else
        var c := Last(t.deps);
        if c.id !in m then Err(AssertionFailed)
        else
          var reset :- ResetBelowChecked(init, c.id, m, m);
          Ok(reset[c.id := Wrap32(m[c.id] + 1)])
    case _ => Updated(t, init, m)
  }

  /** The two agree whenever the visited initialised counters all have values;
      the assert is the only difference. */
  lemma {:induction false} CheckedAgrees(init: seq<CounterRange>, bound: int, m0: CounterValues, m: CounterValues)
    requires forall k :: 0 <= k <= LeadingBelow(init, bound) && k < |init| ==> init[k].id in m0
    ensures ResetBelowChecked(init, bound, m0, m) == Ok(ResetBelow(init, bound, m))
    decreases |init|
  {
    if init != [] && init[0].id < bound {
      forall k | 0 <= k <= LeadingBelow(init[1..], bound) && k < |init| - 1 ensures init[1..][k].id in m0 {
        assert init[1..][k] == init[k + 1];
      }
      CheckedAgrees(init[1..], bound, m0, m[init[0].id := 1]);
    }
  }

  /** Every initialised counter the loop visits (those below `bound` and the
      one it breaks at) has a value in `m0`: the loop's assert holds throughout. */
  predicate VisitedHaveValues(init: seq<CounterRange>, bound: int, m0: CounterValues) {
    forall k :: 0 <= k <= LeadingBelow(init, bound) && k < |init| ==> init[k].id in m0
  }

  /** A visited counter without a value makes the loop's assert fail. */
  lemma {:induction false} CheckedFails(init: seq<CounterRange>, bound: int, m0: CounterValues, m: CounterValues)
    requires !VisitedHaveValues(init, bound, m0)
    ensures ResetBelowChecked(init, bound, m0, m) == Err(AssertionFailed)
    decreases |init|
  {
    var k :| 0 <= k <= LeadingBelow(init, bound) && k < |init| && init[k].id !in m0;
    if k > 0 {
      assert init[1..][k - 1] == init[k];
      CheckedFails(init[1..], bound, m0, m[init[0].id := 1]);
    }
  }

  /** The as-written update differs from the corrected one in exactly one way: a
      backward counter edge the corrected update takes, but on which a visited
      initialised counter of the destination has no value, throws the
      AssertionError of the loop. */
  lemma AsWrittenExactly(t: NcaTransition, init: seq<CounterRange>, m: CounterValues)
    ensures UpdatedAsWritten(t, init, m) ==
              if t.kind == ConditionalBackwardCounter && Updated(t, init, m).Ok?
                 && !VisitedHaveValues(init, Last(t.deps).id, m)
              then Err(AssertionFailed)
              else Updated(t, init, m)
  {
    if t.kind == ConditionalBackwardCounter && Updated(t, init, m).Ok? {
      var c := Last(t.deps);
      if VisitedHaveValues(init, c.id, m) {
        CheckedAgrees(init, c.id, m, m);
      } else {
        CheckedFails(init, c.id, m, m);
      }
    }
  }

  /** The backward counter update: the incremented counter goes up by exactly
      one; the leading initialised counters with smaller ids restart at 1; every
      other entry is kept. */
  lemma BackwardCounterUpdate(t: NcaTransition, init: seq<CounterRange>, m: CounterValues)
    requires t.kind == ConditionalBackwardCounter
    ensures Updated(t, init, m).Ok? <==> |t.deps| > 0 && Last(t.deps).id in m
    ensures Updated(t, init, m).Ok? ==>
              var c := Last(t.deps);
              var r := Updated(t, init, m).value;
              var n := LeadingBelow(init, c.id);
              && r.Keys == m.Keys + Ids(init[..n])
              && r[c.id] == Wrap32(m[c.id] + 1)
              && (forall id :: id in r && id != c.id ==> r[id] == if id in Ids(init[..n]) then 1 else m[id])
  {
    if |t.deps| > 0 && Last(t.deps).id in m {
      ResetBelowMeaning(init, Last(t.deps).id, m);
    }
  }

  /** The backward star update restarts the leading initialised counters whose id
      is below the star's and increments nothing. */
  lemma BackwardStarUpdate(t: NcaTransition, init: seq<CounterRange>, m: CounterValues)
    requires t.kind == ConditionalBackwardStar && t.transitionToken.Some? && t.transitionToken.value.kind == Star
    ensures Updated(t, init, m) == Ok(Override(m, init[..LeadingBelow(init, t.transitionToken.value.id)]))
  {
    ResetBelowMeaning(init, t.transitionToken.value.id, m);
  }

  /** Forward and unconditional updates restart every initialised counter. */
  lemma ForwardUpdate(t: NcaTransition, init: seq<CounterRange>, m: CounterValues)
    requires t.kind == ConditionalForward || t.kind == Unconditional
    ensures Updated(t, init, m) == Ok(Override(m, init))
  {
    ResetAllMeaning(init, m);
  }

  /** getUpdatedCounterValues: a copy of the map, then the puts of the case at
      hand. */
  method GetUpdatedCounterValues(t: NcaTransition, init: seq<CounterRange>, m: CounterValues)
    returns (r: Result<CounterValues>)
    ensures r == Updated(t, init, m)
  {
    var updatedValues := m;
    match t.kind
    case ConditionalBackwardCounter =>
      if |t.deps| == 0 {
        return Err(IndexOutOfBounds);
      }
      var counterToIncrement := t.deps[|t.deps| - 1];
      if counterToIncrement.id !in m {
        return Err(AssertionFailed);
      }
      updatedValues := ResetWhileBelow(init, counterToIncrement.id, updatedValues);
      updatedValues := updatedValues[counterToIncrement.id := Wrap32(m[counterToIncrement.id] + 1)];
      r := Ok(updatedValues);
    case ConditionalBackwardStar =>
      if t.transitionToken.None? {
        return Err(NullValue);
      }
      var star := t.transitionToken.value;
      if star.kind != Star {
        return Err(AssertionFailed);
      }
      updatedValues := ResetWhileBelow(init, star.id, updatedValues);
      r := Ok(updatedValues);
    case _ =>
      var i := 0;
      while i < |init|
        invariant 0 <= i <= |init|
        invariant ResetAll(init[i..], updatedValues) == ResetAll(init, m)
      {
        assert init[i..][1..] == init[i + 1..];
        updatedValues := updatedValues[init[i].id := 1];
        i := i + 1;
      }
      r := Ok(updatedValues);
  }

  /** The loop over the initialised counters that breaks at the first id not
      below `bound`. */
  method ResetWhileBelow(init: seq<CounterRange>, bound: int, m: CounterValues) returns (r: CounterValues)
    ensures r == ResetBelow(init, bound, m)
  {
    r := m;
    var i := 0;
    while i < |init|
      invariant 0 <= i <= |init|
      invariant ResetBelow(init[i..], bound, r) == ResetBelow(init, bound, m)
    {
      assert init[i..][1..] == init[i + 1..];
      if init[i].id < bound {
        r := r[init[i].id := 1];
      } else {
        return;
      }
      i := i + 1;
    }
  }

  /** Every value is a Java int. */
  predicate Int32Valued(m: CounterValues) {
    forall id :: id in m ==> InInt32(m[id])
  }

  lemma IdsOfPrefix(rs: seq<CounterRange>, n: nat)
    requires n <= |rs|
    ensures Ids(rs[..n]) <= Ids(rs)
  {
    forall id | id in Ids(rs[..n]) ensures id in Ids(rs) {
      var k :| 0 <= k < n && rs[..n][k].id == id;
      assert rs[k].id == id;
    }
  }

  /** An update gives values only to the counters that had one and to the
      destination's initialised counters, and every value stays a Java int. */
  lemma UpdateKeepsShape(t: NcaTransition, init: seq<CounterRange>, m: CounterValues)
    requires Updated(t, init, m).Ok?
    ensures Updated(t, init, m).value.Keys <= m.Keys + Ids(init)
    ensures Int32Valued(m) ==> Int32Valued(Updated(t, init, m).value)
  {
    match t.kind
    case ConditionalBackwardCounter =>
      var c := Last(t.deps);
      ResetBelowMeaning(init, c.id, m);
      IdsOfPrefix(init, LeadingBelow(init, c.id));
    case ConditionalBackwardStar =>
      var bound := t.transitionToken.value.id;
      ResetBelowMeaning(init, bound, m);
      IdsOfPrefix(init, LeadingBelow(init, bound));
    case _ =>
      ResetAllMeaning(init, m);
  }

  // ---------------------------------------------------------------------------
  // Counter values stay bounded

  /** The largest value a counter with upper bound `u` can hold. */
  function Cap(u: int): int {
    if u < 1 then 1 else u
  }

  /** Every range in `rs` carries the upper bound `ub` records for its id. */
  predicate Registered(rs: seq<CounterRange>, ub: map<int, int>) {
    forall k :: 0 <= k < |rs| ==> rs[k].id in ub && rs[k].upperBound == ub[rs[k].id]
  }

  /** Counter values the NCA can produce: ids with a known range, values between
      1 and the range's cap. */
  predicate Bounded(m: CounterValues, ub: map<int, int>) {
    forall id :: id in m ==> id in ub && 1 <= m[id] <= Cap(ub[id])
  }

  /** Along an allowed edge, values are only set to 1 or incremented after the
      guard saw them below the upper bound, so no counter leaves [1, cap]. */
  lemma UpdateStaysBounded(t: NcaTransition, init: seq<CounterRange>, m: CounterValues, ub: map<int, int>)
    requires Registered(t.deps, ub) && Registered(init, ub)
    requires forall id :: id in ub ==> ub[id] <= Int32Max
    requires Bounded(m, ub) && Allowed(t, m) == Ok(true) && Updated(t, init, m).Ok?
    ensures Bounded(Updated(t, init, m).value, ub)
  {
    var r := Updated(t, init, m).value;
    assert forall k :: 0 <= k < |init| ==> init[k].id in ub;
    match t.kind
    case ConditionalBackwardCounter =>
      var c := Last(t.deps);
      BackwardCounterGuard(t.deps, m);
      BackwardCounterUpdate(t, init, m);
      var n := LeadingBelow(init, c.id);
      assert Ids(init[..n]) <= ub.Keys by {
        forall id | id in Ids(init[..n]) ensures id in ub {
          var k :| 0 <= k < n && init[..n][k].id == id;
          assert init[k].id == id;
        }
      }
    case ConditionalBackwardStar =>
      var n := LeadingBelow(init, t.transitionToken.value.id);
      BackwardStarUpdate(t, init, m);
      assert Ids(init[..n]) <= ub.Keys by {
        forall id | id in Ids(init[..n]) ensures id in ub {
          var k :| 0 <= k < n && init[..n][k].id == id;
          assert init[k].id == id;
        }
      }
    case _ =>
      ForwardUpdate(t, init, m);
  }

  // ---------------------------------------------------------------------------
  // The assert in the backward counter loop

  /** A backward counter edge written out by hand in the shape of the c2
      loop of `(x|p{2}){3}`: counter 1 is `{2}` on p and counter 2 is `{3}` on
      the group, so p initialises both counters. From the values {c2: 1}, as
      after reading x first, the backward edge to p of counter 2 is allowed,
      but the assert of the loop visits p's counter 1, which has no value.
      The corrected update restarts counter 1 and increments counter 2. That
      these are the edge and the values a build of that regex produces is
      not proved here. */
  lemma AssertRejectsCounterLoop()
    ensures var c1 := CounterRange(2, 2, 1);
            var c2 := CounterRange(3, 3, 2);
            var loop := NcaTransition([c2], ConditionalBackwardCounter, 2, Some(RangeToken("{3}", Counter, c2)));
            && Allowed(loop, map[2 := 1]) == Ok(true)
            && UpdatedAsWritten(loop, [c1, c2], map[2 := 1]) == Err(AssertionFailed)
            && Updated(loop, [c1, c2], map[2 := 1]) == Ok(map[1 := 1, 2 := 2])
  {
    var c1 := CounterRange(2, 2, 1);
    var c2 := CounterRange(3, 3, 2);
    var loop := NcaTransition([c2], ConditionalBackwardCounter, 2, Some(RangeToken("{3}", Counter, c2)));
    var m := map[2 := 1];
    assert [c1, c2][1..] == [c2];
    assert Front([c2]) == [];
    assert AllInRange([], m) == Ok(true);
    assert Allowed(loop, m) == Ok(true);
    assert ResetBelowChecked([c1, c2], 2, m, m) == Err(AssertionFailed);
    assert ResetBelow([c2], 2, m[1 := 1]) == m[1 := 1];
    assert ResetBelow([c1, c2], 2, m) == map[2 := 1, 1 := 1];
    assert map[2 := 1, 1 := 1][2 := 2] == map[1 := 1, 2 := 2];
  }
}
