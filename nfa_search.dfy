/** Runs of the NCA, the finitely many configurations it can be in, and the
    invariants of the breadth-first search that unfolds it into an NFA. The
    search itself is in module Nfas. */
module NfaSearch {
  import opened Util
  import opened Counters
  import opened NcaTransitions
  import opened NcaStates
  import opened Configurations
  import opened SetBuilder
  import opened Ncas

  // ---------------------------------------------------------------------------
  // Runs of the NCA

  /** `d` is a configuration that `c` moves to on some symbol of its state. */
  ghost predicate MovesTo(v: seq<StateView>, c: Configuration, d: Configuration)
    requires ViewWellFormed(v)
  {
    && 0 <= c.state < |v|
    && exists sym :: sym in v[c.state].transitions && Moves(v, c, sym).Some? && d in Moves(v, c, sym).value
  }

  /** A sequence of moves that starts at the root configuration. */
  ghost predicate IsRun(v: seq<StateView>, path: seq<Configuration>)
    requires ViewWellFormed(v)
  {
    && |path| >= 1 && path[0] == RootConfig
    && forall i :: 0 <= i < |path| - 1 ==> MovesTo(v, path[i], path[i + 1])
  }

  ghost predicate Reachable(v: seq<StateView>, c: Configuration)
    requires ViewWellFormed(v)
  {
    exists path :: IsRun(v, path) && path[|path| - 1] == c
  }

  /** evaluateFinalizationFunction or evaluateTransitionFunction throws on `c`. */
  ghost predicate Throws(v: seq<StateView>, c: Configuration)
    requires ViewWellFormed(v)
  {
    && 0 <= c.state < |v|
    && (Finalization(v, c).Err? || exists sym :: sym in v[c.state].transitions && Moves(v, c, sym).None?)
  }

  lemma RootReachable(v: seq<StateView>)
    requires ViewWellFormed(v)
    ensures Reachable(v, RootConfig)
  {
    assert IsRun(v, [RootConfig]);
  }

  /** A move from a reachable configuration reaches its destination. */
  lemma ReachableStep(v: seq<StateView>, c: Configuration, d: Configuration)
    requires ViewWellFormed(v) && Reachable(v, c) && MovesTo(v, c, d)
    ensures Reachable(v, d)
  {
    var path :| IsRun(v, path) && path[|path| - 1] == c;
    var longer := path + [d];
    forall i | 0 <= i < |longer| - 1 ensures MovesTo(v, longer[i], longer[i + 1]) {
      if i < |path| - 1 {
        assert longer[i] == path[i] && longer[i + 1] == path[i + 1];
      }
    }
    assert IsRun(v, longer);
  }

  // ---------------------------------------------------------------------------
  // The configurations are finitely many

  /** The ids of the counters `rs` initialises, in order. */
  function IdList(rs: seq<CounterRange>): (r: seq<int>)
    ensures |r| == |rs| && forall j :: 0 <= j < |rs| ==> r[j] == rs[j].id
  {
    seq(|rs|, j requires 0 <= j < |rs| => rs[j].id)
  }

  /** The counters some state initialises: the only ones that ever get a value. */
  function InitIds(v: seq<StateView>): seq<int> {
    if v == [] then [] else InitIds(v[..|v| - 1]) + IdList(v[|v| - 1].notes.initialized)
  }

  lemma {:induction false} InInitIds(v: seq<StateView>, k: int, id: int)
    requires 0 <= k < |v| && id in Ids(v[k].notes.initialized)
    ensures id in InitIds(v)
    decreases |v|
  {
    var init := v[k].notes.initialized;
    if k == |v| - 1 {
      var j :| 0 <= j < |init| && init[j].id == id;
      assert IdList(init)[j] == id;
    } else {
      var front := v[..|v| - 1];
      assert front[k] == v[k];
      InInitIds(front, k, id);
    }
  }

  /** Every counter of `m` is among `keys`. */
  ghost predicate KeysAmong(m: CounterValues, keys: seq<int>) {
    forall id :: id in m ==> id in keys
  }

  /** What every configuration the search meets satisfies: a state of the
      automaton, values only for counters some state initialises, and values
      that are Java ints. */
  ghost predicate Plausible(v: seq<StateView>, c: Configuration) {
    0 <= c.state < |v| && KeysAmong(c.counterValues, InitIds(v)) && Int32Valued(c.counterValues)
  }

  /** The integers from `lo` up to but not including `hi`. */
  ghost function Interval(lo: int, hi: int): (r: set<int>)
    ensures forall x :: x in r <==> lo <= x < hi
    decreases hi - lo
  {
    if lo >= hi then {} else {lo} + Interval(lo + 1, hi)
  }

  /** `m` with the counter `k` set to `x`. */
  function Put(m: CounterValues, k: int, x: int): CounterValues {
    m[k := x]
  }

  /** Every counter map over `keys` with Java int values. */
  ghost function AllMaps(keys: seq<int>): (r: set<CounterValues>)
    ensures forall m :: m in r <==> KeysAmong(m, keys) && Int32Valued(m)
  {
    if keys == [] then
      NoKeys();
      {map[]}
    else
      var rest := AllMaps(keys[1..]);
      var more := set m, x | m in rest && x in Interval(Int32Min, Int32Max + 1) :: Put(m, keys[0], x);
      AllMapsStep(keys, rest, more);
      rest + more
  }

  lemma NoKeys()
    ensures forall m :: KeysAmong(m, []) ==> m == map[]
  {
    forall m: CounterValues | KeysAmong(m, []) ensures m == map[] {
      var none: seq<int> := [];
      assert m.Keys <= {} by {
        forall id | id in m.Keys ensures id in none { }
      }
    }
  }

  lemma AllMapsStep(keys: seq<int>, rest: set<CounterValues>, more: set<CounterValues>)
    requires keys != []
    requires forall m :: m in rest <==> KeysAmong(m, keys[1..]) && Int32Valued(m)
    requires more == set m, x | m in rest && x in Interval(Int32Min, Int32Max + 1) :: Put(m, keys[0], x)
    ensures forall m :: m in rest + more <==> KeysAmong(m, keys) && Int32Valued(m)
  {
    var k := keys[0];
    assert keys == [k] + keys[1..];
    forall m: CounterValues | KeysAmong(m, keys) && Int32Valued(m) ensures m in rest + more {
      if k in m {
        var smaller := map id | id in m && id != k :: m[id];
        assert smaller in rest;
        assert m[k] in Interval(Int32Min, Int32Max + 1);
        assert m == Put(smaller, k, m[k]);
      }
    }
    forall m | m in more ensures KeysAmong(m, keys) && Int32Valued(m) {
      var m0, x :| m0 in rest && x in Interval(Int32Min, Int32Max + 1) && m == Put(m0, k, x);
    }
  }

  /** A finite set holding every plausible configuration. */
  ghost function Universe(v: seq<StateView>): set<Configuration> {
    set s, m | 0 <= s < |v| && m in AllMaps(InitIds(v)) :: Configuration(s, m)
  }

  lemma PlausibleInUniverse(v: seq<StateView>, c: Configuration)
    requires Plausible(v, c)
    ensures c in Universe(v)
  {
    assert c.counterValues in AllMaps(InitIds(v));
    assert c == Configuration(c.state, c.counterValues);
  }

  /** The moves of a plausible configuration are plausible. */
  lemma MovesPlausible(v: seq<StateView>, c: Configuration, sym: string)
    requires ViewWellFormed(v) && Plausible(v, c) && sym in v[c.state].transitions && Moves(v, c, sym).Some?
    ensures forall d :: d in Moves(v, c, sym).value ==> Plausible(v, d)
  {
    var m := c.counterValues;
    var ts := v[c.state].transitions[sym];
    forall d | d in Moves(v, c, sym).value ensures Plausible(v, d) {
      assert d in Reached(v, ts, m);
      var t :| t in ts && Allowed(t, m) == Ok(true) && d == Follow(v, t, m);
      var init := v[t.dest].notes.initialized;
      UpdateKeepsShape(t, init, m);
      forall id | id in d.counterValues ensures id in InitIds(v) {
        if id !in m {
          InInitIds(v, t.dest, id);
        }
      }
    }
  }

  // ---------------------------------------------------------------------------
  // What the search has built

  /** The queue of the search: the ids from `head` to `next - 1`, in order. */
  predicate Queued(queue: seq<int>, head: int, next: int) {
    |queue| == next - head && forall i :: 0 <= i < |queue| ==> queue[i] == head + i
  }

  /** How many entries a transition list has for `a` allowed transitions: one
      per transition, and in the `automata` copy a second one for each
      destination that was met before. */
  predicate ListLength(gen: Generation, n: int, a: int) {
    if gen == NcaGeneration then n == a else a <= n <= 2 * a
  }

  /** The configurations met so far have the ids `startID` to `next - 1`. `ids`
      is the inverse of `configs`. The root comes first, and every configuration
      is plausible and reachable. */
  ghost predicate Registry(v: seq<StateView>, startID: int, next: int, ids: map<Configuration, int>, configs: map<int, Configuration>)
    requires ViewWellFormed(v)
  {
    && startID < next
    && (forall k :: k in configs <==> startID <= k < next)
    && |configs| == next - startID
    && configs[startID] == RootConfig
    && (forall c :: c in ids ==> ids[c] in configs && configs[ids[c]] == c)
    && (forall k :: k in configs ==> configs[k] in ids && ids[configs[k]] == k && 0 <= configs[k].state < |v|)
    && (forall k {:trigger Sound(v, configs[k])} :: k in configs ==> Sound(v, configs[k]))
  }

  /** A configuration the search may meet: plausible and reachable. */
  ghost predicate Sound(v: seq<StateView>, c: Configuration)
    requires ViewWellFormed(v)
  {
    Plausible(v, c) && Reachable(v, c)
  }

  /** The transition list on `sym` of a state with configuration `c`. It names
      met states, their configurations are exactly those `c` moves to, and its
      length is as ListLength says. */
  ghost predicate RowMatches(v: seq<StateView>, gen: Generation, configs: map<int, Configuration>, c: Configuration,
                             sym: string, list: seq<int>)
    requires ViewWellFormed(v) && 0 <= c.state < |v| && sym in v[c.state].transitions
  {
    && Moves(v, c, sym).Some?
    && (forall i :: 0 <= i < |list| ==> list[i] in configs && configs[list[i]] in Moves(v, c, sym).value)
    && (forall d :: d in Moves(v, c, sym).value ==> Names(configs, list, d))
    && ListLength(gen, |list|, |AllowedAmong(v[c.state].transitions[sym], c.counterValues)|)
  }

  /** The lists of the symbols in `done` are in place. */
  ghost predicate PartialRow(v: seq<StateView>, gen: Generation, configs: map<int, Configuration>, c: Configuration,
                             row: map<string, seq<int>>, done: set<string>)
    requires ViewWellFormed(v) && 0 <= c.state < |v|
  {
    && row.Keys == done
    && done <= v[c.state].transitions.Keys
    && forall sym :: sym in done ==> RowMatches(v, gen, configs, c, sym, row[sym])
  }

  /** A state is expanded: it has one list per symbol of its NCA state. */
  ghost predicate Expanded(v: seq<StateView>, gen: Generation, configs: map<int, Configuration>, c: Configuration,
                           row: map<string, seq<int>>)
    requires ViewWellFormed(v) && 0 <= c.state < |v|
  {
    PartialRow(v, gen, configs, c, row, v[c.state].transitions.Keys)
  }

  /** The states from `lo` to `hi - 1` have no lists yet. */
  ghost predicate EmptyFrom(rows: map<int, map<string, seq<int>>>, lo: int, hi: int) {
    forall k :: lo <= k < hi ==> k in rows && rows[k] == map[]
  }

  /** The states before `head` do not throw and are expanded. */
  ghost predicate ExpandedBelow(v: seq<StateView>, gen: Generation, startID: int, head: int,
                                configs: map<int, Configuration>, rows: map<int, map<string, seq<int>>>)
    requires ViewWellFormed(v)
  {
    forall k :: startID <= k < head ==> ExpandedAt(v, gen, configs, rows, k)
  }

  /** State `k` does not throw and is expanded. */
  ghost predicate ExpandedAt(v: seq<StateView>, gen: Generation, configs: map<int, Configuration>,
                             rows: map<int, map<string, seq<int>>>, k: int)
    requires ViewWellFormed(v)
  {
    && k in configs && k in rows && 0 <= configs[k].state < |v|
    && !Throws(v, configs[k]) && Expanded(v, gen, configs, configs[k], rows[k])
  }

  /** The final states are the states before `hi` whose finalization holds. */
  ghost predicate FinalsBelow(v: seq<StateView>, startID: int, hi: int, configs: map<int, Configuration>, finals: set<int>)
    requires ViewWellFormed(v)
  {
    forall k :: k in finals <==> FinalBelow(v, startID, hi, configs, k)
  }

  ghost predicate FinalBelow(v: seq<StateView>, startID: int, hi: int, configs: map<int, Configuration>, k: int) {
    startID <= k < hi && k in configs && 0 <= configs[k].state < |v| && Finalization(v, configs[k]) == Ok(true)
  }

  /** Between two states: those before `head` have left the queue, the rest
      wait in it. */
  ghost predicate Unfolding(v: seq<StateView>, gen: Generation, startID: int, head: int, next: int,
                            ids: map<Configuration, int>, configs: map<int, Configuration>,
                            rows: map<int, map<string, seq<int>>>, finals: set<int>)
    requires ViewWellFormed(v)
  {
    && Registry(v, startID, next, ids, configs)
    && startID <= head <= next
    && rows.Keys == configs.Keys
    && EmptyFrom(rows, head, next)
    && ExpandedBelow(v, gen, startID, head, configs, rows)
    && FinalsBelow(v, startID, head, configs, finals)
  }

  /** While state `s` is expanded: its finalization has been evaluated and the
      lists of the symbols in `done` are in place. */
  ghost predicate Expanding(v: seq<StateView>, gen: Generation, startID: int, s: int, next: int,
                            ids: map<Configuration, int>, configs: map<int, Configuration>,
                            rows: map<int, map<string, seq<int>>>, finals: set<int>, done: set<string>)
    requires ViewWellFormed(v)
  {
    && Registry(v, startID, next, ids, configs)
    && startID <= s < next
    && rows.Keys == configs.Keys
    && EmptyFrom(rows, s + 1, next)
    && ExpandedBelow(v, gen, startID, s, configs, rows)
    && FinalsBelow(v, startID, s + 1, configs, finals)
    && Finalization(v, configs[s]).Ok?
    && PartialRow(v, gen, configs, configs[s], rows[s], done)
  }

  /** Some entry of `list` names a met state with configuration `c`. */
  ghost predicate Names(configs: map<int, Configuration>, list: seq<int>, c: Configuration) {
    exists i :: 0 <= i < |list| && list[i] in configs && configs[list[i]] == c
  }

  /** The list built so far for the configurations `seen`: each entry names a
      met state whose configuration is in `seen`, each of `seen` has an entry,
      and its length is as ListLength says. */
  ghost predicate ListSoFar(gen: Generation, configs: map<int, Configuration>, list: seq<int>, seen: seq<Configuration>) {
    && (forall i :: 0 <= i < |list| ==> list[i] in configs && configs[list[i]] in seen)
    && (forall j :: 0 <= j < |seen| ==> Names(configs, list, seen[j]))
    && ListLength(gen, |list|, |seen|)
  }

  /** The finished NFA: the states are numbered from `startID` on, one per
      reachable configuration of the NCA, the start state holds the root, every
      state has a list per symbol of its NCA state naming the states of the
      configurations it moves to, and the final states are those whose
      finalization holds. */
  ghost predicate Unfolded(v: seq<StateView>, gen: Generation, startID: int, configs: map<int, Configuration>,
                           rows: map<int, map<string, seq<int>>>, finals: set<int>)
    requires ViewWellFormed(v)
  {
    && (forall k :: k in configs <==> startID <= k < startID + |configs|)
    && startID in configs && configs[startID] == RootConfig
    && (forall j, k :: j in configs && k in configs && configs[j] == configs[k] ==> j == k)
    && (forall k :: k in configs ==> 0 <= configs[k].state < |v|)
    && (forall k :: k in finals <==> k in configs && Finalization(v, configs[k]) == Ok(true))
    && rows.Keys == configs.Keys
    && (forall k :: k in configs ==> Expanded(v, gen, configs, configs[k], rows[k]))
    && (forall k :: k in configs ==> Reachable(v, configs[k]))
    && (forall c :: Reachable(v, c) ==> exists k :: k in configs && configs[k] == c)
  }

  // ---------------------------------------------------------------------------
  // Lemmas of the search

  /** Meeting more configurations keeps the lists built so far in place. */
  lemma PartialRowGrows(v: seq<StateView>, gen: Generation, configs: map<int, Configuration>, configs': map<int, Configuration>,
                        c: Configuration, row: map<string, seq<int>>, done: set<string>)
    requires ViewWellFormed(v) && 0 <= c.state < |v|
    requires forall k :: k in configs ==> k in configs' && configs'[k] == configs[k]
    requires PartialRow(v, gen, configs, c, row, done)
    ensures PartialRow(v, gen, configs', c, row, done)
  {
    forall sym | sym in done ensures RowMatches(v, gen, configs', c, sym, row[sym]) {
      var list := row[sym];
      assert RowMatches(v, gen, configs, c, sym, list);
      forall i | 0 <= i < |list| ensures list[i] in configs' && configs'[list[i]] == configs[list[i]] {
        var k := list[i];
        assert k in configs;
      }
      forall d | d in Moves(v, c, sym).value ensures Names(configs', list, d) {
        NamesGrows(configs, configs', list, d);
      }
    }
  }

  lemma NamesGrows(configs: map<int, Configuration>, configs': map<int, Configuration>, list: seq<int>, c: Configuration)
    requires forall k :: k in configs ==> k in configs' && configs'[k] == configs[k]
    requires Names(configs, list, c)
    ensures Names(configs', list, c)
  {
    var i :| 0 <= i < |list| && list[i] in configs && configs[list[i]] == c;
    var k := list[i];
    assert k in configs;
    assert k in configs' && configs'[k] == c;
  }

  /** Meeting a new configuration `nc`, one that state `s` moves to, gives it
      the id `next` and an empty row. */
  lemma Meet(v: seq<StateView>, gen: Generation, startID: int, s: int, next: int,
             ids: map<Configuration, int>, configs: map<int, Configuration>,
             rows: map<int, map<string, seq<int>>>, finals: set<int>, done: set<string>, sym: string, nc: Configuration)
    requires ViewWellFormed(v)
    requires Expanding(v, gen, startID, s, next, ids, configs, rows, finals, done)
    requires sym in v[configs[s].state].transitions && Moves(v, configs[s], sym).Some? && nc in Moves(v, configs[s], sym).value
    requires nc !in ids
    ensures Expanding(v, gen, startID, s, next + 1, ids[nc := next], configs[next := nc], rows[next := map[]], finals, done)
  {
    var c := configs[s];
    var configs' := configs[next := nc];
    assert Sound(v, c);
    MovesPlausible(v, c, sym);
    ReachableStep(v, c, nc);
    RegistryGrows(v, startID, next, ids, configs, nc);
    ExpandedBelowGrows(v, gen, startID, s, next, configs, rows, nc);
    PartialRowGrows(v, gen, configs, configs', c, rows[s], done);
    FinalsBelowGrows(v, startID, s + 1, next, configs, finals, nc);
  }

  /** The search starts with the root configuration in the queue. */
  lemma Start(v: seq<StateView>, gen: Generation, startID: int)
    requires ViewWellFormed(v)
    ensures Unfolding(v, gen, startID, startID, startID + 1, map[RootConfig := startID],
                      map[startID := RootConfig], map[startID := map[]], {})
  {
    RootReachable(v);
    assert Plausible(v, RootConfig);
    assert Sound(v, RootConfig);
  }

  lemma ElementsIn<T>(xs: seq<T>, s: set<T>)
    requires (set x | x in xs) == s
    ensures forall j :: 0 <= j < |xs| ==> xs[j] in s
  {
    forall j | 0 <= j < |xs| ensures xs[j] in s {
      var x := xs[j];
      assert x in (set y | y in xs);
    }
  }

  /** The head of the queue is a met configuration of a state the NCA has. */
  lemma UnfoldingHead(v: seq<StateView>, gen: Generation, startID: int, s: int, next: int,
                      ids: map<Configuration, int>, configs: map<int, Configuration>,
                      rows: map<int, map<string, seq<int>>>, finals: set<int>)
    requires ViewWellFormed(v)
    requires Unfolding(v, gen, startID, s, next, ids, configs, rows, finals) && s < next
    ensures s in configs && s in rows && 0 <= configs[s].state < |v|
  {
  }

  /** Evaluating the finalization of state `s` starts its expansion. */
  lemma BeginState(v: seq<StateView>, gen: Generation, startID: int, s: int, next: int,
                   ids: map<Configuration, int>, configs: map<int, Configuration>,
                   rows: map<int, map<string, seq<int>>>, finals: set<int>, isFinal: bool)
    requires ViewWellFormed(v)
    requires Unfolding(v, gen, startID, s, next, ids, configs, rows, finals) && s < next
    requires Finalization(v, configs[s]) == Ok(isFinal)
    ensures Expanding(v, gen, startID, s, next, ids, configs, rows, if isFinal then finals + {s} else finals, {})
  {
    var finals' := if isFinal then finals + {s} else finals;
    forall k ensures k in finals' <==> FinalBelow(v, startID, s + 1, configs, k) {
      assert k in finals <==> FinalBelow(v, startID, s, configs, k);
    }
  }

  /** The search never meets more configurations than there are. */
  lemma MetBound(v: seq<StateView>, startID: int, next: int, ids: map<Configuration, int>, configs: map<int, Configuration>)
    requires ViewWellFormed(v) && Registry(v, startID, next, ids, configs)
    ensures |ids| <= |Universe(v)|
  {
    forall c | c in ids.Keys ensures c in Universe(v) {
      var k := ids[c];
      assert k in configs;
      assert Sound(v, configs[k]);
      PlausibleInUniverse(v, c);
    }
    var u := Universe(v);
    assert u == ids.Keys + (u - ids.Keys);
  }

  lemma RegistryGrows(v: seq<StateView>, startID: int, next: int, ids: map<Configuration, int>,
                      configs: map<int, Configuration>, nc: Configuration)
    requires ViewWellFormed(v) && Registry(v, startID, next, ids, configs)
    requires nc !in ids && Sound(v, nc)
    ensures Registry(v, startID, next + 1, ids[nc := next], configs[next := nc])
  {
    assert next !in configs;
    var configs' := configs[next := nc];
    forall k | k in configs' ensures Sound(v, configs'[k]) {
      if k != next {
        assert Sound(v, configs[k]);
      }
    }
  }

  lemma ExpandedBelowGrows(v: seq<StateView>, gen: Generation, startID: int, head: int, next: int,
                           configs: map<int, Configuration>, rows: map<int, map<string, seq<int>>>, nc: Configuration)
    requires ViewWellFormed(v) && ExpandedBelow(v, gen, startID, head, configs, rows)
    requires head <= next && next !in configs
    ensures ExpandedBelow(v, gen, startID, head, configs[next := nc], rows[next := map[]])
  {
    var configs' := configs[next := nc];
    var rows' := rows[next := map[]];
    forall k | startID <= k < head ensures ExpandedAt(v, gen, configs', rows', k) {
      assert ExpandedAt(v, gen, configs, rows, k);
      PartialRowGrows(v, gen, configs, configs', configs[k], rows[k], v[configs[k].state].transitions.Keys);
    }
  }

  lemma FinalsBelowGrows(v: seq<StateView>, startID: int, hi: int, next: int,
                         configs: map<int, Configuration>, finals: set<int>, nc: Configuration)
    requires ViewWellFormed(v) && FinalsBelow(v, startID, hi, configs, finals)
    requires hi <= next && next !in configs
    ensures FinalsBelow(v, startID, hi, configs[next := nc], finals)
  {
  }

  /** A list grows by the entry (or, `twice`, the two entries) for one more
      configuration `c`, named by the met state `dest`. */
  lemma ListStep(gen: Generation, configs: map<int, Configuration>, configs': map<int, Configuration>,
                 list: seq<int>, seen: seq<Configuration>, dest: int, c: Configuration, twice: bool)
    requires forall k :: k in configs ==> k in configs' && configs'[k] == configs[k]
    requires ListSoFar(gen, configs, list, seen)
    requires dest in configs' && configs'[dest] == c
    requires twice ==> gen == AutomataGeneration
    ensures ListSoFar(gen, configs', list + (if twice then [dest, dest] else [dest]), seen + [c])
  {
    var list' := list + (if twice then [dest, dest] else [dest]);
    var seen' := seen + [c];
    forall i | 0 <= i < |list'| ensures list'[i] in configs' && configs'[list'[i]] in seen' {
      if i < |list| {
        assert list'[i] == list[i];
        assert configs[list[i]] in seen;
      }
    }
    forall j | 0 <= j < |seen'| ensures Names(configs', list', seen'[j]) {
      if j < |seen| {
        assert Names(configs, list, seen[j]);
        var i :| 0 <= i < |list| && list[i] in configs && configs[list[i]] == seen[j];
        assert list'[i] == list[i] && seen'[j] == seen[j];
        assert list'[i] in configs' && configs'[list'[i]] == seen'[j];
      } else {
        assert list'[|list|] == dest;
      }
    }
  }

  /** A finished list is the row of its symbol. */
  lemma ListIsRow(v: seq<StateView>, gen: Generation, configs: map<int, Configuration>, c: Configuration,
                  sym: string, list: seq<int>, found: seq<Configuration>)
    requires ViewWellFormed(v) && 0 <= c.state < |v| && sym in v[c.state].transitions
    requires Moves(v, c, sym).Some? && (set d | d in found) == Moves(v, c, sym).value
    requires |found| == |AllowedAmong(v[c.state].transitions[sym], c.counterValues)|
    requires ListSoFar(gen, configs, list, found)
    ensures RowMatches(v, gen, configs, c, sym, list)
  {
    forall d | d in Moves(v, c, sym).value ensures Names(configs, list, d) {
      assert d in (set x | x in found);
      var j :| 0 <= j < |found| && found[j] == d;
    }
  }

  /** Putting the list of `sym` into the row of state `s`. */
  lemma AddRow(v: seq<StateView>, gen: Generation, startID: int, s: int, next: int,
               ids: map<Configuration, int>, configs: map<int, Configuration>,
               rows: map<int, map<string, seq<int>>>, finals: set<int>, done: set<string>, sym: string, list: seq<int>)
    requires ViewWellFormed(v)
    requires Expanding(v, gen, startID, s, next, ids, configs, rows, finals, done)
    requires sym in v[configs[s].state].transitions && sym !in done
    requires RowMatches(v, gen, configs, configs[s], sym, list)
    ensures Expanding(v, gen, startID, s, next, ids, configs, rows[s := rows[s][sym := list]], finals, done + {sym})
  {
    var rows' := rows[s := rows[s][sym := list]];
    assert rows'.Keys == rows.Keys;
    ExpandedBelowFrame(v, gen, startID, s, configs, rows, rows');
    PartialRowAdd(v, gen, configs, configs[s], rows[s], done, sym, list);
  }

  /** Rows below `head` that stay as they were stay expanded. */
  lemma ExpandedBelowFrame(v: seq<StateView>, gen: Generation, startID: int, head: int,
                           configs: map<int, Configuration>, rows: map<int, map<string, seq<int>>>,
                           rows': map<int, map<string, seq<int>>>)
    requires ViewWellFormed(v)
    requires ExpandedBelow(v, gen, startID, head, configs, rows)
    requires forall k :: startID <= k < head ==> k in rows && k in rows' && rows'[k] == rows[k]
    ensures ExpandedBelow(v, gen, startID, head, configs, rows')
  {
    forall k | startID <= k < head ensures ExpandedAt(v, gen, configs, rows', k) {
      assert ExpandedAt(v, gen, configs, rows, k);
    }
  }

  /** A row grows by the list of one more symbol. */
  lemma PartialRowAdd(v: seq<StateView>, gen: Generation, configs: map<int, Configuration>, c: Configuration,
                      row: map<string, seq<int>>, done: set<string>, sym: string, list: seq<int>)
    requires ViewWellFormed(v) && 0 <= c.state < |v|
    requires PartialRow(v, gen, configs, c, row, done)
    requires sym in v[c.state].transitions && RowMatches(v, gen, configs, c, sym, list)
    ensures PartialRow(v, gen, configs, c, row[sym := list], done + {sym})
  {
  }

  /** The state at the head of the queue has been expanded. */
  lemma FinishState(v: seq<StateView>, gen: Generation, startID: int, s: int, next: int,
                    ids: map<Configuration, int>, configs: map<int, Configuration>,
                    rows: map<int, map<string, seq<int>>>, finals: set<int>, done: set<string>)
    requires ViewWellFormed(v)
    requires Expanding(v, gen, startID, s, next, ids, configs, rows, finals, done)
    requires done == v[configs[s].state].transitions.Keys
    ensures Unfolding(v, gen, startID, s + 1, next, ids, configs, rows, finals)
  {
    var c := configs[s];
    forall sym | sym in v[c.state].transitions ensures Moves(v, c, sym).Some? {
      assert RowMatches(v, gen, configs, c, sym, rows[s][sym]);
    }
  }

  /** `met` holds the root configuration and every move out of it. */
  ghost predicate ClosedUnderMoves(v: seq<StateView>, met: set<Configuration>)
    requires ViewWellFormed(v)
  {
    && RootConfig in met
    && forall c, d :: c in met && MovesTo(v, c, d) ==> d in met
  }

  /** A set closed under moves holds every reachable configuration. */
  lemma {:induction false} RunsStayIn(v: seq<StateView>, met: set<Configuration>, path: seq<Configuration>)
    requires ViewWellFormed(v) && ClosedUnderMoves(v, met) && IsRun(v, path)
    ensures path[|path| - 1] in met
    decreases |path|
  {
    if |path| > 1 {
      var prefix := path[..|path| - 1];
      assert IsRun(v, prefix) by {
        forall i | 0 <= i < |prefix| - 1 ensures MovesTo(v, prefix[i], prefix[i + 1]) {
          assert prefix[i] == path[i] && prefix[i + 1] == path[i + 1];
        }
      }
      RunsStayIn(v, met, prefix);
      assert MovesTo(v, path[|path| - 2], path[|path| - 1]);
    }
  }

  /** When the queue is empty, the met configurations are closed under moves. */
  lemma Closed(v: seq<StateView>, gen: Generation, startID: int, next: int,
               ids: map<Configuration, int>, configs: map<int, Configuration>,
               rows: map<int, map<string, seq<int>>>, finals: set<int>)
    requires ViewWellFormed(v)
    requires Unfolding(v, gen, startID, next, next, ids, configs, rows, finals)
    ensures ClosedUnderMoves(v, ids.Keys)
  {
    assert configs[startID] in ids;
    forall c, d | c in ids && MovesTo(v, c, d) ensures d in ids {
      var k := ids[c];
      assert ExpandedAt(v, gen, configs, rows, k);
      var sym :| sym in v[c.state].transitions && Moves(v, c, sym).Some? && d in Moves(v, c, sym).value;
      var list := rows[k][sym];
      assert RowMatches(v, gen, configs, c, sym, list);
      assert Names(configs, list, d);
      var i :| 0 <= i < |list| && list[i] in configs && configs[list[i]] == d;
      var j := list[i];
      assert j in configs;
    }
  }

  /** The search ends with the finished NFA, and no reachable configuration
      throws. */
  lemma Finished(v: seq<StateView>, gen: Generation, startID: int, next: int,
                 ids: map<Configuration, int>, configs: map<int, Configuration>,
                 rows: map<int, map<string, seq<int>>>, finals: set<int>)
    requires ViewWellFormed(v)
    requires Unfolding(v, gen, startID, next, next, ids, configs, rows, finals)
    ensures Unfolded(v, gen, startID, configs, rows, finals)
    ensures forall c :: Reachable(v, c) ==> !Throws(v, c)
  {
    Closed(v, gen, startID, next, ids, configs, rows, finals);
    forall c | Reachable(v, c) ensures exists k :: k in configs && configs[k] == c && !Throws(v, c) {
      var path :| IsRun(v, path) && path[|path| - 1] == c;
      RunsStayIn(v, ids.Keys, path);
      var k := ids[c];
      assert ExpandedAt(v, gen, configs, rows, k);
      assert k in configs && configs[k] == c && !Throws(v, c);
    }
    forall k | k in configs ensures Reachable(v, configs[k]) && Expanded(v, gen, configs, configs[k], rows[k]) {
      assert Sound(v, configs[k]);
      assert ExpandedAt(v, gen, configs, rows, k);
    }
    forall k ensures k in finals <==> k in configs && Finalization(v, configs[k]) == Ok(true) {
      assert k in finals <==> FinalBelow(v, startID, next, configs, k);
    }
  }

  /** A state that throws is reachable, so the source throws. */
  lemma ThrowsReachable(v: seq<StateView>, startID: int, next: int,
                        ids: map<Configuration, int>, configs: map<int, Configuration>, s: int)
    requires ViewWellFormed(v) && Registry(v, startID, next, ids, configs) && s in configs && Throws(v, configs[s])
    ensures exists c :: Reachable(v, c) && Throws(v, c)
  {
    assert Sound(v, configs[s]);
  }
}
