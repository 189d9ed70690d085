/** The NFA unfolded from an NCA, and the matcher that runs it.

    The constructor searches the configurations of the NCA breadth first from the
    root configuration. Each configuration it meets becomes an NFA state, and
    the ids are handed out from the NCA's size upwards in the order in which the
    configurations are first met. When a state leaves the queue it is marked
    final if the finalization function holds. It then gets one transition list
    per symbol of its NCA state, naming the states of the configurations that
    the transition function yields. Both packages unfold this way. The
    `automata` copy appends a destination it had met before twice.

    NFA states compare and hash by id, so the model names a state by its id:
    `nfaStates` maps an id to its configuration and `transitions` maps an id to
    the state's transition lists. */
module Nfas {
  import opened Util
  import opened Counters
  import opened NcaTransitions
  import opened NcaStates
  import opened Configurations
  import opened SetBuilder
  import opened Ncas
  import opened NfaSearch
  import opened Matching

  // ---------------------------------------------------------------------------
  // The NFA

  /** The inner loop of getNextMergedState: every symbol of one state's row
      that matches `c` adds its destinations. */
  method AddMatching(acc: set<int>, row: map<string, seq<int>>, c: char, classMatch: (string, char) -> bool)
    returns (r: set<int>)
    ensures r == acc + RowTargets(row, row.Keys, c, classMatch)
  {
    r := acc;
    var symbols := row.Keys;
    ghost var seen: set<string> := {};
    assert RowTargets(row, seen, c, classMatch) == {};
    while symbols != {}
      invariant seen == row.Keys - symbols && symbols <= row.Keys
      invariant r == acc + RowTargets(row, seen, c, classMatch)
      decreases |symbols|
    {
      var symbol := Pick(symbols);
      if CharMatches(symbol, c, classMatch) {
        r := r + Elements(row[symbol]);
      }
      RowTargetsOneMore(row, seen, symbol, c, classMatch);
      Take(row.Keys, symbols, seen, symbol);
      symbols := symbols - {symbol};
      seen := seen + {symbol};
    }
    assert seen == row.Keys;
  }

  class Nfa {
    const startID: int
    const regex: string
    /** Each state's configuration, by id. */
    var nfaStates: map<int, Configuration>
    /** Each state's transition lists, by id and symbol. */
    var transitions: map<int, map<string, seq<int>>>
    var finalStates: set<int>

    /** The NFA of `nca` with the states, transition lists and final states
        the search built (see Unfold); the NCA is left as it was. */
    constructor(nca: Nca, ghost v: seq<StateView>, nfaStates: map<int, Configuration>,
                transitions: map<int, map<string, seq<int>>>, finalStates: set<int>)
      requires nca.Valid() && nca.View() == v
      ensures nca.Valid() && nca.View() == v
      ensures this.startID == nca.Size() && this.regex == nca.regex
      ensures this.nfaStates == nfaStates && this.transitions == transitions && this.finalStates == finalStates
    {
      this.startID := nca.Size();
      this.regex := nca.regex;
      this.nfaStates := nfaStates;
      this.transitions := transitions;
      this.finalStates := finalStates;
    }

    /** getNextMergedState: for each active state and each of its symbols
        that matches `c`, every listed destination becomes active. */
    method GetNextMergedState(c: char, ms: set<int>, classMatch: (string, char) -> bool) returns (nextMs: set<int>)
      ensures nextMs == NextMerged(transitions, ms, c, classMatch)
    {
      nextMs := {};
      var rest := ms;
      ghost var done: set<int> := {};
      assert NextMerged(transitions, done, c, classMatch) == {};
      while rest != {}
        invariant done == ms - rest && rest <= ms
        invariant nextMs == NextMerged(transitions, done, c, classMatch)
        decreases |rest|
      {
        var s := Pick(rest);
        var row := if s in transitions then transitions[s] else map[];
        nextMs := AddMatching(nextMs, row, c, classMatch);
        NextMergedOneMore(transitions, done, s, c, classMatch);
        Take(ms, rest, done, s);
        rest := rest - {s};
        done := done + {s};
      }
    }

    /** tryMatch: start from the start state, take one merged step per
        character, then look for a final state among the active ones. */
    method TryMatch(input: string, classMatch: (string, char) -> bool) returns (matched: bool)
      ensures matched <==> Accepts(transitions, startID, finalStates, input, classMatch)
    {
      var ms := {startID};
      var i := 0;
      while i < |input|
        invariant 0 <= i <= |input|
        invariant ms == ActiveAfter(transitions, {startID}, input[..i], classMatch)
      {
        ms := GetNextMergedState(input[i], ms, classMatch);
        ActiveAfterSnoc(transitions, {startID}, input[..i], input[i], classMatch);
        assert input[..i + 1] == input[..i] + [input[i]];
        i := i + 1;
      }
      assert input[..i] == input;
      var rest := ms;
      while rest != {}
        invariant rest <= ms
        invariant forall s :: s in ms - rest ==> s !in finalStates
        decreases |rest|
      {
        var s := Pick(rest);
        if s in finalStates {
          return true;
        }
        rest := rest - {s};
      }
      assert ms - rest == ms;
      return false;
    }

    /** The fields hold the finished NFA of the reachable configurations of
        `v`. */
    ghost predicate Built(v: seq<StateView>, gen: Generation)
      requires ViewWellFormed(v)
      reads this
    {
      Unfolded(v, gen, startID, nfaStates, transitions, finalStates)
    }

    /** A built NFA accepts, by TryMatch, exactly the inputs the NCA accepts. */
    lemma BuiltMatchesNca(v: seq<StateView>, gen: Generation, input: string, classMatch: (string, char) -> bool)
      requires ViewWellFormed(v) && Built(v, gen)
      ensures Accepts(transitions, startID, finalStates, input, classMatch) <==> NcaAccepts(v, input, classMatch)
    {
      TryMatchAgrees(v, gen, startID, nfaStates, transitions, finalStates, input, classMatch);
    }
  }

  // ---------------------------------------------------------------------------
  // The search

  /** What the constructor's loop works on: the ids handed out so far, the
      states (`configs`), their transition lists (`rows`), the final states, the
      queue and the id the next new configuration gets. */
  datatype Search = Search(ids: map<Configuration, int>, configs: map<int, Configuration>,
                           rows: map<int, map<string, seq<int>>>, finals: set<int>, queue: seq<int>, next: int)

  /** Between two passes of the loop: the states before `head` are done, the
      rest wait in the queue. */
  ghost predicate Between(v: seq<StateView>, gen: Generation, startID: int, head: int, st: Search)
    requires ViewWellFormed(v)
  {
    Unfolding(v, gen, startID, head, st.next, st.ids, st.configs, st.rows, st.finals) && Queued(st.queue, head, st.next)
  }

  /** While state `s`, taken off the queue, is expanded: the symbols in `done`
      have their lists. */
  ghost predicate Within(v: seq<StateView>, gen: Generation, startID: int, s: int, done: set<string>, st: Search)
    requires ViewWellFormed(v)
  {
    Expanding(v, gen, startID, s, st.next, st.ids, st.configs, st.rows, st.finals, done) && Queued(st.queue, s + 1, st.next)
  }

  /** Each configuration met joins the queue. */
  predicate Grew(st0: Search, st: Search) {
    |st.queue| - |st0.queue| == |st.ids| - |st0.ids| >= 0
  }

  /** NFA(nca): the breadth-first search from the root configuration. It
      throws exactly when a reachable configuration makes the finalization or
      transition function throw; otherwise it builds the NFA of the reachable
      configurations, numbered from the NCA's size on. */
  method Unfold(nca: Nca, gen: Generation) returns (r: Result<Nfa>)
    requires nca.Valid()
    ensures r.Ok? <==> forall c :: Reachable(nca.View(), c) ==> !Throws(nca.View(), c)
    ensures r.Ok? ==> fresh(r.value) && r.value.startID == nca.Size() && r.value.regex == nca.regex
    ensures r.Ok? ==> r.value.Built(nca.View(), gen)
  {
    ghost var v := nca.View();
    var id := nca.Size();
    var config := nca.GetRootConfig();
    var search, head := BreadthFirst(nca, v, gen, id, config);
    if search.Err? {
      assert nca.View() == v;
      return Err(search.error);
    }
    var st := search.value;
    Done(v, gen, id, head, st);
    var nfa := new Nfa(nca, v, st.configs, st.rows, st.finals);
    r := Ok(nfa);
  }

  /** The loop of the constructor, from the root configuration until the
      queue is empty or a function throws. */
  method BreadthFirst(nca: Nca, ghost v: seq<StateView>, gen: Generation, id: int, config: Configuration)
    returns (r: Result<Search>, ghost head: int)
    requires nca.Valid() && v == nca.View() && id == nca.Size() && config == RootConfig
    ensures r.Err? ==> exists c :: Reachable(v, c) && Throws(v, c)
    ensures r.Ok? ==> Between(v, gen, id, head, r.value) && |r.value.queue| == 0
  {
    var st := Search(map[config := id], map[id := config], map[id := map[]], {}, [id], id + 1);
    head := id;
    Started(v, gen, id);
    Bounded(v, gen, id, head, st);
    while |st.queue| > 0
      invariant nca.Valid() && nca.View() == v
      invariant Between(v, gen, id, head, st)
      invariant |st.ids| <= |Universe(v)|
      decreases |Universe(v)| - |st.ids|, |st.queue|
    {
      var result;
      result, st := Step(nca, v, gen, id, head, st);
      if result.Err? {
        return Err(result.error), head;
      }
      head := head + 1;
      Bounded(v, gen, id, head, st);
    }
    r := Ok(st);
  }

  /** One pass of the loop: takes state `head` off the queue, marks it final
      if its finalization holds, then builds its list for each symbol of its
      NCA state. A finalization or transition function that throws ends the
      search. */
  method Step(nca: Nca, ghost v: seq<StateView>, gen: Generation, startID: int, ghost head: int, st0: Search)
    returns (r: Result<()>, st: Search)
    requires nca.Valid() && v == nca.View()
    requires Between(v, gen, startID, head, st0) && |st0.queue| > 0
    ensures nca.Valid() && nca.View() == v
    ensures r.Err? ==> exists c :: Reachable(v, c) && Throws(v, c)
    ensures r.Ok? ==> Between(v, gen, startID, head + 1, st)
    ensures r.Ok? ==> |st.queue| + 1 - |st0.queue| == |st.ids| - |st0.ids| >= 0
  {
    Popped(v, gen, startID, head, st0);
    var s := st0.queue[0];
    assert s == head;
    var config := st0.configs[s];
    st := st0.(queue := st0.queue[1..]);
    var isFinal := nca.EvaluateFinalizationFunction(config);
    if isFinal.Err? {
      FinalThrows(v, gen, startID, head, st0);
      return Err(isFinal.error), st;
    }
    if isFinal.value {
      st := st.(finals := st.finals + {s});
    }
    Begin(v, gen, startID, head, st0, isFinal.value);
    assert |st.queue| + 1 == |st0.queue| && st.ids == st0.ids;
    r, st := ExpandSymbols(nca, v, gen, startID, s, st);
  }

  /** The loop over the symbols of state `s`'s NCA state. */
  method ExpandSymbols(nca: Nca, ghost v: seq<StateView>, gen: Generation, startID: int, s: int, st0: Search)
    returns (r: Result<()>, st: Search)
    requires nca.Valid() && v == nca.View()
    requires Within(v, gen, startID, s, {}, st0) && s in st0.configs && 0 <= st0.configs[s].state < |v|
    ensures nca.Valid() && nca.View() == v
    ensures r.Err? ==> exists c :: Reachable(v, c) && Throws(v, c)
    ensures r.Ok? ==> Between(v, gen, startID, s + 1, st) && Grew(st0, st)
  {
    st := st0;
    var config := st.configs[s];
    var symbols := nca.states[config.state].transitions.Keys;
    ghost var done: set<string> := {};
    while symbols != {}
      invariant nca.Valid() && nca.View() == v
      invariant done == v[config.state].transitions.Keys - symbols && symbols <= v[config.state].transitions.Keys
      invariant Within(v, gen, startID, s, done, st)
      invariant s in st.configs && st.configs[s] == config
      invariant Grew(st0, st)
      decreases |symbols|
    {
      var symbol :| symbol in symbols;
      var step;
      step, st := ExpandSymbol(nca, v, gen, startID, s, symbol, done, st);
      if step.Err? {
        return Err(step.error), st;
      }
      Take(v[config.state].transitions.Keys, symbols, done, symbol);
      symbols := symbols - {symbol};
      done := done + {symbol};
    }
    Finish(v, gen, startID, s, done, st);
    r := Ok(());
  }

  /** One pass of the loop over the symbols of state `s`: the configurations
      the state moves to on `symbol` become its list for `symbol`. */
  method ExpandSymbol(nca: Nca, ghost v: seq<StateView>, gen: Generation, startID: int, s: int, symbol: string,
                      ghost done: set<string>, st0: Search)
    returns (r: Result<()>, st: Search)
    requires nca.Valid() && v == nca.View()
    requires Within(v, gen, startID, s, done, st0) && s in st0.configs && 0 <= st0.configs[s].state < |v|
    requires symbol in v[st0.configs[s].state].transitions && symbol !in done
    ensures nca.Valid() && nca.View() == v
    ensures r.Err? ==> exists c :: Reachable(v, c) && Throws(v, c)
    ensures r.Ok? ==> Within(v, gen, startID, s, done + {symbol}, st)
    ensures r.Ok? ==> s in st.configs && st.configs[s] == st0.configs[s] && Grew(st0, st)
  {
    st := st0;
    var config := st.configs[s];
    var found := Transitions(nca, v, config, symbol);
    if found.Err? {
      MoveThrows(v, gen, startID, s, done, st);
      return Err(found.error), st;
    }
    st := AddTransitions(v, gen, startID, s, symbol, done, found.value, st);
    r := Ok(());
  }

  /** evaluateTransitionFunction on a symbol of the state: the NCA is left as
      it was. */
  method Transitions(nca: Nca, ghost v: seq<StateView>, config: Configuration, symbol: string)
    returns (r: Result<seq<Configuration>>)
    requires nca.Valid() && v == nca.View() && 0 <= config.state < |v| && symbol in v[config.state].transitions
    ensures nca.Valid() && nca.View() == v
    ensures r.Ok? <==> Moves(v, config, symbol).Some?
    ensures r.Ok? ==> (set d | d in r.value) == Moves(v, config, symbol).value
    ensures r.Ok? ==> |r.value| == |AllowedAmong(v[config.state].transitions[symbol], config.counterValues)|
  {
    r := nca.EvaluateTransitionFunction(config, symbol);
  }

  /** The list of state `s` for `symbol`, built from the configurations
      `found` the transition function yields, joins the state's row. */
  method AddTransitions(ghost v: seq<StateView>, gen: Generation, startID: int, s: int, symbol: string,
                        ghost done: set<string>, found: seq<Configuration>, st0: Search)
    returns (st: Search)
    requires ViewWellFormed(v)
    requires Within(v, gen, startID, s, done, st0) && s in st0.configs && 0 <= st0.configs[s].state < |v|
    requires symbol in v[st0.configs[s].state].transitions && symbol !in done
    requires Moves(v, st0.configs[s], symbol).Some? && (set d | d in found) == Moves(v, st0.configs[s], symbol).value
    requires |found| == |AllowedAmong(v[st0.configs[s].state].transitions[symbol], st0.configs[s].counterValues)|
    ensures Within(v, gen, startID, s, done + {symbol}, st)
    ensures s in st.configs && st.configs[s] == st0.configs[s] && Grew(st0, st)
  {
    ElementsIn(found, Moves(v, st0.configs[s], symbol).value);
    var list;
    list, st := CollectList(v, gen, startID, s, symbol, done, found, st0);
    AddList(v, gen, startID, s, done, symbol, list, found, st);
    st := st.(rows := st.rows[s := st.rows[s][symbol := list]]);
  }

  /** The loop over the configurations `found` that state `s` moves to on
      `symbol`: a configuration met for the first time gets the next id and
      joins the queue; one met before is looked up. */
  method CollectList(ghost v: seq<StateView>, gen: Generation, startID: int, s: int, symbol: string,
                     ghost done: set<string>, found: seq<Configuration>, st0: Search)
    returns (list: seq<int>, st: Search)
    requires ViewWellFormed(v)
    requires Within(v, gen, startID, s, done, st0) && s in st0.configs && 0 <= st0.configs[s].state < |v|
    requires symbol in v[st0.configs[s].state].transitions && Moves(v, st0.configs[s], symbol).Some?
    requires forall j :: 0 <= j < |found| ==> found[j] in Moves(v, st0.configs[s], symbol).value
    ensures Within(v, gen, startID, s, done, st) && s in st.configs && st.configs[s] == st0.configs[s]
    ensures ListSoFar(gen, st.configs, list, found) && Grew(st0, st)
  {
    list, st := [], st0;
    var j := 0;
    while j < |found|
      invariant 0 <= j <= |found|
      invariant Within(v, gen, startID, s, done, st) && s in st.configs && st.configs[s] == st0.configs[s]
      invariant ListSoFar(gen, st.configs, list, found[..j]) && Grew(st0, st)
    {
      assert found[..j + 1] == found[..j] + [found[j]];
      list, st := Visit(v, gen, startID, s, symbol, done, found[j], found[..j], list, st);
      j := j + 1;
    }
    assert found[..j] == found;
  }

  /** One pass of that loop, for the configuration `nextConfig`. The
      `automata` copy appends a destination met before twice. */
  method Visit(ghost v: seq<StateView>, gen: Generation, startID: int, s: int, symbol: string, ghost done: set<string>,
               nextConfig: Configuration, ghost seen: seq<Configuration>, list0: seq<int>, st0: Search)
    returns (list: seq<int>, st: Search)
    requires ViewWellFormed(v)
    requires Within(v, gen, startID, s, done, st0) && s in st0.configs && 0 <= st0.configs[s].state < |v|
    requires symbol in v[st0.configs[s].state].transitions && Moves(v, st0.configs[s], symbol).Some?
    requires nextConfig in Moves(v, st0.configs[s], symbol).value
    requires ListSoFar(gen, st0.configs, list0, seen)
    ensures Within(v, gen, startID, s, done, st) && s in st.configs && st.configs[s] == st0.configs[s]
    ensures ListSoFar(gen, st.configs, list, seen + [nextConfig]) && Grew(st0, st)
  {
    if nextConfig !in st0.ids {
      var next := st0.next;
      MeetNew(v, gen, startID, s, symbol, done, nextConfig, seen, list0, st0);
      st := Search(st0.ids[nextConfig := next], st0.configs[next := nextConfig], st0.rows[next := map[]],
                   st0.finals, st0.queue + [next], next + 1);
      list := list0 + [next];
    } else {
      st := st0;
      var dest := st.ids[nextConfig];
      MeetAgain(v, gen, startID, s, done, nextConfig, seen, list0, st);
      if gen == AutomataGeneration {
        list := list0 + [dest];
        list := list + [dest];
        assert list == list0 + [dest, dest];
      } else {
        list := list0 + [dest];
      }
    }
  }

  // ---------------------------------------------------------------------------
  // The steps of the search keep its invariant

  /** The search starts with the root configuration in the queue. */
  lemma Started(v: seq<StateView>, gen: Generation, startID: int)
    requires ViewWellFormed(v)
    ensures Between(v, gen, startID, startID,
                    Search(map[RootConfig := startID], map[startID := RootConfig], map[startID := map[]], {}, [startID], startID + 1))
  {
    Start(v, gen, startID);
  }

  /** The search never meets more configurations than there are. */
  lemma Bounded(v: seq<StateView>, gen: Generation, startID: int, head: int, st: Search)
    requires ViewWellFormed(v) && Between(v, gen, startID, head, st)
    ensures |st.ids| <= |Universe(v)|
  {
    MetBound(v, startID, st.next, st.ids, st.configs);
  }

  /** With the queue empty the NFA is finished, and no reachable configuration
      throws. */
  lemma Done(v: seq<StateView>, gen: Generation, startID: int, head: int, st: Search)
    requires ViewWellFormed(v) && Between(v, gen, startID, head, st) && |st.queue| == 0
    ensures Unfolded(v, gen, startID, st.configs, st.rows, st.finals)
    ensures forall c :: Reachable(v, c) ==> !Throws(v, c)
  {
    Finished(v, gen, startID, st.next, st.ids, st.configs, st.rows, st.finals);
  }

  /** The head of the queue is the next state to expand. */
  lemma Popped(v: seq<StateView>, gen: Generation, startID: int, head: int, st: Search)
    requires ViewWellFormed(v) && Between(v, gen, startID, head, st) && |st.queue| > 0
    ensures st.queue[0] == head && head in st.configs && head in st.rows && 0 <= st.configs[head].state < |v|
  {
    UnfoldingHead(v, gen, startID, head, st.next, st.ids, st.configs, st.rows, st.finals);
  }

  lemma FinalThrows(v: seq<StateView>, gen: Generation, startID: int, head: int, st: Search)
    requires ViewWellFormed(v) && Between(v, gen, startID, head, st) && head in st.configs
    requires 0 <= st.configs[head].state < |v| && Finalization(v, st.configs[head]).Err?
    ensures exists c :: Reachable(v, c) && Throws(v, c)
  {
    ThrowsReachable(v, startID, st.next, st.ids, st.configs, head);
  }

  lemma MoveThrows(v: seq<StateView>, gen: Generation, startID: int, s: int, done: set<string>, st: Search)
    requires ViewWellFormed(v) && Within(v, gen, startID, s, done, st) && s in st.configs
    requires Throws(v, st.configs[s])
    ensures exists c :: Reachable(v, c) && Throws(v, c)
  {
    ThrowsReachable(v, startID, st.next, st.ids, st.configs, s);
  }

  /** Taking the head off the queue and evaluating its finalization starts
      its expansion. */
  lemma Begin(v: seq<StateView>, gen: Generation, startID: int, head: int, st: Search, isFinal: bool)
    requires ViewWellFormed(v) && Between(v, gen, startID, head, st) && |st.queue| > 0
    requires head in st.configs && 0 <= st.configs[head].state < |v| && Finalization(v, st.configs[head]) == Ok(isFinal)
    ensures Within(v, gen, startID, head, {},
                   st.(queue := st.queue[1..], finals := if isFinal then st.finals + {head} else st.finals))
  {
    BeginState(v, gen, startID, head, st.next, st.ids, st.configs, st.rows, st.finals, isFinal);
  }

  /** When every symbol has its list, the state is done. */
  lemma Finish(v: seq<StateView>, gen: Generation, startID: int, s: int, done: set<string>, st: Search)
    requires ViewWellFormed(v) && Within(v, gen, startID, s, done, st) && s in st.configs && 0 <= st.configs[s].state < |v|
    requires done == v[st.configs[s].state].transitions.Keys
    ensures Between(v, gen, startID, s + 1, st)
  {
    FinishState(v, gen, startID, s, st.next, st.ids, st.configs, st.rows, st.finals, done);
  }

  /** The list built for `symbol` is the state's row entry for it. */
  lemma AddList(v: seq<StateView>, gen: Generation, startID: int, s: int, done: set<string>, symbol: string,
                list: seq<int>, found: seq<Configuration>, st: Search)
    requires ViewWellFormed(v) && Within(v, gen, startID, s, done, st) && s in st.configs && 0 <= st.configs[s].state < |v|
    requires symbol in v[st.configs[s].state].transitions && symbol !in done
    requires Moves(v, st.configs[s], symbol).Some? && (set d | d in found) == Moves(v, st.configs[s], symbol).value
    requires |found| == |AllowedAmong(v[st.configs[s].state].transitions[symbol], st.configs[s].counterValues)|
    requires ListSoFar(gen, st.configs, list, found)
    ensures s in st.rows
    ensures Within(v, gen, startID, s, done + {symbol}, st.(rows := st.rows[s := st.rows[s][symbol := list]]))
  {
    ListIsRow(v, gen, st.configs, st.configs[s], symbol, list, found);
    AddRow(v, gen, startID, s, st.next, st.ids, st.configs, st.rows, st.finals, done, symbol, list);
  }

  /** A configuration met for the first time gets the next id and joins the
      queue. */
  lemma MeetNew(v: seq<StateView>, gen: Generation, startID: int, s: int, symbol: string, done: set<string>,
                nc: Configuration, seen: seq<Configuration>, list: seq<int>, st: Search)
    requires ViewWellFormed(v) && Within(v, gen, startID, s, done, st) && s in st.configs && 0 <= st.configs[s].state < |v|
    requires symbol in v[st.configs[s].state].transitions && Moves(v, st.configs[s], symbol).Some?
    requires nc in Moves(v, st.configs[s], symbol).value && nc !in st.ids
    requires ListSoFar(gen, st.configs, list, seen)
    ensures s != st.next
    ensures Within(v, gen, startID, s, done, Search(st.ids[nc := st.next], st.configs[st.next := nc], st.rows[st.next := map[]],
                                                    st.finals, st.queue + [st.next], st.next + 1))
    ensures ListSoFar(gen, st.configs[st.next := nc], list + [st.next], seen + [nc])
  {
    Meet(v, gen, startID, s, st.next, st.ids, st.configs, st.rows, st.finals, done, symbol, nc);
    ListStep(gen, st.configs, st.configs[st.next := nc], list, seen, st.next, nc, false);
  }

  /** A configuration met before is named by its id: once, or twice in the
      `automata` copy. */
  lemma MeetAgain(v: seq<StateView>, gen: Generation, startID: int, s: int, done: set<string>,
                  nc: Configuration, seen: seq<Configuration>, list: seq<int>, st: Search)
    requires ViewWellFormed(v) && Within(v, gen, startID, s, done, st) && nc in st.ids
    requires ListSoFar(gen, st.configs, list, seen)
    ensures st.ids[nc] in st.configs && st.configs[st.ids[nc]] == nc
    ensures ListSoFar(gen, st.configs, list + if gen == AutomataGeneration then [st.ids[nc], st.ids[nc]] else [st.ids[nc]],
                      seen + [nc])
  {
    var dest := st.ids[nc];
    ListStep(gen, st.configs, st.configs, list, seen, dest, nc, gen == AutomataGeneration);
  }
}
