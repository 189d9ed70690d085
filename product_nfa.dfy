/** The product NFA as an object (ProductNFA): the constructor builds the
    product of an NFA with itself from the root pair (start, start);
    findAmbiguities walks it breadth first from the root and collects the
    ambiguous pairs it meets; isAmbiguous asks whether there is one. */
module ProductNfas {
  import opened Util
  import opened Configurations
  import opened Products
  import Ncas
  import NfaSearch
  import SetBuilder
  import Nfas
  import opened Approximations

  /** An NFA the search unfolded is one the product can be built from. */
  lemma UnfoldedIsReady(v: seq<Ncas.StateView>, gen: SetBuilder.Generation, startID: int,
                        configs: map<int, Configuration>, rows: map<int, map<string, seq<int>>>, finals: set<int>)
    requires Ncas.ViewWellFormed(v) && NfaSearch.Unfolded(v, gen, startID, configs, rows, finals)
    ensures ProductReady(configs, rows, startID)
  {
    forall s, sym, d | s in rows && sym in rows[s] && d in rows[s][sym]
      ensures d in rows
    {
      assert NfaSearch.Expanded(v, gen, configs, configs[s], rows[s]);
      assert NfaSearch.RowMatches(v, gen, configs, configs[s], sym, rows[s][sym]);
      var i :| 0 <= i < |rows[s][sym]| && rows[s][sym][i] == d;
    }
  }

  // ---------------------------------------------------------------------------
  // Reachability in the product

  /** `q` is listed in the row of `p`. */
  ghost predicate Edge(g: Rows, p: Pair, q: Pair) {
    p in g && q in RowPairs(g[p])
  }

  /** `path` starts at `root` and follows edges. */
  ghost predicate IsPath(g: Rows, root: Pair, path: seq<Pair>) {
    && |path| > 0 && path[0] == root
    && forall i :: 0 < i < |path| ==> Edge(g, path[i - 1], path[i])
  }

  /** Some path from `root` ends at `p`. */
  ghost predicate Reach(g: Rows, root: Pair, p: Pair) {
    exists path :: IsPath(g, root, path) && path[|path| - 1] == p
  }

  lemma ReachRoot(g: Rows, root: Pair)
    ensures Reach(g, root, root)
  {
    assert IsPath(g, root, [root]);
  }

  /** An edge out of a reachable pair leads to a reachable pair. */
  lemma ReachStep(g: Rows, root: Pair, p: Pair, q: Pair)
    requires Reach(g, root, p) && Edge(g, p, q)
    ensures Reach(g, root, q)
  {
    var path :| IsPath(g, root, path) && path[|path| - 1] == p;
    var path' := path + [q];
    assert IsPath(g, root, path');
  }

  /** A set that holds the root and is closed under edges holds every pair
      reached from the root. */
  lemma ClosedHoldsReach(g: Rows, root: Pair, s: set<Pair>, p: Pair)
    requires root in s && forall x, y :: x in s && Edge(g, x, y) ==> y in s
    requires Reach(g, root, p)
    ensures p in s
  {
    var path :| IsPath(g, root, path) && path[|path| - 1] == p;
    var i := 0;
    while i < |path| - 1
      invariant 0 <= i < |path| && path[i] in s
    {
      assert Edge(g, path[i], path[i + 1]);
      i := i + 1;
    }
  }

  // ---------------------------------------------------------------------------
  // The work list of findAmbiguities

  /** The entries of the queue that are already visited. */
  function Stale(queue: seq<Pair>, visited: set<Pair>): nat
    decreases |queue|
  {
    if queue == [] then 0 else (if queue[0] in visited then 1 else 0) + Stale(queue[1..], visited)
  }

  lemma {:induction false} StaleAppend(xs: seq<Pair>, ys: seq<Pair>, visited: set<Pair>)
    ensures Stale(xs + ys, visited) == Stale(xs, visited) + Stale(ys, visited)
    decreases |xs|
  {
    if xs != [] {
      var zs := xs + ys;
      assert zs != [] && zs[0] == xs[0] && zs[1..] == xs[1..] + ys;
      StaleAppend(xs[1..], ys, visited);
      assert Stale(zs, visited) == (if xs[0] in visited then 1 else 0) + Stale(xs[1..] + ys, visited);
    } else {
      assert xs + ys == ys;
    }
  }

  lemma {:induction false} StaleNone(xs: seq<Pair>, visited: set<Pair>)
    requires forall i :: 0 <= i < |xs| ==> xs[i] !in visited
    ensures Stale(xs, visited) == 0
    decreases |xs|
  {
    if xs != [] {
      StaleNone(xs[1..], visited);
    }
  }

  /** The inner loop of findAmbiguities: the pairs of `list` that are not
      visited join the queue, in order. */
  method EnqueueList(list: seq<Pair>, visited: set<Pair>, queue: seq<Pair>) returns (r: seq<Pair>, ghost added: seq<Pair>)
    ensures r == queue + added
    ensures Elements(added) == Elements(list) - visited
    ensures forall i :: 0 <= i < |added| ==> added[i] !in visited
  {
    r := queue;
    added := [];
    for k := 0 to |list|
      invariant r == queue + added
      invariant Elements(added) == Elements(list[..k]) - visited
      invariant forall i :: 0 <= i < |added| ==> added[i] !in visited
    {
      var s2 := list[k];
      assert list[..k + 1] == list[..k] + [s2];
      ElementsSnoc(list[..k], s2);
      if s2 !in visited {
        ElementsSnoc(added, s2);
        r := r + [s2];
        added := added + [s2];
      }
    }
    assert list[..|list|] == list;
  }

  /** The loop of findAmbiguities over the symbols of one row. */
  method EnqueueRow(row: map<string, seq<Pair>>, visited: set<Pair>, queue: seq<Pair>) returns (r: seq<Pair>, ghost added: seq<Pair>)
    ensures r == queue + added
    ensures Elements(added) == RowPairs(row) - visited
    ensures forall i :: 0 <= i < |added| ==> added[i] !in visited
  {
    r := queue;
    added := [];
    var symbols := row.Keys;
    ghost var done: set<string> := {};
    while symbols != {}
      invariant done == row.Keys - symbols && symbols <= row.Keys
      invariant r == queue + added
      invariant Elements(added) == RowPairs(map sym | sym in done :: row[sym]) - visited
      invariant forall i :: 0 <= i < |added| ==> added[i] !in visited
      decreases |symbols|
    {
      var symbol := Pick(symbols);
      ghost var before := added;
      ghost var more;
      r, more := EnqueueList(row[symbol], visited, r);
      added := added + more;
      ElementsAppend(before, more);
      RowPairsAdd(map sym | sym in done :: row[sym], symbol, row[symbol]);
      assert (map sym | sym in done :: row[sym])[symbol := row[symbol]] == map sym | sym in done + {symbol} :: row[sym];
      Take(row.Keys, symbols, done, symbol);
      symbols := symbols - {symbol};
      done := done + {symbol};
    }
    assert (map sym | sym in done :: row[sym]) == row;
  }

  /** The pairs findAmbiguities can meet: the root and the listed pairs. */
  ghost function Nodes(g: Rows, root: Pair): set<Pair> {
    {root} + Targets(g)
  }

  /** The invariant of findAmbiguities' loop: the visited and queued pairs
      are reachable, and every edge out of a visited pair leads to a visited
      or queued one. */
  ghost predicate Walk(g: Rows, root: Pair, visited: set<Pair>, queue: seq<Pair>) {
    && visited <= Nodes(g, root)
    && (forall p :: p in queue ==> p in Nodes(g, root) && Reach(g, root, p))
    && (forall p :: p in visited ==> Reach(g, root, p))
    && (root in visited || root in queue)
    && (forall x, y :: x in visited && Edge(g, x, y) ==> y in visited || y in queue)
  }

  /** The pairs queued from the row of a reachable pair are reachable. */
  lemma AddedReach(g: Rows, root: Pair, s1: Pair, row: map<string, seq<Pair>>, visited: set<Pair>, added: seq<Pair>)
    requires Reach(g, root, s1) && row == (if s1 in g then g[s1] else map[])
    requires Elements(added) == RowPairs(row) - visited
    ensures forall p :: p in added ==> p in Nodes(g, root) && Reach(g, root, p) && Edge(g, s1, p)
  {
    forall p | p in added
      ensures p in Nodes(g, root) && Reach(g, root, p) && Edge(g, s1, p)
    {
      assert p in Elements(added);
      var sym :| sym in row && p in row[sym];
      assert p in Targets(g);
      ReachStep(g, root, s1, p);
    }
  }

  /** The queue after one turn holds the rest of the old queue and the
      added pairs. */
  lemma QueueAfter(queue: seq<Pair>, added: seq<Pair>)
    requires queue != []
    ensures forall p :: p in queue[1..] + added ==> p in queue || p in added
    ensures forall p :: p in queue && p != queue[0] ==> p in queue[1..] + added
    ensures forall p :: p in added ==> p in queue[1..] + added
  {
    assert queue == [queue[0]] + queue[1..];
  }

  /** One turn of findAmbiguities keeps the loop's invariant and lowers its
      measure. */
  lemma FindStep(g: Rows, root: Pair, queue: seq<Pair>, visited: set<Pair>, row: map<string, seq<Pair>>, added: seq<Pair>)
    requires Walk(g, root, visited, queue) && queue != []
    requires row == (if queue[0] in g then g[queue[0]] else map[])
    requires Elements(added) == RowPairs(row) - visited
    requires forall i :: 0 <= i < |added| ==> added[i] !in visited
    ensures Walk(g, root, visited + {queue[0]}, queue[1..] + added)
    ensures || |Nodes(g, root) - (visited + {queue[0]})| < |Nodes(g, root) - visited|
            || (visited + {queue[0]} == visited && Stale(queue[1..] + added, visited + {queue[0]}) < Stale(queue, visited))
  {
    var s1 := queue[0];
    assert s1 in queue;
    AddedReach(g, root, s1, row, visited, added);
    QueueAfter(queue, added);
    forall x, y | x == s1 && Edge(g, x, y) && y !in visited
      ensures y in added
    {
      assert y in Elements(added);
    }
    FindMeasure(Nodes(g, root), queue, visited, added);
  }

  /** The measure of findAmbiguities' loop goes down: the head of the queue
      is either visited for the first time, or already visited and replaced
      by pairs that are not. */
  lemma FindMeasure(nodes: set<Pair>, queue: seq<Pair>, visited: set<Pair>, added: seq<Pair>)
    requires queue != [] && visited <= nodes && queue[0] in nodes
    requires forall i :: 0 <= i < |added| ==> added[i] !in visited
    ensures || |nodes - (visited + {queue[0]})| < |nodes - visited|
            || (visited + {queue[0]} == visited && Stale(queue[1..] + added, visited + {queue[0]}) < Stale(queue, visited))
  {
    var s1 := queue[0];
    if s1 in visited {
      assert visited + {s1} == visited;
      assert queue == [s1] + queue[1..];
      StaleAppend([s1], queue[1..], visited);
      StaleAppend(queue[1..], added, visited);
      StaleNone(added, visited);
    } else {
      assert nodes - (visited + {s1}) < nodes - visited;
    }
  }

  lemma InAppend<T>(xs: seq<T>, ys: seq<T>, y: T)
    ensures y in xs + ys <==> y in xs || y in ys
  {
  }

  // ---------------------------------------------------------------------------
  // The product NFA

  class ProductNfa {
    const regex: string
    /** The configuration (NCA state and counter values) of each NFA state,
        by id: what State.isAmbiguous reads through its two NFA states. */
    const configs: map<int, Configuration>
    const root: Pair
    /** The pairs the constructor met in some row (the root only if a row
        lists it). */
    var stateSet: set<Pair>
    /** Each product state's transition lists, by symbol. */
    var transitions: Rows

    /** ProductNFA(nfa): the rows of every pair reached together from the
        root (start, start). */
    constructor(nfa: Nfas.Nfa)
      requires ProductReady(nfa.nfaStates, nfa.transitions, nfa.startID)
      ensures regex == nfa.regex && configs == nfa.nfaStates && root == Pair(nfa.startID, nfa.startID)
      ensures Explored(nfa.transitions, nfa.startID, stateSet, transitions)
    {
      regex := nfa.regex;
      configs := nfa.nfaStates;
      root := Pair(nfa.startID, nfa.startID);
      var found, rows, expansions := Explore(nfa.nfaStates, nfa.transitions, nfa.startID);
      stateSet := found;
      transitions := rows;
    }

    /** findAmbiguities: the ambiguous pairs reachable from the root. The
        queue may hold a pair more than once; a pair is checked whenever it
        is taken off the queue. */
    method FindAmbiguities() returns (ambiguousStates: set<Pair>)
      ensures forall p :: p in ambiguousStates <==> Reach(transitions, root, p) && Ambiguous(configs, p)
    {
      ambiguousStates := {};
      var visited: set<Pair> := {};
      var unvisited := [root];
      ReachRoot(transitions, root);
      while unvisited != []
        invariant Walk(transitions, root, visited, unvisited)
        invariant forall p :: p in ambiguousStates <==> p in visited && Ambiguous(configs, p)
        decreases |Nodes(transitions, root) - visited|, Stale(unvisited, visited)
      {
        var s1 := unvisited[0];
        ghost var before := unvisited;
        unvisited := unvisited[1..];
        if Ambiguous(configs, s1) {
          ambiguousStates := ambiguousStates + {s1};
        }
        var row := if s1 in transitions then transitions[s1] else map[];
        ghost var added;
        unvisited, added := EnqueueRow(row, visited, unvisited);
        FindStep(transitions, root, before, visited, row, added);
        visited := visited + {s1};
      }
      forall p | Reach(transitions, root, p)
        ensures p in visited
      {
        ClosedHoldsReach(transitions, root, visited, p);
      }
    }

    /** isAmbiguous: findAmbiguities finds some pair. */
    method IsAmbiguous() returns (r: bool)
      ensures r <==> HasAmbiguity(transitions, root, configs)
    {
      var found := FindAmbiguities();
      r := found != {};
    }

    /** mightBeAmbiguous: one approximate regex per occurrence of each
        counter, each handed to the exact analysis `analyse` (Glushkov
        construction, unfolding, product, isAmbiguous); true as soon as one
        is ambiguous, otherwise whether more than one was checked. An
        exception in the analysis of an approximate regex leaves the method.
        Which approximate regexes are analysed before the result is known
        depends on the iteration order of the counter set, so a regex with
        one throwing and one ambiguous approximation may give either; the
        contract holds for every order: a returned verdict is the verdict,
        and an exception comes from a throwing analysis. So when no analysis
        throws, the result is `Ok(Verdict(...))`. */
    method MightBeAmbiguous(analyse: string -> Result<bool>) returns (r: Result<bool>)
      requires CounterSet(regex) != {}
      ensures r.Ok? ==> (r.value <==> Verdict(regex, FindsAmbiguous(analyse)))
      ensures r.Err? ==> SomeFails(regex, analyse)
    {
      var counters := FindCounters(regex);
      var numChecked := 0;
      var rest := counters;
      ghost var done: set<string> := {};
      while rest != {}
        invariant done == counters - rest && rest <= counters
        invariant numChecked == |ChecksOf(regex, done)|
        invariant NoneExactIn(regex, FindsAmbiguous(analyse), done)
        decreases |rest|
      {
        var counter := Pick(rest);
        var found;
        found, numChecked := CheckCounter(analyse, counter, numChecked);
        if found.Err? {
          FoundFailure(regex, analyse, counter);
          return Err(found.error);
        }
        if found.value {
          FoundExact(regex, FindsAmbiguous(analyse), counter);
          return Ok(true);
        }
        NoneExactAdd(regex, FindsAmbiguous(analyse), done, counter);
        Take(counters, rest, done, counter);
        rest := rest - {counter};
        done := done + {counter};
      }
      assert Verdict(regex, FindsAmbiguous(analyse)) <==> numChecked > 1 by {
        assert done == CounterSet(regex);
        NoneExact(regex, FindsAmbiguous(analyse));
      }
      r := Ok(numChecked > 1);
    }

    /** The inner loop of mightBeAmbiguous: the approximate regexes of the
        occurrences of one counter, in order, each counted once checked; the
        first ambiguous one returns true and the first throwing one throws. */
    method CheckCounter(analyse: string -> Result<bool>, counter: string, numChecked: int) returns (r: Result<bool>, num: int)
      ensures r == Ok(true) ==> exists i :: i in Occurrences(regex, counter, |regex|) && ExactAt(regex, FindsAmbiguous(analyse), counter, i)
      ensures r == Ok(false) ==> num == numChecked + |Occurrences(regex, counter, |regex|)|
      ensures r == Ok(false) ==> forall i :: i in Occurrences(regex, counter, |regex|) ==>
                !ExactAt(regex, FindsAmbiguous(analyse), counter, i) && !FailsAt(regex, analyse, counter, i)
      ensures r.Err? ==> exists i :: i in Occurrences(regex, counter, |regex|) && FailsAt(regex, analyse, counter, i)
    {
      var indices := GetIndices(regex, counter);
      num := numChecked;
      for k := 0 to |indices|
        invariant num == numChecked + k
        invariant forall j :: 0 <= j < k ==>
                    !ExactAt(regex, FindsAmbiguous(analyse), counter, indices[j]) && !FailsAt(regex, analyse, counter, indices[j])
      {
        var index := indices[k];
        CheckFits(regex, counter, index);
        var pref := Starred(regex[..index]);
        var suff := Starred(regex[index + |counter|..]);
        var approx := pref + counter + suff;
        var result := analyse(approx);
        if result.Err? {
          assert FailsAt(regex, analyse, counter, index);
          return Err(result.error), num;
        }
        if result.value {
          assert ExactAt(regex, FindsAmbiguous(analyse), counter, index);
          return Ok(true), num;
        }
        num := num + 1;
      }
      r := Ok(false);
    }
  }

  // ---------------------------------------------------------------------------
  // What the analysis decides

  /** In the product the constructor builds, the pairs reachable from the
      root are exactly the pairs reached together. */
  lemma ReachIsTogether(table: Table, start: int, stateSet: set<Pair>, rows: Rows, p: Pair)
    requires Explored(table, start, stateSet, rows)
    ensures Reach(rows, Pair(start, start), p) <==> Together(table, start, p)
  {
    var root := Pair(start, start);
    if Reach(rows, root, p) {
      var path :| IsPath(rows, root, path) && path[|path| - 1] == p;
      RootTogether(table, start);
      var i := 0;
      while i < |path| - 1
        invariant 0 <= i < |path| && Together(table, start, path[i])
      {
        assert Edge(rows, path[i], path[i + 1]);
        RowTogether(table, start, path[i]);
        i := i + 1;
      }
    }
    if Together(table, start, p) {
      var w :| p.a in Reached(table, start, w) && p.b in Reached(table, start, w);
      ReachedReachable(table, start, stateSet, rows, w);
    }
  }

  /** Any two states reached on the same symbols form a pair reachable in the
      product. */
  lemma {:induction false} ReachedReachable(table: Table, start: int, stateSet: set<Pair>, rows: Rows, w: seq<string>)
    requires Explored(table, start, stateSet, rows)
    ensures forall x, y :: x in Reached(table, start, w) && y in Reached(table, start, w) ==> Reach(rows, Pair(start, start), Pair(x, y))
    decreases |w|
  {
    var root := Pair(start, start);
    if w == [] {
      ReachRoot(rows, root);
    } else {
      var init := w[..|w| - 1];
      var sym := w[|w| - 1];
      ReachedReachable(table, start, stateSet, rows, init);
      forall x, y | x in Reached(table, start, w) && y in Reached(table, start, w)
        ensures Reach(rows, root, Pair(x, y))
      {
        var x0 :| x0 in Reached(table, start, init) && x0 in table && sym in table[x0] && x in table[x0][sym];
        var y0 :| y0 in Reached(table, start, init) && y0 in table && sym in table[y0] && y in table[y0][sym];
        var p := Pair(x0, y0);
        assert Together(table, start, p);
        ProductEdge(table, p, sym, Pair(x, y));
        assert Edge(rows, p, Pair(x, y));
        ReachStep(rows, root, p, Pair(x, y));
      }
    }
  }

  /** Some pair reachable from the root of `rows` is ambiguous: what
      isAmbiguous answers. */
  ghost predicate HasAmbiguity(rows: Rows, root: Pair, configs: map<int, Configuration>) {
    exists p :: Reach(rows, root, p) && Ambiguous(configs, p)
  }

  /** Some sequence of symbols reaches two NFA states with the same NCA state
      and different counter values. */
  ghost predicate AmbiguousWord(table: Table, start: int, configs: map<int, Configuration>) {
    exists w, x, y :: x in Reached(table, start, w) && y in Reached(table, start, w) && Ambiguous(configs, Pair(x, y))
  }

  /** The exact analysis of a constructed product: isAmbiguous holds exactly
      when some sequence of symbols reaches two NFA states with the same NCA
      state and different counter values. */
  lemma AmbiguousMeaning(table: Table, start: int, configs: map<int, Configuration>, stateSet: set<Pair>, rows: Rows)
    requires Explored(table, start, stateSet, rows)
    ensures HasAmbiguity(rows, Pair(start, start), configs) <==> AmbiguousWord(table, start, configs)
  {
    var root := Pair(start, start);
    if HasAmbiguity(rows, root, configs) {
      var p :| Reach(rows, root, p) && Ambiguous(configs, p);
      ReachIsTogether(table, start, stateSet, rows, p);
      var w :| p.a in Reached(table, start, w) && p.b in Reached(table, start, w);
      assert Pair(p.a, p.b) == p;
    }
    if AmbiguousWord(table, start, configs) {
      var w, x, y :| x in Reached(table, start, w) && y in Reached(table, start, w) && Ambiguous(configs, Pair(x, y));
      assert Together(table, start, Pair(x, y));
      ReachIsTogether(table, start, stateSet, rows, Pair(x, y));
    }
  }
}
